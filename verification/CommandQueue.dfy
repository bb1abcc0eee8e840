/**
 The debug command queue: `ProtocolHandler` with its re-entrant drain loop on
 the debugger thread, and any number of threads in `Inspector::OnMessage`.
 Every lock section, flag access and posted task is one step; a wait on the
 condition variable may end without a notification.
 */
module CommandQueue {

  /** Where a `ProcessCommand` frame is; `local` is its `dispatchingQueue`. */
  datatype At = Check | Blocked(notified: bool) | Swapped | Draining | Dispatching

  datatype Frame = Frame(at: At, local: seq<nat>)

  /** The live `ProcessCommand` frames of the debugger thread, innermost on top. */
  datatype Stack = Empty | Push(top: Frame, below: Stack)

  /** Where an `OnMessage` call is; `k` is the arrival number of its message. */
  datatype Producer =
    | Outside
    | Flag(round: nat, k: nat)
    | Waiting(round: nat, k: nat)
    | Queue(round: nat, k: nat)
    | Post(k: nat)
    | Returned(k: nat)

  /** The fields of the handler, the debugger thread and the task queue. */
  datatype Handler = Handler(
    received: seq<string>,   // text of message k at index k
    queue: seq<nat>,         // requestQueue_, by arrival number
    waiting: bool,           // waitingForDebugger_
    dispatching: bool,       // isDispatchingMessage_
    stack: Stack,
    dispatched: seq<nat>,
    tasks: nat,              // posted ProcessMessage tasks that have not started
    nested: bool)            // a frame was once entered on top of another

  /** `canPost` tells whether `debuggerPostTask_` is set. */
  datatype State = State(h: Handler, producers: map<nat, Producer>, canPost: bool)

  // ------------------------------------------------------- the debugger thread

  /** Code of the virtual machine or of a dispatched command runs, not `ProcessCommand` itself. */
  predicate InUserCode(h: Handler)
  {
    h.stack.Empty? || h.stack.top.at.Dispatching?
  }

  function Enter(h: Handler): Handler
  {
    h.(stack := Push(Frame(Check, []), h.stack), nested := h.nested || h.stack.Push?)
  }

  datatype Move =
    | WaitForDebugger
    | RunIfWaitingForDebugger
    | ProcessCommand
    | RunTask
    | Resume

  predicate CanMove(h: Handler, m: Move)
  {
    match m
    case Resume => h.stack.Push?
    case RunTask => InUserCode(h) && h.tasks > 0
    case _ => InUserCode(h)
  }

  function WithTop(h: Handler, f: Frame): Handler
    requires h.stack.Push?
  {
    h.(stack := Push(f, h.stack.below))
  }

  /** `requestQueue_.swap(dispatchingQueue)`. */
  function Swap(h: Handler): Handler
    requires h.stack.Push?
  {
    WithTop(h, Frame(Swapped, h.queue)).(queue := h.stack.top.local)
  }

  /** One step of the innermost `ProcessCommand` frame. */
  function ResumeTop(h: Handler): Handler
    requires h.stack.Push?
  {
    var f := h.stack.top;
    match f.at
    case Check =>
      if h.queue == [] then
        if !h.waiting then h.(stack := h.stack.below) else WithTop(h, f.(at := Blocked(false)))
      else Swap(h)
    case Blocked(_) => Swap(h)
    case Swapped => WithTop(h, f.(at := Draining)).(dispatching := true)
    case Draining =>
      if f.local == [] then WithTop(h, f.(at := Check)).(dispatching := false)
      else WithTop(h, Frame(Dispatching, f.local[1..])).(dispatched := h.dispatched + [f.local[0]])
    case Dispatching => WithTop(h, f.(at := Draining))
  }

  function DebuggerStep(h: Handler, m: Move): Handler
    requires CanMove(h, m)
  {
    match m
    case WaitForDebugger => Enter(h.(waiting := true))
    case RunIfWaitingForDebugger => h.(waiting := false)
    case ProcessCommand => Enter(h)
    case RunTask => Enter(h.(tasks := h.tasks - 1))
    case Resume => ResumeTop(h)
  }

  // ------------------------------------------------------------ the producers

  /** `DispatchCommand`: push under the lock and notify the innermost frame if it waits. */
  function PushMessage(h: Handler, text: string): Handler
  {
    h.(received := h.received + [text],
       queue := h.queue + [|h.received|],
       stack := if h.stack.Push? && h.stack.top.at.Blocked?
                then Push(h.stack.top.(at := Blocked(true)), h.stack.below) else h.stack)
  }

  /** One step of a thread in `OnMessage`; `round` 0 and 1 are the two status checks. */
  function ProducerStep(h: Handler, p: Producer, text: string, canPost: bool): (Handler, Producer)
  {
    match p
    case Outside => (PushMessage(h, text), Flag(0, |h.received|))
    case Flag(round, k) => (h, if h.dispatching then Returned(k) else Waiting(round, k))
    case Waiting(round, k) => (h, if h.waiting then Returned(k) else Queue(round, k))
    case Queue(round, k) =>
      (h, if h.queue == [] then Returned(k) else if round == 0 then Flag(1, k) else Post(k))
    case Post(k) => (if canPost then h.(tasks := h.tasks + 1) else h, Returned(k))
    case Returned(_) => (h, Outside)
  }

  predicate DebuggerMoves(s: State, m: Move, s': State)
  {
    CanMove(s.h, m) && s' == s.(h := DebuggerStep(s.h, m))
  }

  predicate ProducerMoves(s: State, p: nat, text: string, s': State)
  {
    && p in s.producers
    && var out := ProducerStep(s.h, s.producers[p], text, s.canPost);
       s' == s.(h := out.0, producers := s.producers[p := out.1])
  }

  ghost predicate Next(s: State, s': State)
  {
    || (exists m :: DebuggerMoves(s, m, s'))
    || (exists p, text :: ProducerMoves(s, p, text, s'))
  }

  ghost predicate Init(s: State)
  {
    && s.h == Handler([], [], false, false, Empty, [], 0, false)
    && forall p | p in s.producers :: s.producers[p] == Outside
  }

  ghost predicate Moves(r: seq<State>, i: nat)
    requires i + 1 < |r|
  {
    Next(r[i], r[i + 1])
  }

  ghost predicate IsRun(r: seq<State>)
  {
    |r| > 0 && Init(r[0]) && forall i | 0 <= i < |r| - 1 :: Moves(r, i)
  }

  // -------------------------------------------------------------- the invariant

  /** The arrival numbers from `a` up to `b`. */
  function Range(a: nat, b: nat): (s: seq<nat>)
    requires a <= b
    ensures |s| == b - a && forall i | 0 <= i < |s| :: s[i] == a + i
  {
    seq(b - a, i requires 0 <= i => a + i)
  }

  /** The local queues of all frames, outermost first. */
  function Locals(stack: Stack): seq<nat>
  {
    match stack
    case Empty => []
    case Push(f, below) => Locals(below) + f.local
  }

  predicate AllDispatching(stack: Stack)
  {
    match stack
    case Empty => true
    case Push(f, below) => f.at.Dispatching? && AllDispatching(below)
  }

  predicate Increasing(s: seq<nat>)
  {
    forall i, j | 0 <= i < j < |s| :: s[i] < s[j]
  }

  /**
   Frames under the innermost one are inside `Dispatch`, a frame holds messages
   only while it drains, and both flags imply a live frame.
   */
  predicate StackOk(h: Handler)
  {
    && (h.stack.Push? ==> AllDispatching(h.stack.below))
    && (h.stack.Push? && (h.stack.top.at.Check? || h.stack.top.at.Blocked?) ==> h.stack.top.local == [])
    && (h.stack.Push? && h.stack.top.at == Blocked(false) ==> h.queue == [])
    && (h.waiting ==> h.stack.Push?)
    && (h.dispatching ==>
          h.stack.Push? && (h.stack.below.Push? || h.stack.top.at.Draining? || h.stack.top.at.Dispatching?))
  }

  /** The messages that are not dispatched yet. */
  function Pending(h: Handler): seq<nat>
  {
    Locals(h.stack) + h.queue
  }

  /** Every message that arrived is dispatched or pending, once, and pending messages keep their order. */
  ghost predicate Conserved(h: Handler)
  {
    && multiset(h.dispatched) + multiset(Pending(h)) == multiset(Range(0, |h.received|))
    && Increasing(Pending(h))
  }

  /** Without nesting, messages are dispatched in the order in which they arrived. */
  predicate InOrder(h: Handler)
  {
    !h.nested ==>
      && (h.stack.Push? ==> h.stack.below.Empty?)
      && h.dispatched + Pending(h) == Range(0, |h.received|)
  }

  /** Somebody is bound to look at the queue again, or message `k` has left it. */
  predicate Attended(h: Handler, k: nat)
  {
    k !in h.queue || h.stack.Push? || h.tasks > 0
  }

  predicate ProducerOk(h: Handler, p: Producer, canPost: bool)
  {
    match p
    case Outside => true
    case Returned(k) => k < |h.received| && (canPost ==> Attended(h, k))
    case _ => p.k < |h.received|
  }

  ghost predicate HandlerOk(h: Handler)
  {
    StackOk(h) && Conserved(h) && InOrder(h)
  }

  ghost predicate ProducersOk(h: Handler, producers: map<nat, Producer>, canPost: bool)
  {
    forall p | p in producers :: ProducerOk(h, producers[p], canPost)
  }

  /** The `OnMessage` call of message `k` is over. */
  ghost predicate Settled(s: State, k: nat)
  {
    k < |s.h.received| &&
    forall p | p in s.producers :: s.producers[p].Outside? || s.producers[p].Returned? || s.producers[p].k != k
  }

  ghost predicate AllAttended(s: State)
  {
    forall k | Settled(s, k) :: Attended(s.h, k)
  }

  ghost predicate Inv(s: State)
  {
    HandlerOk(s.h) && ProducersOk(s.h, s.producers, s.canPost) && (s.canPost ==> AllAttended(s))
  }

  // ------------------------------------------------------------- preservation

  lemma ResumeKeepsStack(h: Handler)
    requires StackOk(h) && h.stack.Push?
    ensures StackOk(ResumeTop(h))
  {
  }

  /** The frame takes the first message of its own local queue. */
  predicate Dispatches(h: Handler)
  {
    h.stack.Push? && h.stack.top.at.Draining? && h.stack.top.local != []
  }

  lemma SwapPending(below: seq<nat>, queue: seq<nat>)
    ensures (below + queue) + [] == (below + []) + queue
  {
  }

  lemma TakePending(below: seq<nat>, local: seq<nat>, queue: seq<nat>)
    requires local != []
    ensures (below + local) + queue == below + [local[0]] + (local[1..] + queue)
    ensures (below + local[1..]) + queue == below + (local[1..] + queue)
  {
    assert local == [local[0]] + local[1..];
  }

  lemma DispatchPending(h: Handler)
    requires Dispatches(h)
    ensures var h', f, below := ResumeTop(h), h.stack.top, Locals(h.stack.below);
            && Pending(h) == below + [f.local[0]] + (f.local[1..] + h.queue)
            && Pending(h') == below + (f.local[1..] + h.queue)
            && h'.dispatched == h.dispatched + [f.local[0]]
  {
    TakePending(Locals(h.stack.below), h.stack.top.local, h.queue);
  }

  /** Every other step of a frame leaves the pending messages as they are. */
  lemma QuietPending(h: Handler)
    requires StackOk(h) && h.stack.Push? && !Dispatches(h)
    ensures Pending(ResumeTop(h)) == Pending(h) && ResumeTop(h).dispatched == h.dispatched
  {
    SwapPending(Locals(h.stack.below), h.queue);
    assert Locals(h.stack.below) + [] == Locals(h.stack.below);
  }

  lemma RemoveKeepsIncreasing(a: seq<nat>, x: nat, b: seq<nat>)
    requires Increasing(a + [x] + b)
    ensures Increasing(a + b)
  {
    var s, s' := a + [x] + b, a + b;
    forall i, j | 0 <= i < j < |s'|
      ensures s'[i] < s'[j]
    {
      var i', j' := if i < |a| then i else i + 1, if j < |a| then j else j + 1;
      assert s'[i] == s[i'] && s'[j] == s[j'];
    }
  }

  lemma RemoveKeepsCount(done: seq<nat>, a: seq<nat>, x: nat, b: seq<nat>)
    ensures multiset(done + [x]) + multiset(a + b) == multiset(done) + multiset(a + [x] + b)
  {
    assert multiset(a + [x] + b) == multiset(a) + multiset{x} + multiset(b);
  }

  lemma DispatchKeepsMessages(h: Handler)
    requires HandlerOk(h) && Dispatches(h)
    ensures Conserved(ResumeTop(h)) && InOrder(ResumeTop(h))
  {
    var f := h.stack.top;
    var below, x, rest := Locals(h.stack.below), f.local[0], f.local[1..] + h.queue;
    DispatchPending(h);
    RemoveKeepsIncreasing(below, x, rest);
    RemoveKeepsCount(h.dispatched, below, x, rest);
    if !h.nested {
      assert h.dispatched + ([] + [x] + rest) == h.dispatched + [x] + ([] + rest);
    }
  }

  lemma ResumeKeepsMessages(h: Handler)
    requires HandlerOk(h) && h.stack.Push?
    ensures Conserved(ResumeTop(h)) && InOrder(ResumeTop(h))
  {
    if Dispatches(h) {
      DispatchKeepsMessages(h);
    } else {
      QuietPending(h);
    }
  }

  /** A step of the debugger thread never leaves a message of a returned `OnMessage` unattended. */
  lemma DebuggerKeepsProducer(h: Handler, m: Move, p: Producer, canPost: bool)
    requires StackOk(h) && CanMove(h, m) && ProducerOk(h, p, canPost)
    ensures ProducerOk(DebuggerStep(h, m), p, canPost)
  {
  }

  lemma EnterKeepsHandler(h: Handler, waiting: bool, tasks: nat)
    requires HandlerOk(h) && InUserCode(h) && (h.waiting ==> waiting)
    ensures HandlerOk(Enter(h.(waiting := waiting, tasks := tasks)))
  {
    assert Locals(h.stack) + [] == Locals(h.stack);
  }

  lemma DebuggerKeepsHandler(h: Handler, m: Move)
    requires HandlerOk(h) && CanMove(h, m)
    ensures HandlerOk(DebuggerStep(h, m))
  {
    match m
    case WaitForDebugger => EnterKeepsHandler(h, true, h.tasks);
    case RunIfWaitingForDebugger =>
    case ProcessCommand => EnterKeepsHandler(h, h.waiting, h.tasks);
    case RunTask => EnterKeepsHandler(h, h.waiting, h.tasks - 1);
    case Resume => ResumeKeepsStack(h); ResumeKeepsMessages(h);
  }

  lemma ArrivalKeeps(done: seq<nat>, pending: seq<nat>, k: nat)
    requires multiset(done) + multiset(pending) == multiset(Range(0, k)) && Increasing(pending)
    ensures multiset(done) + multiset(pending + [k]) == multiset(Range(0, k + 1)) && Increasing(pending + [k])
    ensures done + pending == Range(0, k) ==> done + (pending + [k]) == Range(0, k + 1)
  {
    assert Range(0, k + 1) == Range(0, k) + [k];
    assert done + (pending + [k]) == done + pending + [k];
    forall i | 0 <= i < |pending|
      ensures pending[i] < k
    {
      assert pending[i] in multiset(pending);
      assert pending[i] in multiset(Range(0, k));
    }
  }

  lemma PushPending(h: Handler, text: string)
    ensures Pending(PushMessage(h, text)) == Pending(h) + [|h.received|]
  {
    assert Locals(h.stack) + (h.queue + [|h.received|]) == Pending(h) + [|h.received|];
  }

  lemma PushKeepsStack(h: Handler, text: string)
    requires StackOk(h)
    ensures StackOk(PushMessage(h, text))
  {
  }

  lemma PushKeepsHandler(h: Handler, text: string)
    requires HandlerOk(h)
    ensures HandlerOk(PushMessage(h, text))
  {
    PushKeepsStack(h, text);
    PushPending(h, text);
    ArrivalKeeps(h.dispatched, Pending(h), |h.received|);
  }

  lemma ProducerKeepsHandler(h: Handler, p: Producer, text: string, canPost: bool)
    requires HandlerOk(h) && ProducerOk(h, p, canPost)
    ensures var out := ProducerStep(h, p, text, canPost); HandlerOk(out.0) && ProducerOk(out.0, out.1, canPost)
  {
    if p.Outside? {
      PushKeepsHandler(h, text);
    }
  }

  lemma ProducerKeepsOther(h: Handler, p: Producer, text: string, canPost: bool, q: Producer)
    requires ProducerOk(h, q, canPost)
    ensures ProducerOk(ProducerStep(h, p, text, canPost).0, q, canPost)
  {
  }

  lemma DebuggerKeepsReceived(h: Handler, m: Move)
    requires CanMove(h, m)
    ensures DebuggerStep(h, m).received == h.received
  {
  }

  lemma DebuggerKeepsProducers(h: Handler, m: Move, producers: map<nat, Producer>, canPost: bool)
    requires StackOk(h) && CanMove(h, m) && ProducersOk(h, producers, canPost)
    ensures ProducersOk(DebuggerStep(h, m), producers, canPost)
  {
    forall p | p in producers
      ensures ProducerOk(DebuggerStep(h, m), producers[p], canPost)
    {
      DebuggerKeepsProducer(h, m, producers[p], canPost);
    }
  }

  lemma DebuggerKeepsInv(s: State, m: Move, s': State)
    requires Inv(s) && DebuggerMoves(s, m, s')
    ensures Inv(s')
  {
    DebuggerKeepsHandler(s.h, m);
    DebuggerKeepsProducers(s.h, m, s.producers, s.canPost);
    forall k | s.canPost && Settled(s', k)
      ensures Attended(s'.h, k)
    {
      DebuggerKeepsReceived(s.h, m);
      assert Settled(s, k);
      DebuggerKeepsProducer(s.h, m, Returned(k), true);
    }
  }

  /** A producer step settles no message but its own, and that one only when it is attended. */
  lemma NewlySettled(s: State, p: nat, text: string, s': State, k: nat)
    requires Inv(s) && ProducerMoves(s, p, text, s') && s.canPost && Settled(s', k)
    requires ProducerOk(s'.h, s'.producers[p], s.canPost)
    ensures Attended(s'.h, k)
  {
    if s.producers[p].Outside? {
      assert s'.producers[p].k == |s.h.received|;
    }
    if s'.producers[p] != Returned(k) {
      forall q | q in s.producers
        ensures s.producers[q].Outside? || s.producers[q].Returned? || s.producers[q].k != k
      {
        assert q in s'.producers;
      }
      assert Settled(s, k);
      ProducerKeepsOther(s.h, s.producers[p], text, true, Returned(k));
    }
  }

  lemma ProducerKeepsInv(s: State, p: nat, text: string, s': State)
    requires Inv(s) && ProducerMoves(s, p, text, s')
    ensures Inv(s')
  {
    ProducerKeepsHandler(s.h, s.producers[p], text, s.canPost);
    forall q | q in s'.producers && q != p
      ensures ProducerOk(s'.h, s'.producers[q], s'.canPost)
    {
      ProducerKeepsOther(s.h, s.producers[p], text, s.canPost, s.producers[q]);
    }
    forall k | s.canPost && Settled(s', k)
      ensures Attended(s'.h, k)
    {
      NewlySettled(s, p, text, s', k);
    }
  }

  lemma NextKeepsInv(s: State, s': State)
    requires Inv(s) && Next(s, s')
    ensures Inv(s') && s'.canPost == s.canPost
  {
    if m :| DebuggerMoves(s, m, s') {
      DebuggerKeepsInv(s, m, s');
    } else {
      var p, text :| ProducerMoves(s, p, text, s');
      ProducerKeepsInv(s, p, text, s');
    }
  }

  /** The invariant holds in every reachable state. */
  lemma {:induction false} RunInv(r: seq<State>, i: nat)
    requires IsRun(r) && i < |r|
    ensures Inv(r[i]) && r[i].canPost == r[0].canPost
  {
    if i > 0 {
      RunInv(r, i - 1);
      assert Moves(r, i - 1);
      NextKeepsInv(r[i - 1], r[i]);
    }
  }

  // -------------------------------------------------------------- the theorems

  /**
   No lost wake-up: once the `OnMessage` call of a message is over, the message
   has left the queue, or a frame of the debugger thread is still live, or a
   posted task is pending; and a frame that nobody has notified sleeps over an
   empty queue only.
   */
  lemma NoLostWakeup(r: seq<State>, i: nat, k: nat)
    requires IsRun(r) && i < |r| && r[0].canPost && Settled(r[i], k)
    ensures Attended(r[i].h, k)
    ensures r[i].h.stack.Push? && r[i].h.stack.top.at == Blocked(false) ==> r[i].h.queue == []
  {
    RunInv(r, i);
  }

  /** A frame returns only after it has found the queue empty, with nothing left of its own batch. */
  lemma FrameReturnsEmptyHanded(r: seq<State>, i: nat, m: Move)
    requires IsRun(r) && i + 1 < |r| && DebuggerMoves(r[i], m, r[i + 1])
    requires r[i].h.stack.Push? && r[i + 1].h.stack == r[i].h.stack.below
    ensures var h := r[i].h;
            h.queue == [] && h.stack.top.at.Check? && h.stack.top.local == [] && !h.waiting
  {
    RunInv(r, i);
    OnlyCheckReturns(r[i].h, m);
  }

  lemma OnlyCheckReturns(h: Handler, m: Move)
    requires StackOk(h) && CanMove(h, m) && h.stack.Push? && DebuggerStep(h, m).stack == h.stack.below
    ensures h.queue == [] && h.stack.top.at.Check? && h.stack.top.local == [] && !h.waiting
  {
    assert h.stack.below != h.stack;
  }

  /** Nothing moves any more unless a message arrives or code of the virtual machine calls in. */
  predicate AtRest(s: State)
  {
    && (if s.h.stack.Empty? then s.h.tasks == 0 else s.h.stack.top.at == Blocked(false))
    && forall p | p in s.producers :: s.producers[p].Outside? || s.producers[p].Returned?
  }

  /** When everything rests the queue is empty, and with no live frame every message has been dispatched. */
  lemma RestMeansDispatched(r: seq<State>, i: nat)
    requires IsRun(r) && i < |r| && r[0].canPost && AtRest(r[i])
    ensures r[i].h.queue == []
    ensures r[i].h.stack.Empty? ==> multiset(r[i].h.dispatched) == multiset(Range(0, |r[i].h.received|))
  {
    RunInv(r, i);
    var h := r[i].h;
    if h.queue != [] {
      var k := h.queue[0];
      assert k in Pending(h);
      DispatchedAtMostOnce(r, i, k);
      assert Settled(r[i], k);
    }
  }

  /** The state of a handler that holds one message and does nothing. */
  function Stranded(text: string): Handler
  {
    Handler([text], [0], false, false, Empty, [], 0, false)
  }

  /** Without `debuggerPostTask_` a message can stay in the queue with nobody to look at it. */
  lemma PostTaskIsNeeded(text: string) returns (r: seq<State>)
    ensures IsRun(r) && !r[0].canPost
    ensures var s := r[|r| - 1]; Settled(s, 0) && !Attended(s.h, 0) && AtRest(s)
  {
    var h := Stranded(text);
    var s0 := State(Handler([], [], false, false, Empty, [], 0, false), map[0 := Outside], false);
    var s1, s2, s3 := State(h, map[0 := Flag(0, 0)], false), State(h, map[0 := Waiting(0, 0)], false),
                      State(h, map[0 := Queue(0, 0)], false);
    var s4, s5, s6 := State(h, map[0 := Flag(1, 0)], false), State(h, map[0 := Waiting(1, 0)], false),
                      State(h, map[0 := Queue(1, 0)], false);
    var s7, s8 := State(h, map[0 := Post(0)], false), State(h, map[0 := Returned(0)], false);
    r := [s0, s1, s2, s3, s4, s5, s6, s7, s8];
    assert ProducerMoves(s0, 0, text, s1) && ProducerMoves(s1, 0, text, s2) && ProducerMoves(s2, 0, text, s3);
    assert ProducerMoves(s3, 0, text, s4) && ProducerMoves(s4, 0, text, s5) && ProducerMoves(s5, 0, text, s6);
    assert ProducerMoves(s6, 0, text, s7) && ProducerMoves(s7, 0, text, s8);
  }

  /** The `OnMessage` call of the message is over, and nobody is bound to look at it. */
  ghost predicate Lost(s: State, k: nat)
  {
    Settled(s, k) && !Attended(s.h, k)
  }

  /** A producer that is inside `OnMessage` for message `k`. */
  predicate Handles(p: Producer, k: nat)
  {
    !p.Outside? && !p.Returned? && p.k == k
  }

  /** No two calls handle the same message, and each handles one that arrived. */
  ghost predicate OneHandler(s: State)
  {
    && (forall p, k: nat | p in s.producers && Handles(s.producers[p], k) :: k < |s.h.received|)
    && (forall p, q, k: nat | && p in s.producers && q in s.producers
                              && Handles(s.producers[p], k) && Handles(s.producers[q], k) :: p == q)
  }

  lemma {:induction false} RunOneHandler(r: seq<State>, i: nat)
    requires IsRun(r) && i < |r|
    ensures OneHandler(r[i])
  {
    if i > 0 {
      RunOneHandler(r, i - 1);
      assert Moves(r, i - 1);
      NextKeepsHandlers(r[i - 1], r[i]);
    }
  }

  lemma NextKeepsHandlers(s: State, s': State)
    requires OneHandler(s) && Next(s, s')
    ensures OneHandler(s')
  {
    if m :| DebuggerMoves(s, m, s') {
      DebuggerKeepsReceived(s.h, m);
    } else {
      var p, text :| ProducerMoves(s, p, text, s');
      ProducerKeepsHandling(s.h, s.producers[p], text, s.canPost);
    }
  }

  /** A step of a producer keeps its message, drops it, or takes the one that it has just delivered. */
  lemma ProducerKeepsHandling(h: Handler, p: Producer, text: string, canPost: bool)
    ensures var (h', p') := ProducerStep(h, p, text, canPost);
            && |h.received| <= |h'.received|
            && forall k: nat | Handles(p', k) :: Handles(p, k) || (k == |h.received| && k < |h'.received|)
  {
  }

  /** The producer of `k` gives up: it would post a task, but there is no callback. */
  predicate GivesUp(s: State, p: nat, k: nat)
  {
    p in s.producers && s.producers[p] == Post(k) && !s.canPost
  }

  /** A step of the debugger thread loses no message. */
  lemma DebuggerLosesNothing(s: State, m: Move, s': State, k: nat)
    requires Inv(s) && DebuggerMoves(s, m, s') && Lost(s', k)
    ensures Lost(s, k)
  {
    DebuggerKeepsReceived(s.h, m);
    assert Settled(s, k);
    if Attended(s.h, k) {
      DebuggerKeepsProducer(s.h, m, Returned(k), true);
    }
  }

  /** A call that ends over an unattended message ends at the missing callback. */
  lemma EndsUnattended(h: Handler, q: Producer, text: string, canPost: bool, k: nat)
    requires StackOk(h) && Handles(q, k)
    requires var (h', q') := ProducerStep(h, q, text, canPost); !Handles(q', k) && !Attended(h', k)
    ensures q == Post(k) && !canPost && !Attended(h, k)
  {
  }

  lemma ProducerLoses(s: State, p: nat, text: string, s': State, k: nat)
    requires Inv(s) && ProducerMoves(s, p, text, s') && Lost(s', k) && !Lost(s, k)
    ensures GivesUp(s, p, k) && !Attended(s.h, k)
  {
    var q := s.producers[p];
    assert !Handles(s'.producers[p], k);
    if q.Outside? {
      assert s'.producers[p].k == |s.h.received|;
    }
    if !Handles(q, k) {
      forall u | u in s.producers
        ensures !Handles(s.producers[u], k)
      {
        assert u in s'.producers;
      }
      assert Settled(s, k);
      ProducerKeepsOther(s.h, q, text, true, Returned(k));
    } else {
      EndsUnattended(s.h, q, text, s.canPost, k);
    }
  }

  /** Message `k` becomes lost by the step from `s` to `s'`. */
  ghost predicate BecomesLost(s: State, s': State, k: nat)
  {
    !Lost(s, k) && Lost(s', k)
  }

  lemma GivingUpLoses(s: State, p: nat, s': State, k: nat)
    requires Inv(s) && OneHandler(s) && GivesUp(s, p, k) && !Attended(s.h, k)
    requires s' == s.(producers := s.producers[p := Returned(k)])
    ensures BecomesLost(s, s', k)
  {
    assert Handles(s.producers[p], k);
    forall q | q in s'.producers
      ensures s'.producers[q].Outside? || s'.producers[q].Returned? || s'.producers[q].k != k
    {
      assert q != p ==> !Handles(s.producers[q], k);
    }
  }

  /** A step in which the producer of `k` returns without posting a task while the message is unattended. */
  ghost predicate Abandons(s: State, s': State, k: nat)
  {
    !Attended(s.h, k) && exists p :: GivesUp(s, p, k) && s' == s.(producers := s.producers[p := Returned(k)])
  }

  /**
   On every run a message becomes lost in a step if and only if its own call
   returns from the missing post-task callback in that step while the message is
   in the queue, no frame is live and no task is pending.
   */
  lemma LostIff(r: seq<State>, i: nat, k: nat)
    requires IsRun(r) && i + 1 < |r|
    ensures BecomesLost(r[i], r[i + 1], k) <==> Abandons(r[i], r[i + 1], k)
  {
    RunInv(r, i);
    RunOneHandler(r, i);
    assert Moves(r, i);
    var s, s' := r[i], r[i + 1];
    if BecomesLost(s, s', k) {
      if m :| DebuggerMoves(s, m, s') {
        DebuggerLosesNothing(s, m, s', k);
      } else {
        var p, text :| ProducerMoves(s, p, text, s');
        ProducerLoses(s, p, text, s', k);
        assert GivesUp(s, p, k);
      }
    }
    if Abandons(s, s', k) {
      var p :| GivesUp(s, p, k) && s' == s.(producers := s.producers[p := Returned(k)]);
      GivingUpLoses(s, p, s', k);
    }
  }

  /** Each message is dispatched at most once, in every run and under every nesting. */
  lemma DispatchedAtMostOnce(r: seq<State>, i: nat, k: nat)
    requires IsRun(r) && i < |r|
    ensures multiset(r[i].h.dispatched)[k] <= 1
    ensures k < |r[i].h.received| <==> k in r[i].h.dispatched || k in Pending(r[i].h)
    ensures k in r[i].h.dispatched ==> k !in Pending(r[i].h)
  {
    RunInv(r, i);
    var h := r[i].h;
    RangeCount(|h.received|, k);
    assert multiset(h.dispatched)[k] + multiset(Pending(h))[k] == multiset(Range(0, |h.received|))[k];
    assert k in h.dispatched <==> k in multiset(h.dispatched);
    assert k in Pending(h) <==> k in multiset(Pending(h));
  }

  lemma {:induction false} RangeCount(n: nat, k: nat)
    ensures multiset(Range(0, n))[k] == if k < n then 1 else 0
  {
    if n > 0 {
      RangeCount(n - 1, k);
      assert Range(0, n) == Range(0, n - 1) + [n - 1];
    }
  }

  /** As long as no frame was entered on top of another, dispatch order is arrival order. */
  lemma ArrivalOrder(r: seq<State>, i: nat)
    requires IsRun(r) && i < |r| && !r[i].h.nested
    ensures r[i].h.dispatched == Range(0, |r[i].h.dispatched|)
  {
    RunInv(r, i);
    var h := r[i].h;
    assert h.dispatched == (h.dispatched + Pending(h))[..|h.dispatched|];
  }

  // ------------------------------------------------------------ dispatch order

  predicate DispatchesAt(r: seq<State>, j: nat)
    requires j + 1 < |r|
  {
    r[j + 1].h.dispatched != r[j].h.dispatched
  }

  /** A message that step `j` dispatches is taken while no outer frame has any of its batch left. */
  predicate OutermostFirst(r: seq<State>, j: nat)
    requires j + 1 < |r|
  {
    DispatchesAt(r, j) ==> r[j].h.stack.Push? && Locals(r[j].h.stack.below) == []
  }

  predicate InArrivalOrder(h: Handler)
  {
    h.dispatched == Range(0, |h.dispatched|)
  }

  lemma OnlyDrainingDispatches(s: State, s': State)
    requires Next(s, s') && s'.h.dispatched != s.h.dispatched
    ensures Dispatches(s.h) && s'.h.dispatched == s.h.dispatched + [s.h.stack.top.local[0]]
  {
    var m :| DebuggerMoves(s, m, s');
  }

  lemma FirstIsLeast(p: seq<nat>, k: nat)
    requires Increasing(p) && k in p
    ensures p[0] <= k
  {
    var i :| 0 <= i < |p| && p[i] == k;
  }

  /** If the messages before `n` are dispatched and no other, the first pending one is `n`. */
  lemma FirstPending(h: Handler)
    requires Conserved(h) && InArrivalOrder(h) && Pending(h) != []
    ensures Pending(h)[0] == |h.dispatched|
  {
    var n, m, p := |h.dispatched|, |h.received|, Pending(h);
    assert |multiset(h.dispatched) + multiset(p)| == |multiset(Range(0, m))|;
    CountPending(h, n);
    CountPending(h, p[0]);
    FirstIsLeast(p, n);
  }

  lemma CountPending(h: Handler, k: nat)
    requires Conserved(h) && InArrivalOrder(h)
    ensures k in Pending(h) <==> |h.dispatched| <= k < |h.received|
  {
    RangeCount(|h.dispatched|, k);
    RangeCount(|h.received|, k);
    assert multiset(h.dispatched)[k] + multiset(Pending(h))[k] == multiset(Range(0, |h.received|))[k];
    assert k in Pending(h) <==> k in multiset(Pending(h));
  }

  lemma OrderStep(h: Handler)
    requires HandlerOk(h) && Dispatches(h) && InArrivalOrder(h)
    ensures h.stack.top.local[0] == |h.dispatched| <==> Locals(h.stack.below) == []
  {
    var below, x := Locals(h.stack.below), h.stack.top.local[0];
    DispatchPending(h);
    FirstPending(h);
    var p := Pending(h);
    assert p[|below|] == x;
    assert below != [] ==> p[0] < p[|below|];
  }

  lemma AppendOrder(done: seq<nat>, x: nat)
    ensures done + [x] == Range(0, |done| + 1) <==> done == Range(0, |done|) && x == |done|
  {
    var n := |done|;
    assert Range(0, n + 1) == Range(0, n) + [n];
    if done + [x] == Range(0, n + 1) {
      assert done == (done + [x])[..n];
      assert x == (done + [x])[n];
    }
  }

  /**
   Over every run, nested or not, the messages are dispatched in the order in
   which they arrived if and only if no frame ever dispatches one while a frame
   below it has messages left.
   */
  lemma {:induction false} ArrivalOrderIff(r: seq<State>, i: nat)
    requires IsRun(r) && i < |r|
    ensures InArrivalOrder(r[i].h) <==> forall j | 0 <= j < i :: OutermostFirst(r, j)
  {
    if i > 0 {
      ArrivalOrderIff(r, i - 1);
      LastDispatch(r, i - 1);
      hide OutermostFirst, InArrivalOrder;
    }
  }

  lemma LastDispatch(r: seq<State>, j: nat)
    requires IsRun(r) && j + 1 < |r|
    ensures InArrivalOrder(r[j + 1].h) <==> InArrivalOrder(r[j].h) && OutermostFirst(r, j)
  {
    if DispatchesAt(r, j) {
      RunInv(r, j);
      assert Moves(r, j);
      var h := r[j].h;
      OnlyDrainingDispatches(r[j], r[j + 1]);
      AppendOrder(h.dispatched, h.stack.top.local[0]);
      if InArrivalOrder(h) {
        OrderStep(h);
      }
    }
  }

  lemma Started(s: State)
    requires Init(s)
    ensures IsRun([s])
  {
  }

  lemma Extended(r: seq<State>, s: State)
    requires IsRun(r) && Next(r[|r| - 1], s)
    ensures IsRun(r + [s])
  {
    var r' := r + [s];
    forall i | 0 <= i < |r'| - 1
      ensures Moves(r', i)
    {
      assert i < |r| - 1 ==> Moves(r, i);
    }
  }

  lemma ByDebugger(r: seq<State>, m: Move, h: Handler) returns (r': seq<State>)
    requires IsRun(r) && CanMove(r[|r| - 1].h, m) && DebuggerStep(r[|r| - 1].h, m) == h
    ensures IsRun(r') && r' != [] && r'[|r'| - 1] == r[|r| - 1].(h := h)
  {
    var s, s' := r[|r| - 1], r[|r| - 1].(h := h);
    assert DebuggerMoves(s, m, s');
    Extended(r, s');
    r' := r + [s'];
  }

  /** A thread `p` that is outside delivers a message. */
  lemma ByProducer(r: seq<State>, p: nat, text: string) returns (r': seq<State>)
    requires IsRun(r) && p in r[|r| - 1].producers && r[|r| - 1].producers[p].Outside?
    ensures var s := r[|r| - 1];
            && IsRun(r') && r' != []
            && r'[|r'| - 1] == s.(h := PushMessage(s.h, text), producers := s.producers[p := Flag(0, |s.h.received|)])
  {
    var s := r[|r| - 1];
    var s' := s.(h := PushMessage(s.h, text), producers := s.producers[p := Flag(0, |s.h.received|)]);
    assert ProducerMoves(s, p, text, s');
    Extended(r, s');
    r' := r + [s'];
  }

  /** A nested frame overtakes: three messages, and the third is dispatched before the second. */
  lemma NestedOvertakes(a: string, b: string, c: string) returns (r: seq<State>)
    ensures IsRun(r) && r[|r| - 1].h.dispatched == [0, 2]
  {
    hide IsRun;
    var h := Handler([], [], false, false, Empty, [], 0, false);
    var s := State(h, map[0 := Outside, 1 := Outside, 2 := Outside], true);
    Started(s);
    r := ByProducer([s], 0, a);
    r := ByProducer(r, 1, b);
    r := FirstDispatched(r, [a, b]);
    r := ByProducer(r, 2, c);
    r := SecondOvertaken(r, [a, b, c]);
  }

  lemma FirstDispatched(r: seq<State>, texts: seq<string>) returns (r': seq<State>)
    requires IsRun(r) && r != [] && r[|r| - 1].h == Handler(texts, [0, 1], false, false, Empty, [], 0, false)
    ensures IsRun(r') && r' != []
    ensures r'[|r'| - 1] ==
              r[|r| - 1].(h := Handler(texts, [], false, true, Push(Frame(Dispatching, [1]), Empty), [0], 0, false))
  {
    hide IsRun;
    var h := r[|r| - 1].h;
    r' := ByDebugger(r, ProcessCommand, h.(stack := Push(Frame(Check, []), Empty)));
    h := h.(queue := [], stack := Push(Frame(Swapped, [0, 1]), Empty));
    r' := ByDebugger(r', Resume, h);
    h := h.(stack := Push(Frame(Draining, [0, 1]), Empty), dispatching := true);
    r' := ByDebugger(r', Resume, h);
    h := h.(stack := Push(Frame(Dispatching, [1]), Empty), dispatched := [0]);
    r' := ByDebugger(r', Resume, h);
  }

  lemma SecondOvertaken(r: seq<State>, texts: seq<string>) returns (r': seq<State>)
    requires IsRun(r) && r != []
    requires r[|r| - 1].h == Handler(texts, [2], false, true, Push(Frame(Dispatching, [1]), Empty), [0], 0, false)
    ensures IsRun(r') && r' != [] && r'[|r'| - 1].h.dispatched == [0, 2]
  {
    hide IsRun;
    var h := r[|r| - 1].h;
    var outer := h.stack;
    h := h.(stack := Push(Frame(Check, []), outer), nested := true);
    r' := ByDebugger(r, ProcessCommand, h);
    h := h.(queue := [], stack := Push(Frame(Swapped, [2]), outer));
    r' := ByDebugger(r', Resume, h);
    h := h.(stack := Push(Frame(Draining, [2]), outer));
    r' := ByDebugger(r', Resume, h);
    assert [0] + [2] == [0, 2] && [2][1..] == [];
    h := h.(stack := Push(Frame(Dispatching, []), outer), dispatched := [0, 2]);
    r' := ByDebugger(r', Resume, h);
  }
}
