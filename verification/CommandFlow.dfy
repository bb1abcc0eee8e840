/**
 What the flags of the handler, its frames and its posted tasks tell about the
 run so far, and that a message sent to an idle debugger is dispatched.
 */
module CommandFlow {
  import opened CommandQueue

  function Depth(stack: Stack): nat
  {
    match stack
    case Empty => 0
    case Push(_, below) => 1 + Depth(below)
  }

  /** Step `k` of the run can be read as move `m` of the debugger thread. */
  predicate Steps(r: seq<State>, k: nat, m: Move)
  {
    k + 1 < |r| && DebuggerMoves(r[k], m, r[k + 1])
  }

  /** The innermost frame is inside its drain loop. */
  predicate Drains(h: Handler)
  {
    h.stack.Push? && (h.stack.top.at.Draining? || h.stack.top.at.Dispatching?)
  }

  /** A thread in `OnMessage` touches neither flag and neither enters nor leaves a frame. */
  lemma ProducersKeepFlags(h: Handler, p: Producer, text: string, canPost: bool)
    ensures var h' := ProducerStep(h, p, text, canPost).0;
            && h'.waiting == h.waiting && h'.dispatching == h.dispatching && h'.nested == h.nested
            && Depth(h'.stack) == Depth(h.stack) && (Drains(h') <==> Drains(h))
  {
  }

  lemma DebuggerMovesWaiting(h: Handler, m: Move)
    requires CanMove(h, m)
    ensures var h' := DebuggerStep(h, m);
            && (h'.waiting <==> m.WaitForDebugger? || (h.waiting && !m.RunIfWaitingForDebugger?))
            && (h.waiting ==> Depth(h.stack) <= Depth(h'.stack))
  {
  }

  // -------------------------------------------------------- the waiting flag

  /** `WaitForDebugger` was step `i`, and no `RunIfWaitingForDebugger` came between it and state `j`. */
  ghost predicate StillWaiting(r: seq<State>, i: nat, j: nat)
  {
    i < j && Steps(r, i, WaitForDebugger) && forall k: nat | i < k < j :: !Steps(r, k, RunIfWaitingForDebugger)
  }

  /** The reverse: released at step `i`, and no new wait since. */
  ghost predicate StillReleased(r: seq<State>, i: nat, j: nat)
  {
    i < j && Steps(r, i, RunIfWaitingForDebugger) && forall k: nat | i < k < j :: !Steps(r, k, WaitForDebugger)
  }

  /** While the flag is up no frame returns, and nothing but the release lowers it. */
  lemma WaitingStays(s: State, s': State)
    requires Next(s, s') && s.h.waiting && !DebuggerMoves(s, RunIfWaitingForDebugger, s')
    ensures s'.h.waiting && Depth(s.h.stack) <= Depth(s'.h.stack)
  {
    hide DebuggerStep, ProducerStep;
    if m :| DebuggerMoves(s, m, s') {
      DebuggerMovesWaiting(s.h, m);
    } else {
      var p, text :| ProducerMoves(s, p, text, s');
      ProducersKeepFlags(s.h, s.producers[p], text, s.canPost);
    }
  }

  lemma RaisedByWait(s: State, s': State)
    requires Next(s, s') && !s.h.waiting && s'.h.waiting
    ensures DebuggerMoves(s, WaitForDebugger, s')
  {
    hide DebuggerStep, ProducerStep;
    if m :| DebuggerMoves(s, m, s') {
      DebuggerMovesWaiting(s.h, m);
    } else {
      var p, text :| ProducerMoves(s, p, text, s');
      ProducersKeepFlags(s.h, s.producers[p], text, s.canPost);
    }
  }

  /** After `WaitForDebugger`, until the release, the flag is up and the frame that waits stays live. */
  lemma {:induction false} WaitsUntilReleased(r: seq<State>, i: nat, j: nat)
    requires IsRun(r) && j < |r| && StillWaiting(r, i, j)
    ensures r[j].h.waiting && Depth(r[i].h.stack) < Depth(r[j].h.stack)
    decreases j
  {
    if i + 1 < j {
      WaitsUntilReleased(r, i, j - 1);
      assert Moves(r, j - 1);
      assert !Steps(r, j - 1, RunIfWaitingForDebugger);
      WaitingStays(r[j - 1], r[j]);
    }
  }

  /** The flag is up exactly while a `WaitForDebugger` has not been released. */
  lemma {:induction false} WaitingIff(r: seq<State>, j: nat)
    requires IsRun(r) && j < |r|
    ensures r[j].h.waiting <==> exists i: nat :: StillWaiting(r, i, j)
  {
    if i: nat :| StillWaiting(r, i, j) {
      WaitsUntilReleased(r, i, j);
    }
    if j > 0 && r[j].h.waiting {
      assert Moves(r, j - 1);
      if r[j - 1].h.waiting {
        WaitingIff(r, j - 1);
        var i: nat :| StillWaiting(r, i, j - 1);
        assert StillWaiting(r, i, j);
      } else {
        RaisedByWait(r[j - 1], r[j]);
        assert StillWaiting(r, j - 1, j);
      }
    }
  }

  /** A frame that continues returns exactly if it checks an empty queue while no wait is outstanding. */
  lemma ReturnsIff(r: seq<State>, j: nat)
    requires IsRun(r) && Steps(r, j, Resume)
    ensures r[j + 1].h.stack == r[j].h.stack.below <==>
              && r[j].h.stack.top.at.Check? && r[j].h.queue == []
              && !exists i: nat :: StillWaiting(r, i, j)
  {
    WaitingIff(r, j);
    RunInv(r, j);
    var h := r[j].h;
    if r[j + 1].h.stack == h.stack.below {
      OnlyCheckReturns(h, Resume);
    }
  }

  /** It goes to sleep exactly if it checks an empty queue while a wait is outstanding. */
  lemma BlocksIff(r: seq<State>, j: nat)
    requires IsRun(r) && Steps(r, j, Resume)
    ensures r[j + 1].h.stack.Push? && r[j + 1].h.stack.top.at.Blocked? <==>
              && r[j].h.stack.top.at.Check? && r[j].h.queue == []
              && exists i: nat :: StillWaiting(r, i, j)
  {
    WaitingIff(r, j);
    RunInv(r, j);
  }

  lemma MovesKeepNotice(h: Handler, m: Move)
    requires CanMove(h, m) && StackOk(h)
    ensures var h' := DebuggerStep(h, m);
            h'.stack.Push? && h'.stack.top.at.Blocked? ==> (h'.stack.top.at.notified <==> h'.queue != [])
  {
  }

  /** A sleeping frame has been notified exactly if there are messages to wake up for. */
  lemma {:induction false} NotifiedIff(r: seq<State>, j: nat)
    requires IsRun(r) && j < |r|
    ensures var h := r[j].h; h.stack.Push? && h.stack.top.at.Blocked? ==> (h.stack.top.at.notified <==> h.queue != [])
  {
    hide DebuggerStep;
    if j > 0 {
      NotifiedIff(r, j - 1);
      RunInv(r, j - 1);
      assert Moves(r, j - 1);
      var s, s' := r[j - 1], r[j];
      if m :| DebuggerMoves(s, m, s') {
        MovesKeepNotice(s.h, m);
      }
    }
  }

  lemma {:induction false} ReleasedStays(r: seq<State>, i: nat, j: nat)
    requires IsRun(r) && j < |r| && StillReleased(r, i, j)
    ensures !r[j].h.waiting
    decreases j
  {
    if i + 1 < j {
      ReleasedStays(r, i, j - 1);
      assert Moves(r, j - 1);
      if r[j].h.waiting {
        RaisedByWait(r[j - 1], r[j]);
        assert Steps(r, j - 1, WaitForDebugger);
      }
    }
  }

  /** After a release, until the next wait, a frame that checks an empty queue returns. */
  lemma ReleasedFrameReturns(r: seq<State>, i: nat, j: nat)
    requires IsRun(r) && StillReleased(r, i, j) && Steps(r, j, Resume)
    requires r[j].h.stack.top.at.Check? && r[j].h.queue == []
    ensures r[j + 1].h.stack == r[j].h.stack.below
  {
    ReleasedStays(r, i, j);
  }

  // ---------------------------------------------------- the dispatching flag

  /** Step `k` begins to drain a batch. */
  predicate BeginsDrain(r: seq<State>, k: nat)
  {
    Steps(r, k, Resume) && r[k].h.stack.top.at.Swapped?
  }

  /** Step `k` finds a batch drained. */
  predicate EndsDrain(r: seq<State>, k: nat)
  {
    Steps(r, k, Resume) && r[k].h.stack.top.at.Draining? && r[k].h.stack.top.local == []
  }

  /** A drain began at step `i`, and no drain, of whatever frame, ended since. */
  ghost predicate StillDraining(r: seq<State>, i: nat, j: nat)
  {
    i < j && BeginsDrain(r, i) && forall k: nat | i < k < j :: !EndsDrain(r, k)
  }

  lemma FlagStep(r: seq<State>, j: nat)
    requires IsRun(r) && j + 1 < |r|
    ensures r[j + 1].h.dispatching <==> BeginsDrain(r, j) || (r[j].h.dispatching && !EndsDrain(r, j))
  {
    assert Moves(r, j);
  }

  /** The flag is up exactly if a drain has begun and none has ended since. */
  lemma {:induction false} DispatchingIff(r: seq<State>, j: nat)
    requires IsRun(r) && j < |r|
    ensures r[j].h.dispatching <==> exists i: nat :: StillDraining(r, i, j)
  {
    if j > 0 {
      DispatchingIff(r, j - 1);
      FlagStep(r, j - 1);
      if i: nat :| StillDraining(r, i, j) && i < j - 1 {
        assert StillDraining(r, i, j - 1);
        assert !EndsDrain(r, j - 1);
      }
      if r[j].h.dispatching {
        if BeginsDrain(r, j - 1) {
          assert StillDraining(r, j - 1, j);
        } else {
          var i: nat :| StillDraining(r, i, j - 1);
          assert StillDraining(r, i, j);
        }
      }
    }
  }

  lemma FrameMovesFlag(h: Handler)
    requires h.stack.Push? && h.stack.below.Empty? && (h.dispatching <==> Drains(h))
    ensures var h' := ResumeTop(h); h'.dispatching <==> Drains(h')
  {
  }

  lemma DebuggerMovesFlag(h: Handler, m: Move)
    requires CanMove(h, m) && StackOk(h) && InOrder(h)
    requires !h.nested ==> (h.dispatching <==> Drains(h))
    ensures var h' := DebuggerStep(h, m); !h'.nested ==> (h'.dispatching <==> Drains(h'))
  {
    if m.Resume? && !h.nested {
      FrameMovesFlag(h);
    }
  }

  /** As long as frames have not been nested the flag says whether the frame drains. */
  lemma {:induction false} FlagWithoutNesting(r: seq<State>, j: nat)
    requires IsRun(r) && j < |r|
    ensures !r[j].h.nested ==> (r[j].h.dispatching <==> Drains(r[j].h))
  {
    hide DebuggerStep, ProducerStep;
    if j > 0 {
      FlagWithoutNesting(r, j - 1);
      RunInv(r, j - 1);
      assert Moves(r, j - 1);
      var s, s' := r[j - 1], r[j];
      if m :| DebuggerMoves(s, m, s') {
        NestedStays(s.h, m);
        DebuggerMovesFlag(s.h, m);
      } else {
        var p, text :| ProducerMoves(s, p, text, s');
        ProducersKeepFlags(s.h, s.producers[p], text, s.canPost);
      }
    }
  }

  lemma NestedStays(h: Handler, m: Move)
    requires CanMove(h, m)
    ensures var h' := DebuggerStep(h, m);
            && (h'.nested <==> h.nested || (h.stack.Push? && Depth(h.stack) < Depth(h'.stack)))
            && Depth(h'.stack) <= Depth(h.stack) + 1
  {
  }

  lemma NestedStep(s: State, s': State)
    requires Next(s, s') && (Depth(s.h.stack) >= 2 ==> s.h.nested)
    ensures s'.h.nested <==> s.h.nested || Depth(s'.h.stack) >= 2
  {
    hide DebuggerStep, ProducerStep;
    if m :| DebuggerMoves(s, m, s') {
      NestedStays(s.h, m);
    } else {
      var p, text :| ProducerMoves(s, p, text, s');
      ProducersKeepFlags(s.h, s.producers[p], text, s.canPost);
    }
  }

  /** Frames count as nested exactly if some state so far has had two. */
  lemma {:induction false} NestedIff(r: seq<State>, j: nat)
    requires IsRun(r) && j < |r|
    ensures r[j].h.nested <==> exists i: nat :: i <= j && Depth(r[i].h.stack) >= 2
  {
    if j > 0 {
      NestedIff(r, j - 1);
      assert Moves(r, j - 1);
      NestedStep(r[j - 1], r[j]);
    }
  }

  // ------------------------------------------------------------ the producers

  /** Why a producer that leaves `p` in the state `h` of the handler is then at `p'`. */
  predicate Cause(h: Handler, p: Producer, p': Producer)
  {
    match p'
    case Outside => p.Returned?
    case Flag(round, k) =>
      if round == 0 then p.Outside? && k == |h.received| else round == 1 && p == Queue(0, k) && h.queue != []
    case Waiting(round, k) => p == Flag(round, k) && !h.dispatching
    case Queue(round, k) => p == Waiting(round, k) && !h.waiting
    case Post(k) => p.Queue? && p.round != 0 && p.k == k && h.queue != []
    case Returned(k) =>
      || p == Post(k)
      || (p.Flag? && p.k == k && h.dispatching)
      || (p.Waiting? && p.k == k && h.waiting)
      || (p.Queue? && p.k == k && h.queue == [])
  }

  lemma ProducerHasCause(h: Handler, p: Producer, text: string, canPost: bool)
    ensures Cause(h, p, ProducerStep(h, p, text, canPost).1)
  {
  }

  predicate StandsAt(r: seq<State>, i: nat, p: nat, at: Producer)
  {
    i < |r| && p in r[i].producers && r[i].producers[p] == at
  }

  /** Producer `p` reached the place where it stands in state `i` by step `j` and has not moved since. */
  ghost predicate Reached(r: seq<State>, j: nat, i: nat, p: nat)
  {
    && j < i < |r| && p in r[j].producers && p in r[i].producers
    && Cause(r[j].h, r[j].producers[p], r[i].producers[p])
    && forall k: nat | j < k <= i :: StandsAt(r, k, p, r[i].producers[p])
  }

  lemma OneMoves(s: State, s': State, p: nat)
    requires Next(s, s') && p in s'.producers
    ensures p in s.producers
    ensures s'.producers[p] == s.producers[p] || Cause(s.h, s.producers[p], s'.producers[p])
  {
    hide DebuggerStep, ProducerStep, Cause;
    if m :| DebuggerMoves(s, m, s') {
    } else {
      var q, text :| ProducerMoves(s, q, text, s');
      ProducerHasCause(s.h, s.producers[q], text, s.canPost);
    }
  }

  /** Every place inside `OnMessage` has been reached for its reason. */
  lemma {:induction false} WhyThere(r: seq<State>, i: nat, p: nat) returns (j: nat)
    requires IsRun(r) && i < |r| && p in r[i].producers && !r[i].producers[p].Outside?
    ensures Reached(r, j, i, p)
  {
    hide Cause, Next;
    assert i > 0;
    assert Moves(r, i - 1);
    OneMoves(r[i - 1], r[i], p);
    if r[i - 1].producers[p] == r[i].producers[p] {
      j := WhyThere(r, i - 1, p);
    } else {
      j := i - 1;
    }
  }

  /** One round of the status check: in this order the flag was down, nobody waited, the queue held messages. */
  ghost predicate FoundIdle(r: seq<State>, a: nat, b: nat, c: nat, p: nat, round: nat, k: nat)
  {
    && a < b < c
    && StandsAt(r, a, p, Flag(round, k)) && !r[a].h.dispatching
    && StandsAt(r, b, p, Waiting(round, k)) && !r[b].h.waiting
    && StandsAt(r, c, p, Queue(round, k)) && r[c].h.queue != []
  }

  lemma RoundBefore(r: seq<State>, c: nat, p: nat, round: nat, k: nat) returns (a: nat, b: nat)
    requires IsRun(r) && StandsAt(r, c, p, Queue(round, k)) && r[c].h.queue != []
    ensures FoundIdle(r, a, b, c, p, round, k)
  {
    hide IsRun;
    b := WhyThere(r, c, p);
    a := WhyThere(r, b, p);
  }

  lemma {:induction false} TwoRounds(r: seq<State>, i: nat, p: nat)
    requires IsRun(r) && i < |r| && p in r[i].producers
    ensures var at := r[i].producers[p]; at.Flag? || at.Waiting? || at.Queue? ==> at.round <= 1
    decreases i
  {
    hide IsRun;
    if !r[i].producers[p].Outside? {
      var j := WhyThere(r, i, p);
      TwoRounds(r, j, p);
    }
  }

  /** A task is posted only by a call that has twice found the debugger idle with messages in the queue. */
  lemma PostsWhenIdleTwice(r: seq<State>, i: nat, p: nat, k: nat)
    returns (a: nat, b: nat, c: nat, d: nat, e: nat, f: nat)
    requires IsRun(r) && StandsAt(r, i, p, Post(k))
    ensures FoundIdle(r, a, b, c, p, 0, k) && c < d < i && FoundIdle(r, d, e, f, p, 1, k) && f < i
  {
    hide IsRun;
    f := WhyThere(r, i, p);
    TwoRounds(r, f, p);
    d, e := RoundBefore(r, f, p, 1, k);
    c := WhyThere(r, d, p);
    a, b := RoundBefore(r, c, p, 0, k);
  }

  /** A call ends without a task only if one of its checks found the debugger busy or the queue empty. */
  lemma ReturnsForAReason(r: seq<State>, i: nat, p: nat, k: nat) returns (j: nat)
    requires IsRun(r) && StandsAt(r, i, p, Returned(k))
    ensures j < i && p in r[j].producers
    ensures var at := r[j].producers[p];
            || at == Post(k)
            || (at.Flag? && at.k == k && r[j].h.dispatching)
            || (at.Waiting? && at.k == k && r[j].h.waiting)
            || (at.Queue? && at.k == k && r[j].h.queue == [])
  {
    hide IsRun;
    j := WhyThere(r, i, p);
  }

  // ------------------------------------------------- a message to an idle debugger

  lemma MoveOn(r: seq<State>, m: Move) returns (r': seq<State>)
    requires IsRun(r) && CanMove(r[|r| - 1].h, m)
    ensures IsRun(r') && r <= r' && r'[|r'| - 1] == r[|r| - 1].(h := DebuggerStep(r[|r| - 1].h, m))
  {
    var s := r[|r| - 1];
    var s' := s.(h := DebuggerStep(s.h, m));
    r' := r + [s'];
    assert DebuggerMoves(s, m, s');
    forall i | 0 <= i < |r'| - 1
      ensures Moves(r', i)
    {
      assert i < |r| - 1 ==> Moves(r, i);
    }
  }

  lemma CallOn(r: seq<State>, p: nat, text: string) returns (r': seq<State>)
    requires IsRun(r) && p in r[|r| - 1].producers
    ensures var s := r[|r| - 1];
            var (h, at) := ProducerStep(s.h, s.producers[p], text, s.canPost);
            IsRun(r') && r <= r' && r'[|r'| - 1] == s.(h := h, producers := s.producers[p := at])
  {
    var s := r[|r| - 1];
    var out := ProducerStep(s.h, s.producers[p], text, s.canPost);
    var s' := s.(h := out.0, producers := s.producers[p := out.1]);
    r' := r + [s'];
    assert ProducerMoves(s, p, text, s');
    forall i | 0 <= i < |r'| - 1
      ensures Moves(r', i)
    {
      assert i < |r| - 1 ==> Moves(r, i);
    }
  }

  /** No frame is live and no message waits. */
  predicate Idle(h: Handler)
  {
    h.stack.Empty? && h.queue == [] && !h.waiting && !h.dispatching
  }

  /** `OnMessage` in an idle debugger runs through both rounds, posts a task and returns. */
  lemma IdleCall(r: seq<State>, p: nat, text: string) returns (r': seq<State>)
    requires IsRun(r) && Idle(r[|r| - 1].h) && StandsAt(r, |r| - 1, p, Outside) && r[|r| - 1].canPost
    ensures IsRun(r') && r <= r'
    ensures var s, h := r[|r| - 1], r[|r| - 1].h;
            r'[|r'| - 1] == s.(h := h.(received := h.received + [text], queue := [|h.received|], tasks := h.tasks + 1))
  {
    var s, k := r[|r| - 1], |r[|r| - 1].h.received|;
    hide IsRun;
    assert [] + [k] == [k];
    r' := CallOn(r, p, text);
    assert r'[|r'| - 1].producers[p] == Flag(0, k);
    r' := CallOn(r', p, text);
    r' := CallOn(r', p, text);
    r' := CallOn(r', p, text);
    assert r'[|r'| - 1].producers[p] == Flag(1, k);
    r' := CallOn(r', p, text);
    r' := CallOn(r', p, text);
    r' := CallOn(r', p, text);
    assert r'[|r'| - 1].producers[p] == Post(k);
    r' := CallOn(r', p, text);
    r' := CallOn(r', p, text);
    assert r'[|r'| - 1].producers == s.producers;
  }

  /** The posted task enters a frame, which takes the one message, dispatches it and returns. */
  lemma IdleTask(r: seq<State>, k: nat) returns (r': seq<State>)
    requires IsRun(r) && Idle(r[|r| - 1].h.(queue := [])) && r[|r| - 1].h.queue == [k] && r[|r| - 1].h.tasks > 0
    ensures IsRun(r') && r <= r'
    ensures var s, h := r[|r| - 1], r[|r| - 1].h;
            r'[|r'| - 1] == s.(h := h.(queue := [], tasks := h.tasks - 1, dispatched := h.dispatched + [k]))
  {
    hide IsRun;
    r' := MoveOn(r, RunTask);
    r' := MoveOn(r', Resume);
    assert r'[|r'| - 1].h.stack == Push(Frame(Swapped, [k]), Empty);
    r' := MoveOn(r', Resume);
    r' := MoveOn(r', Resume);
    assert r'[|r'| - 1].h.stack == Push(Frame(Dispatching, []), Empty);
    r' := MoveOn(r', Resume);
    r' := MoveOn(r', Resume);
    assert r'[|r'| - 1].h.stack == Push(Frame(Check, []), Empty);
    r' := MoveOn(r', Resume);
  }

  /**
   Every run that has come to rest without a live frame can go on such that the
   next message of any producer is dispatched and everything rests again.
   */
  lemma NextMessageIsDispatched(r: seq<State>, p: nat, text: string) returns (r': seq<State>)
    requires IsRun(r) && r[0].canPost && AtRest(r[|r| - 1]) && r[|r| - 1].h.stack.Empty?
    requires StandsAt(r, |r| - 1, p, Outside)
    ensures IsRun(r') && r <= r' && AtRest(r'[|r'| - 1])
    ensures var s, h := r[|r| - 1], r[|r| - 1].h;
            r'[|r'| - 1] ==
            s.(h := h.(received := h.received + [text], dispatched := h.dispatched + [|h.received|]))
  {
    RunInv(r, |r| - 1);
    RestMeansDispatched(r, |r| - 1);
    r' := IdleCall(r, p, text);
    r' := IdleTask(r', |r[|r| - 1].h.received|);
  }

  lemma DrainTop(r: seq<State>, h: Handler, k: nat) returns (r': seq<State>)
    requires IsRun(r) && r[|r| - 1].h == h && h.stack.Push? && h.stack.top == Frame(Check, []) && h.queue == [k]
    ensures IsRun(r') && r <= r'
    ensures r'[|r'| - 1] ==
              r[|r| - 1].(h := h.(queue := [], dispatching := true, dispatched := h.dispatched + [k],
                                  stack := Push(Frame(Dispatching, []), h.stack.below)))
  {
    hide IsRun;
    r' := MoveOn(r, Resume);
    r' := MoveOn(r', Resume);
    r' := MoveOn(r', Resume);
    assert [k][1..] == [];
  }

  /** Once frames nest, the end of the inner drain lowers the flag while the outer frame still dispatches. */
  lemma InnerDrainLowersFlag(text: string) returns (r: seq<State>)
    ensures IsRun(r)
    ensures var h := r[|r| - 1].h;
            h.stack == Push(Frame(Dispatching, []), Empty) && h.dispatched == [0, 1] && !h.dispatching
  {
    r := [State(Handler([], [], false, false, Empty, [], 0, false), map[0 := Outside, 1 := Outside], false)];
    assert IsRun(r);
    hide IsRun;
    r := CallOn(r, 0, text);
    r := MoveOn(r, ProcessCommand);
    r := DrainTop(r, r[|r| - 1].h, 0);
    r := CallOn(r, 1, text);
    r := MoveOn(r, ProcessCommand);
    r := DrainTop(r, r[|r| - 1].h, 1);
    r := MoveOn(r, Resume);
    r := MoveOn(r, Resume);
    r := MoveOn(r, Resume);
  }
}
