/**
 The order in which the connection callbacks run, over every interleaving, and
 the events lock that the static inspector takes and releases in them.
 */
module ServerCallbacks {
  import opened ServerModel
  import opened ServerInvariant
  import opened ServerProof
  import opened Options

  type Call = (Callback, nat)

  /** Where the recorded calls stand inside `([validate] fail | validate open close)*`. */
  datatype Phase = Ready | Validated(thread: nat) | Opened | Broken

  function After(ph: Phase, call: Call): Phase
  {
    match (ph, call.0)
    case (Ready, OnValidate) => Validated(call.1)
    case (Ready, OnFail) => Ready
    case (Validated(t), OnOpen) => if t == call.1 then Opened else Broken
    case (Validated(t), OnFail) => if t == call.1 then Ready else Broken
    case (Opened, OnClose) => Ready
    case _ => Broken
  }

  function PhaseOf(calls: seq<Call>): Phase
  {
    if calls == [] then Ready else After(PhaseOf(calls[..|calls| - 1]), calls[|calls| - 1])
  }

  lemma {:induction false} PhaseOfAppend(calls: seq<Call>, call: Call)
    ensures PhaseOf(calls + [call]) == After(PhaseOf(calls), call)
  {
    assert (calls + [call])[..|calls|] == calls;
  }

  // ------------------------------------------------------------ the invariant

  /** What has been called when the owner of the connection is at `p`. */
  predicate CallOk(ph: Phase, t: nat, p: PC)
  {
    match p
    case Accept(a) =>
      if a.FirstCheck? || a.TryConnect? then true
      else if a.RunOpen? then ph == Validated(t)
      else if a.SetOpen? then ph == Opened
      else if a.SetFail? then ph == Ready || ph == Validated(t)
      else ph == Ready
    case Transfer(kind, _) =>
      (match kind
       case HandshakeRecv => ph == Ready
       case UpgradeReply => ph == Validated(t)
       case RejectReply => ph == Validated(t)
       case CloseFrame(_) => ph == Opened
       case Traffic => true)
    case CloseConn(_, cc) =>
      (match cc
       case TryClose => true
       case Notify(FAIL) => ph == Ready || ph == Validated(t)
       case Notify(CLOSE) => ph == Opened
       case _ => ph == Ready)
    case _ => true
  }

  predicate StateCallOk(conn: ConnectionState, ph: Phase)
  {
    (conn == CLOSED ==> ph == Ready) && (conn == OPEN ==> ph == Opened) && ph != Broken
  }

  ghost predicate Calls(s: State)
  {
    StateCallOk(s.sh.conn, PhaseOf(s.sh.calls)) && forall t | t in s.pcs :: CallOk(PhaseOf(s.sh.calls), t, s.pcs[t])
  }

  /** The phase after a step of thread `t` at `p`. */
  function NextPhase(ph: Phase, t: nat, p: PC): Phase
  {
    match p
    case Accept(Validating) => After(ph, (OnValidate, t))
    case Accept(RunOpen) => After(ph, (OnOpen, t))
    case CloseConn(_, Notify(FAIL)) => After(ph, (OnFail, t))
    case CloseConn(_, Notify(CLOSE)) => After(ph, (OnClose, t))
    case _ => ph
  }

  lemma ActPhase(s: Shared, t: nat, p: PC, c: Choice)
    requires CanAct(s, p, c)
    ensures PhaseOf(Act(s, t, p, c).0.calls) == NextPhase(PhaseOf(s.calls), t, p)
    ensures !Owns(p) ==> Act(s, t, p, c).0.calls == s.calls
  {
    match p
    case Accept(Validating) => PhaseOfAppend(s.calls, (OnValidate, t));
    case Accept(RunOpen) => PhaseOfAppend(s.calls, (OnOpen, t));
    case CloseConn(_, Notify(reason)) =>
      PhaseOfAppend(s.calls, (if reason == FAIL then OnFail else OnClose, t));
    case _ =>
  }

  lemma AcceptCalls(s: Shared, t: nat, a: AcceptPC, c: Choice, ph: Phase)
    requires CanAct(s, Accept(a), c) && OwnerOk(s, Accept(a))
    requires StateCallOk(s.conn, ph) && CallOk(ph, t, Accept(a))
    ensures var out, ph' := ActAccept(s, t, a, c), NextPhase(ph, t, Accept(a));
            StateCallOk(out.0.conn, ph') && CallOk(ph', t, out.1)
  {
  }

  lemma OtherCalls(s: Shared, t: nat, p: PC, c: Choice, ph: Phase)
    requires CanAct(s, p, c) && OwnerOk(s, p) && !p.Accept?
    requires StateCallOk(s.conn, ph) && CallOk(ph, t, p)
    ensures var out, ph' := Act(s, t, p, c), NextPhase(ph, t, p);
            StateCallOk(out.0.conn, ph') && CallOk(ph', t, out.1)
  {
  }

  lemma ActCalls(s: Shared, t: nat, p: PC, c: Choice)
    requires CanAct(s, p, c) && OwnerOk(s, p)
    requires StateCallOk(s.conn, PhaseOf(s.calls)) && CallOk(PhaseOf(s.calls), t, p)
    ensures var out := Act(s, t, p, c);
            StateCallOk(out.0.conn, PhaseOf(out.0.calls)) && CallOk(PhaseOf(out.0.calls), t, out.1)
    ensures !Owns(p) ==> Act(s, t, p, c).0.calls == s.calls
  {
    ActPhase(s, t, p, c);
    if p.Accept? {
      AcceptCalls(s, t, p.acc, c, PhaseOf(s.calls));
    } else {
      OtherCalls(s, t, p, c, PhaseOf(s.calls));
    }
  }

  lemma CallsKept(s: State, t: nat, c: Choice, s': State)
    requires Inv(s) && Calls(s) && Step(s, t, c, s')
    ensures Calls(s')
  {
    assert OwnerOk(s.sh, s.pcs[t]);
    ActCalls(s.sh, t, s.pcs[t], c);
    forall u | u in s'.pcs
      ensures CallOk(PhaseOf(s'.sh.calls), u, s'.pcs[u])
    {
      if u != t {
        assert CallOk(PhaseOf(s.sh.calls), u, s.pcs[u]);
        assert !Owns(s.pcs[u]) ==> CallOk(PhaseOf(s'.sh.calls), u, s.pcs[u]);
      }
    }
  }

  lemma {:induction false} RunCalls(r: seq<State>, i: nat)
    requires IsRun(r) && i < |r|
    ensures Calls(r[i])
  {
    if i > 0 {
      RunCalls(r, i - 1);
      RunInv(r, i - 1);
      assert Moves(r, i - 1);
      var s, s' := r[i - 1], r[i];
      if t: nat, c: Choice :| Step(s, t, c, s') {
        CallsKept(s, t, c, s');
      } else {
        assert s'.pcs == s.pcs && s'.sh.calls == s.sh.calls && s'.sh.conn == s.sh.conn;
      }
    }
  }

  // ---------------------------------------------------------- rounds of calls

  /** One connection attempt: `fail`, `validate fail` or `validate open close`. */
  predicate IsRound(w: seq<Call>)
  {
    || (|w| == 1 && w[0].0 == OnFail)
    || (|w| == 2 && w[0].0 == OnValidate && w[1].0 == OnFail && w[0].1 == w[1].1)
    || (|w| == 3 && w[0].0 == OnValidate && w[1].0 == OnOpen && w[2].0 == OnClose && w[0].1 == w[1].1)
  }

  /** The beginning of a round. */
  predicate IsPartial(w: seq<Call>)
  {
    || w == []
    || (|w| == 1 && w[0].0 == OnValidate)
    || (|w| == 2 && w[0].0 == OnValidate && w[1].0 == OnOpen && w[0].1 == w[1].1)
  }

  function Flatten(rounds: seq<seq<Call>>): seq<Call>
  {
    if rounds == [] then [] else Flatten(rounds[..|rounds| - 1]) + rounds[|rounds| - 1]
  }

  predicate Splits(calls: seq<Call>, rounds: seq<seq<Call>>, tail: seq<Call>)
  {
    && calls == Flatten(rounds) + tail
    && IsPartial(tail)
    && forall i | 0 <= i < |rounds| :: IsRound(rounds[i])
  }

  predicate TailIn(tail: seq<Call>, ph: Phase)
  {
    match ph
    case Ready => tail == []
    case Validated(t) => |tail| == 1 && tail[0].1 == t
    case Opened => |tail| == 2
    case Broken => false
  }

  /** One more call continues the round, or ends it. */
  lemma TailStep(tail: seq<Call>, ph: Phase, call: Call)
    requires IsPartial(tail) && TailIn(tail, ph) && After(ph, call) != Broken
    ensures var tail', ph' := tail + [call], After(ph, call);
            if ph' == Ready then IsRound(tail') else IsPartial(tail') && TailIn(tail', ph')
  {
  }

  lemma {:induction false} FlattenStep(rounds: seq<seq<Call>>, round: seq<Call>)
    ensures Flatten(rounds + [round]) == Flatten(rounds) + round
  {
    assert (rounds + [round])[..|rounds|] == rounds;
  }

  lemma SplitStep(calls: seq<Call>, rounds: seq<seq<Call>>, tail: seq<Call>, call: Call)
    requires Splits(calls, rounds, tail)
    ensures IsPartial(tail + [call]) ==> Splits(calls + [call], rounds, tail + [call])
    ensures IsRound(tail + [call]) ==> Splits(calls + [call], rounds + [tail + [call]], [])
  {
    hide IsRound, IsPartial;
    FlattenStep(rounds, tail + [call]);
    hide Flatten;
    assert calls + [call] == Flatten(rounds) + (tail + [call]);
    assert Flatten(rounds) + (tail + [call]) + [] == Flatten(rounds) + (tail + [call]);
    EmptyIsPartial();
  }

  lemma EmptyIsPartial()
    ensures IsPartial([])
  {
  }

  /** A sequence that the monitor accepts is a word of the language followed by the start of a round. */
  lemma {:induction false} AcceptedCallsSplit(calls: seq<Call>) returns (rounds: seq<seq<Call>>, tail: seq<Call>)
    requires PhaseOf(calls) != Broken
    ensures Splits(calls, rounds, tail) && TailIn(tail, PhaseOf(calls))
  {
    if calls == [] {
      rounds, tail := [], [];
    } else {
      var n := |calls| - 1;
      var front, call := calls[..n], calls[n];
      assert calls == front + [call];
      PhaseOfAppend(front, call);
      assert PhaseOf(front) != Broken;
      rounds, tail := AcceptedCallsSplit(front);
      hide PhaseOf, IsPartial, IsRound, Splits;
      SplitParts(front, rounds, tail);
      TailStep(tail, PhaseOf(front), call);
      SplitStep(front, rounds, tail, call);
      if PhaseOf(calls) == Ready {
        rounds, tail := rounds + [tail + [call]], [];
      } else {
        tail := tail + [call];
      }
    }
  }

  lemma SplitParts(calls: seq<Call>, rounds: seq<seq<Call>>, tail: seq<Call>)
    requires Splits(calls, rounds, tail)
    ensures IsPartial(tail)
  {
  }

  /**
   On every run the callbacks of the server form a word of
   `([validate] fail | validate open close)*` followed by the beginning of one
   more round; the round is complete whenever the connection is CLOSED, and its
   `validate`, `open` and `fail` run on one thread.
   */
  lemma CallbackOrder(r: seq<State>, i: nat) returns (rounds: seq<seq<Call>>, tail: seq<Call>)
    requires IsRun(r) && i < |r|
    ensures Splits(r[i].sh.calls, rounds, tail)
    ensures r[i].sh.conn == CLOSED ==> tail == []
    ensures r[i].sh.conn == OPEN ==> |tail| == 2
  {
    RunCalls(r, i);
    rounds, tail := AcceptedCallsSplit(r[i].sh.calls);
  }

  // ------------------------------------- the events lock of the static inspector

  /** `debuggerEventsLock_` as the callbacks use it, and `connecting_`. */
  class DebuggerEvents {
    var connecting: bool
    var writer: Option<nat>
    var locks: nat
    var unlocks: nat

    ghost predicate Valid()
      reads this
    {
      && (connecting <==> writer.Some?)
      && locks == unlocks + (if connecting then 1 else 0)
    }

    constructor ()
      ensures Valid() && !connecting && locks == 0
    {
      connecting, writer, locks, unlocks := false, None, 0, 0;
    }

    /** `requires` is the assertion of the source; a lock that is held would block forever. */
    method OnValidate(t: nat)
      requires Valid() && !connecting
      modifies this
      ensures Valid() && writer == Some(t) && locks == old(locks) + 1 && unlocks == old(unlocks)
    {
      writer, locks := Some(t), locks + 1;
      connecting := true;
    }

    /** Only the thread that locked may unlock. */
    method OnOpen(t: nat)
      requires Valid() && connecting && writer == Some(t)
      modifies this
      ensures Valid() && writer.None? && locks == old(locks) && unlocks == old(unlocks) + 1
    {
      connecting := false;
      writer, unlocks := None, unlocks + 1;
    }

    method OnFail(t: nat)
      requires Valid() && (connecting ==> writer == Some(t))
      modifies this
      ensures Valid() && writer.None? && locks == old(locks)
      ensures unlocks == old(unlocks) + (if old(connecting) then 1 else 0)
    {
      if connecting {
        connecting := false;
        writer, unlocks := None, unlocks + 1;
      }
    }
  }

  lemma {:induction false} PrefixesAreAccepted(calls: seq<Call>, n: nat)
    requires PhaseOf(calls) != Broken && n <= |calls|
    ensures PhaseOf(calls[..n]) != Broken
    decreases |calls| - n
  {
    if n == |calls| {
      assert calls[..n] == calls;
    } else {
      PrefixesAreAccepted(calls, n + 1);
      assert calls[..n + 1][..n] == calls[..n];
    }
  }

  /**
   Running the inspector's callbacks in the order of any run of the server
   meets every assertion, and the write lock is held exactly between
   `validate` and the `open` or `fail` of the same round.
   */
  method RunCallbacks(events: DebuggerEvents, calls: seq<Call>, ghost r: seq<State>, ghost i: nat)
    requires events.Valid() && !events.connecting
    requires IsRun(r) && i < |r| && calls == r[i].sh.calls
    modifies events
    ensures events.Valid()
    ensures events.writer == match PhaseOf(calls) case Validated(t) => Some(t) case _ => None
    ensures r[i].sh.conn == CLOSED ==> events.locks == events.unlocks
  {
    RunCalls(r, i);
    var n := 0;
    assert calls[..0] == [];
    while n < |calls|
      invariant 0 <= n <= |calls|
      invariant events.Valid() && PhaseOf(calls[..n]) != Broken
      invariant events.writer == match PhaseOf(calls[..n]) case Validated(t) => Some(t) case _ => None
    {
      PrefixesAreAccepted(calls, n + 1);
      assert calls[..n + 1] == calls[..n] + [calls[n]];
      PhaseOfAppend(calls[..n], calls[n]);
      match calls[n].0 {
        case OnValidate => events.OnValidate(calls[n].1);
        case OnOpen => events.OnOpen(calls[n].1);
        case OnFail => events.OnFail(calls[n].1);
        case OnClose =>
      }
      n := n + 1;
    }
    assert calls[..n] == calls;
  }
}
