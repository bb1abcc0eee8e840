/**
 How a thread of the server came to be where it is.  For every position there is
 the step that leads to it and what that step found; read over a run, this says
 why a connection was opened, refused or closed.
 */
module ServerProvenance {
  import opened ServerModel
  import opened ServerInvariant
  import opened ServerProof
  import opened ServerCallbacks
  import opened Options

  // ------------------------------------------------- the step before a position

  /** A thread at `q` that finds `s` may come to be at `a` inside `AcceptNewConnection`. */
  predicate AcceptCause(s: Shared, q: PC, a: AcceptPC)
  {
    match a
    case FirstCheck => q == Idle
    case TryConnect => q == Accept(FirstCheck) && s.serverUp
    case SecondCheck => q == Accept(TryConnect) && s.conn == CLOSED
    case UndoConnect => q == Accept(SecondCheck) && !s.serverUp
    case CallAccept => q == Accept(SecondCheck) && s.serverUp
    case Accepting(fd) => q == Accept(CallAccept) && fd == s.serverFd
    case AcceptFailed => q.Accept? && q.acc.Accepting?
    case WantInstall(n) => q.Accept? && q.acc.Accepting? && n >= 0 && n !in s.k.files
    case Install(n) => q == Accept(WantInstall(n)) && s.writer.None? && s.readers == {}
    case ReleaseInstall => q.Accept? && q.acc.Install?
    case Validating => q == Transfer(HandshakeRecv, ReleaseShared(true))
    case RunOpen => q == Transfer(UpgradeReply, ReleaseShared(true))
    case SetOpen => q == Accept(RunOpen)
    case SetFail =>
      || (q.Transfer? && q.kind.HandshakeRecv? && q.tr.ReleaseShared?)
      || q == Accept(Validating)
      || (q.Transfer? && q.kind.RejectReply? && q.tr.ReleaseShared?)
      || q == Transfer(UpgradeReply, ReleaseShared(false))
  }

  /** Where a transfer of each kind begins. */
  predicate TransferStart(s: Shared, q: PC, kind: Transfer)
  {
    match kind
    case HandshakeRecv => q == Accept(ReleaseInstall)
    case UpgradeReply => q == Accept(Validating)
    case RejectReply => q == Accept(Validating)
    case CloseFrame(b) => q == CloseConn(b, TryClose) && s.conn == OPEN
    case Traffic => q == Use(InUse)
  }

  predicate TransferCause(s: Shared, q: PC, kind: Transfer, tr: TransferPC)
  {
    match tr
    case WantShared => TransferStart(s, q, kind)
    case ReadFd => q == Transfer(kind, WantShared) && s.writer.None?
    case InCall(fd) => q == Transfer(kind, ReadFd) && fd == s.connFd
    case ReleaseShared(_) => q.Transfer? && q.kind == kind && q.tr.InCall?
  }

  predicate CloseConnCause(s: Shared, q: PC, b: bool, cc: CloseConnPC)
  {
    match cc
    case TryClose => if b then q == Close(ResetListener(OPEN)) else q == Idle || q == Use(InUse)
    case Notify(FAIL) => q == Accept(SetFail) && !b
    case Notify(CLOSE) => q.Transfer? && q.kind == CloseFrame(b) && q.tr.ReleaseShared?
    case WantShut => q.CloseConn? && q.byClose == b && q.cc.Notify?
    case DoShut => q == CloseConn(b, WantShut) && s.writer.None?
    case ReleaseShut => q == CloseConn(b, DoShut)
    case WantExclusive => q == CloseConn(b, ReleaseShut)
    case CloseFd => q == CloseConn(b, WantExclusive) && s.writer.None? && s.readers == {}
    case ResetFd => q == CloseConn(b, CloseFd)
    case ReleaseExclusive => q == CloseConn(b, ResetFd)
    case SetClosed => q == CloseConn(b, ReleaseExclusive)
  }

  predicate UseCause(s: Shared, q: PC, u: UsePC)
  {
    match u
    case CheckOpen => q == Idle
    case InUse => (q == Use(CheckOpen) && s.conn == OPEN) || (q.Transfer? && q.kind.Traffic? && q.tr.ReleaseShared?)
  }

  predicate CloseCause(s: Shared, q: PC, cl: ClosePC)
  {
    match cl
    case Flip => q == Idle
    case ShutServer => q == Close(Flip) && s.serverUp
    case FirstLoad => q == Close(ShutServer)
    case WantPeek => (q == Close(FirstLoad) || q == Close(Reload(false))) && s.conn == CONNECTING
    case Peek => q == Close(WantPeek) && s.writer.None?
    case ReleasePeek(done) => q == Close(Peek) && (done <==> s.connFd != -1)
    case Reload(done) => q == Close(ReleasePeek(done))
    case CloseListener(seen) =>
      (q == Close(FirstLoad) || (q.Close? && q.cl.Reload?)) && seen == s.conn && seen != CONNECTING
    case ResetListener(seen) => q == Close(CloseListener(seen))
  }

  /** Where a call ends. */
  predicate EndCause(s: Shared, q: PC)
  {
    match q
    case Accept(FirstCheck) => !s.serverUp
    case Accept(TryConnect) => s.conn != CLOSED
    case Accept(a) => a.UndoConnect? || a.AcceptFailed? || a.SetOpen?
    case CloseConn(_, TryClose) => s.conn != OPEN
    case CloseConn(_, cc) => cc.SetClosed?
    case Use(CheckOpen) => s.conn != OPEN
    case Use(InUse) => true
    case Close(Flip) => !s.serverUp
    case Close(ResetListener(seen)) => seen != OPEN
    case _ => false
  }

  predicate Cause(s: Shared, q: PC, p: PC)
  {
    match p
    case Idle => EndCause(s, q)
    case Accept(a) => AcceptCause(s, q, a)
    case Transfer(kind, tr) => TransferCause(s, q, kind, tr)
    case CloseConn(b, cc) => CloseConnCause(s, q, b, cc)
    case Use(u) => UseCause(s, q, u)
    case Close(cl) => CloseCause(s, q, cl)
  }

  lemma IdleCause(s: Shared, t: nat, c: Choice)
    ensures Cause(s, Idle, Begin(c))
  {
  }

  lemma AcceptStepCause(s: Shared, t: nat, a: AcceptPC, c: Choice)
    requires CanAct(s, Accept(a), c)
    ensures Cause(s, Accept(a), ActAccept(s, t, a, c).1)
  {
  }

  lemma TransferStepCause(s: Shared, t: nat, kind: Transfer, tr: TransferPC, c: Choice)
    requires CanAct(s, Transfer(kind, tr), c)
    ensures var p' := ActTransfer(s, t, kind, tr, c).1; p' == Transfer(kind, tr) || Cause(s, Transfer(kind, tr), p')
  {
  }

  lemma CloseConnStepCause(s: Shared, t: nat, b: bool, cc: CloseConnPC, c: Choice)
    requires CanAct(s, CloseConn(b, cc), c)
    ensures Cause(s, CloseConn(b, cc), ActCloseConn(s, t, b, cc).1)
  {
  }

  lemma UseStepCause(s: Shared, u: UsePC, c: Choice)
    ensures Cause(s, Use(u), ActUse(s, u, c))
  {
  }

  lemma CloseStepCause(s: Shared, t: nat, cl: ClosePC, c: Choice)
    requires CanAct(s, Close(cl), c)
    ensures var p' := ActClose(s, t, cl).1; p' == Close(cl) || Cause(s, Close(cl), p')
  {
  }

  /** Every step that moves a thread has the cause listed for the position it leads to. */
  lemma StepHasCause(s: Shared, t: nat, p: PC, c: Choice)
    requires CanAct(s, p, c)
    ensures var p' := Act(s, t, p, c).1; p' == p || Cause(s, p, p')
  {
    hide Cause;
    match p
    case Idle => IdleCause(s, t, c);
    case Accept(a) => AcceptStepCause(s, t, a, c);
    case Transfer(kind, tr) => TransferStepCause(s, t, kind, tr, c);
    case CloseConn(b, cc) => CloseConnStepCause(s, t, b, cc, c);
    case Use(u) => UseStepCause(s, u, c);
    case Close(cl) => CloseStepCause(s, t, cl, c);
  }

  /** The answer of the environment that takes a thread from `p` to `q`. */
  function ChoiceFor(p: PC, q: PC): Choice
  {
    match p
    case Idle => Choice(match q case Accept(_) => 0 case Use(_) => 1 case CloseConn(_, _) => 2 case _ => 3, true, 0)
    case Accept(Accepting(_)) =>
      if q.Accept? && q.acc.WantInstall? then Choice(0, true, q.acc.n) else Choice(0, false, 0)
    case Accept(Validating) =>
      Choice(if q.Accept? then 0 else if q.Transfer? && q.kind.UpgradeReply? then 1 else 2, true, 0)
    case Transfer(_, InCall(_)) =>
      Choice(1, q.Transfer? && q.tr.ReleaseShared? && q.tr.ok, 0)
    case Transfer(_, ReleaseShared(_)) => Choice(0, q != Accept(SetFail), 0)
    case Use(InUse) => Choice(if q.Transfer? then 0 else if q.CloseConn? then 1 else 2, true, 0)
    case _ => Choice(0, true, 0)
  }

  lemma AcceptCauseSteps(s: Shared, t: nat, a: AcceptPC, q: PC)
    requires Cause(s, Accept(a), q)
    ensures var c := ChoiceFor(Accept(a), q); CanAct(s, Accept(a), c) && ActAccept(s, t, a, c).1 == q
  {
  }

  lemma TransferCauseSteps(s: Shared, t: nat, kind: Transfer, tr: TransferPC, q: PC)
    requires Cause(s, Transfer(kind, tr), q)
    ensures var c := ChoiceFor(Transfer(kind, tr), q);
            CanAct(s, Transfer(kind, tr), c) && ActTransfer(s, t, kind, tr, c).1 == q
  {
  }

  lemma CloseConnCauseSteps(s: Shared, t: nat, b: bool, cc: CloseConnPC, q: PC)
    requires Cause(s, CloseConn(b, cc), q)
    ensures CanAct(s, CloseConn(b, cc), ChoiceFor(CloseConn(b, cc), q)) && ActCloseConn(s, t, b, cc).1 == q
  {
  }

  lemma CloseCauseSteps(s: Shared, t: nat, cl: ClosePC, q: PC)
    requires Cause(s, Close(cl), q)
    ensures CanAct(s, Close(cl), ChoiceFor(Close(cl), q)) && ActClose(s, t, cl).1 == q
  {
  }

  lemma OtherCauseSteps(s: Shared, t: nat, p: PC, q: PC)
    requires Cause(s, p, q) && (p.Idle? || p.Use?)
    ensures CanAct(s, p, ChoiceFor(p, q)) && Act(s, t, p, ChoiceFor(p, q)).1 == q
  {
  }

  /** And for every listed cause there is a choice of the environment that makes the step. */
  lemma CauseHasStep(s: Shared, t: nat, p: PC, q: PC)
    requires Cause(s, p, q)
    ensures CanAct(s, p, ChoiceFor(p, q)) && Act(s, t, p, ChoiceFor(p, q)).1 == q
  {
    hide Cause, ChoiceFor;
    match p
    case Accept(a) => AcceptCauseSteps(s, t, a, q);
    case Transfer(kind, tr) => TransferCauseSteps(s, t, kind, tr, q);
    case CloseConn(b, cc) => CloseConnCauseSteps(s, t, b, cc, q);
    case Close(cl) => CloseCauseSteps(s, t, cl, q);
    case _ => OtherCauseSteps(s, t, p, q);
  }

  /** A thread stays where it is in a call that is interrupted, or while it waits for CONNECTING to end. */
  predicate Repeats(s: Shared, p: PC)
  {
    (p.Transfer? && p.tr.InCall?) || (p == Close(Reload(true)) && s.conn == CONNECTING)
  }

  lemma RepeatsIff(s: Shared, t: nat, p: PC)
    ensures Repeats(s, p) <==> exists c: Choice :: CanAct(s, p, c) && Act(s, t, p, c).1 == p
  {
    if Repeats(s, p) {
      assert CanAct(s, p, Choice(0, true, 0)) && Act(s, t, p, Choice(0, true, 0)).1 == p;
    }
  }

  /** The steps of a thread, exactly: the causes listed are all there are, and each can take effect. */
  lemma MovesIff(s: Shared, t: nat, p: PC, q: PC)
    ensures (exists c: Choice :: CanAct(s, p, c) && Act(s, t, p, c).1 == q) <==>
              if p == q then Repeats(s, p) else Cause(s, p, q)
  {
    hide Cause, Act, CanAct, Repeats;
    RepeatsIff(s, t, p);
    if c: Choice :| CanAct(s, p, c) && Act(s, t, p, c).1 == q {
      StepHasCause(s, t, p, c);
    }
    if p != q && Cause(s, p, q) {
      CauseHasStep(s, t, p, q);
    }
  }

  // --------------------------------------------------------------- whole runs

  predicate At(r: seq<State>, t: nat, i: nat, p: PC)
  {
    i < |r| && t in r[i].pcs && r[i].pcs[t] == p
  }

  /** Step `j` brings the thread to where it is at `i`, and it stays there in between. */
  ghost predicate Arrives(r: seq<State>, t: nat, j: nat, i: nat)
    requires j < i < |r|
  {
    && t in r[j].pcs && t in r[i].pcs && r[j].pcs[t] != r[i].pcs[t]
    && forall k | j < k <= i :: At(r, t, k, r[i].pcs[t])
  }

  lemma NextMoves(s: State, s': State, t: nat)
    requires Next(s, s') && t in s.pcs
    ensures t in s'.pcs && (s'.pcs[t] == s.pcs[t] || Cause(s.sh, s.pcs[t], s'.pcs[t]))
  {
    hide Cause, Act;
    if u: nat, c: Choice :| Step(s, u, c, s') {
      StepHasCause(s.sh, u, s.pcs[u], c);
    }
  }

  lemma {:induction false} ThreadsStay(r: seq<State>, t: nat, i: nat)
    requires IsRun(r) && i < |r|
    ensures t in r[i].pcs <==> t in r[0].pcs
  {
    if i > 0 {
      ThreadsStay(r, t, i - 1);
      assert Moves(r, i - 1);
      NextKeepsThreads(r[i - 1], r[i]);
    }
  }

  lemma NextKeepsThreads(s: State, s': State)
    requires Next(s, s')
    ensures s'.pcs.Keys == s.pcs.Keys
  {
    hide Act;
    if u: nat, c: Choice :| Step(s, u, c, s') {
      assert s'.pcs.Keys == s.pcs.Keys + {u};
    }
  }

  /** A thread that is in a call got where it is by a step that had the cause listed for the place. */
  lemma {:induction false} WhyHere(r: seq<State>, i: nat, t: nat) returns (j: nat)
    requires IsRun(r) && i < |r| && t in r[i].pcs && r[i].pcs[t] != Idle
    ensures j < i && Arrives(r, t, j, i) && Cause(r[j].sh, r[j].pcs[t], r[i].pcs[t])
  {
    hide Cause;
    assert i > 0;
    ThreadsStay(r, t, i);
    ThreadsStay(r, t, i - 1);
    assert Moves(r, i - 1);
    NextMoves(r[i - 1], r[i], t);
    if r[i - 1].pcs[t] == r[i].pcs[t] {
      j := WhyHere(r, i - 1, t);
    } else {
      j := i - 1;
    }
  }

  /** From after step `j` up to `i` the thread is in one transfer of the kind. */
  ghost predicate Transfers(r: seq<State>, t: nat, j: nat, i: nat, kind: Transfer)
  {
    forall k | j < k <= i :: k < |r| && t in r[k].pcs && r[k].pcs[t].Transfer? && r[k].pcs[t].kind == kind
  }

  /** A transfer in progress began where its kind begins. */
  lemma {:induction false} TransferBegan(r: seq<State>, i: nat, t: nat) returns (j: nat)
    requires IsRun(r) && i < |r| && t in r[i].pcs && r[i].pcs[t].Transfer?
    ensures j < i && t in r[j].pcs && TransferStart(r[j].sh, r[j].pcs[t], r[i].pcs[t].kind)
    ensures Transfers(r, t, j, i, r[i].pcs[t].kind)
    decreases i
  {
    hide TransferStart, IsRun;
    var m := WhyHere(r, i, t);
    j := m;
    if !r[i].pcs[t].tr.WantShared? {
      j := TransferBegan(r, m, t);
    }
    forall k | j < k <= i
      ensures k < |r| && t in r[k].pcs && r[k].pcs[t].Transfer? && r[k].pcs[t].kind == r[i].pcs[t].kind
    {
      assert k > m ==> At(r, t, k, r[i].pcs[t]);
    }
  }

  /** The thread ends the receipt of a request at `a`, asks the callback at `b` and ends a successful reply at `c`. */
  ghost predicate Handshake(r: seq<State>, t: nat, a: nat, b: nat, c: nat)
  {
    && At(r, t, a, Transfer(HandshakeRecv, ReleaseShared(true)))
    && (forall k | a < k <= b :: At(r, t, k, Accept(Validating)))
    && Transfers(r, t, b, c, UpgradeReply)
    && At(r, t, c, Transfer(UpgradeReply, ReleaseShared(true)))
  }

  /**
   A connection is opened only by a thread that has received a request on it,
   had it validated and sent the upgrade reply completely, in this order and
   without anything else in between.
   */
  lemma OpensAfterHandshake(r: seq<State>, i: nat, t: nat) returns (a: nat, b: nat, c: nat)
    requires IsRun(r) && (At(r, t, i, Accept(RunOpen)) || At(r, t, i, Accept(SetOpen)))
    ensures a < b < c < i && Handshake(r, t, a, b, c)
    ensures forall k | c < k <= i :: At(r, t, k, Accept(RunOpen)) || At(r, t, k, Accept(SetOpen))
    ensures At(r, t, i, Accept(RunOpen)) ==> forall k | c < k <= i :: At(r, t, k, Accept(RunOpen))
  {
    hide IsRun;
    c := WhyHere(r, i, t);
    if r[i].pcs[t] == Accept(SetOpen) {
      c := WhyHere(r, c, t);
    }
    b := TransferBegan(r, c, t);
    a := WhyHere(r, b, t);
  }

  lemma OnlySetOpenOpens(s: Shared, t: nat, p: PC, c: Choice)
    requires CanAct(s, p, c) && s.conn != OPEN && Act(s, t, p, c).0.conn == OPEN
    ensures p == Accept(SetOpen)
  {
  }

  lemma OpeningThread(s: State, s': State) returns (t: nat)
    requires Next(s, s') && s.sh.conn != OPEN && s'.sh.conn == OPEN
    ensures t in s.pcs && s.pcs[t] == Accept(SetOpen)
  {
    hide Act;
    var u: nat, c: Choice :| Step(s, u, c, s');
    OnlySetOpenOpens(s.sh, u, s.pcs[u], c);
    t := u;
  }

  /** Whenever the state becomes OPEN, that handshake has taken place. */
  lemma OpenMeansHandshake(r: seq<State>, i: nat) returns (t: nat, a: nat, b: nat, c: nat)
    requires IsRun(r) && i + 1 < |r| && r[i].sh.conn != OPEN && r[i + 1].sh.conn == OPEN
    ensures a < b < c < i && Handshake(r, t, a, b, c) && At(r, t, i, Accept(SetOpen))
  {
    RunInv(r, i);
    assert Moves(r, i);
    t := OpeningThread(r[i], r[i + 1]);
    a, b, c := OpensAfterHandshake(r, i, t);
  }

  // ------------------------------------------------------------ why it failed

  /** While an owner of the connection stands still, nobody runs a callback. */
  lemma {:induction false} CallsStay(r: seq<State>, t: nat, j: nat, i: nat)
    requires IsRun(r) && j <= i < |r| && t in r[i].pcs && Owns(r[i].pcs[t])
    requires forall k | j <= k <= i :: At(r, t, k, r[i].pcs[t])
    ensures r[i].sh.calls == r[j].sh.calls
  {
    if j < i {
      assert At(r, t, i - 1, r[i].pcs[t]);
      CallsStay(r, t, j, i - 1);
      RunInv(r, i - 1);
      assert Moves(r, i - 1);
      StillOwner(r[i - 1], r[i], t);
    }
  }

  lemma StillOwner(s: State, s': State, t: nat)
    requires Inv(s) && Next(s, s') && t in s.pcs && t in s'.pcs && Owns(s.pcs[t]) && s'.pcs[t] == s.pcs[t]
    ensures s'.sh.calls == s.sh.calls
  {
    if u: nat, c: Choice :| Step(s, u, c, s') {
      ActPhase(s.sh, u, s.pcs[u], c);
      if u == t {
        StandingStill(s.sh, t, s.pcs[t], c);
      }
      hide Act;
    }
  }

  lemma StandingStill(s: Shared, t: nat, p: PC, c: Choice)
    requires CanAct(s, p, c) && Act(s, t, p, c).1 == p
    ensures Act(s, t, p, c).0.calls == s.calls
  {
  }

  /** The reasons that fit what has been called when a thread gives up a handshake. */
  predicate FailReason(ph: Phase, t: nat, q: PC)
  {
    if ph == Validated(t)
    then q == Accept(Validating) || q == Transfer(UpgradeReply, ReleaseShared(false))
         || (q.Transfer? && q.kind.RejectReply? && q.tr.ReleaseShared?)
    else ph == Ready && q.Transfer? && q.kind.HandshakeRecv? && q.tr.ReleaseShared?
  }

  lemma FailCases(s: Shared, q: PC, t: nat, ph: Phase)
    requires AcceptCause(s, q, SetFail) && CallOk(ph, t, q)
    ensures FailReason(NextPhase(ph, t, q), t, q)
  {
  }

  lemma CallAt(r: seq<State>, i: nat, t: nat)
    requires IsRun(r) && i < |r| && t in r[i].pcs
    ensures CallOk(PhaseOf(r[i].sh.calls), t, r[i].pcs[t])
  {
    RunCalls(r, i);
  }

  /**
   A handshake fails only for a reason: before the validate callback because the
   request was not received or not accepted by the parser, after it because the
   callback refused, the request was rejected, or the reply was not sent.
   */
  lemma FailsForAReason(r: seq<State>, i: nat, t: nat) returns (j: nat)
    requires IsRun(r) && At(r, t, i, Accept(SetFail))
    ensures j < i && Arrives(r, t, j, i) && FailReason(PhaseOf(r[i].sh.calls), t, r[j].pcs[t])
  {
    j := WhyHere(r, i, t);
    CallsStay(r, t, j + 1, i);
    CallAt(r, j, t);
    assert Moves(r, j) && At(r, t, j + 1, Accept(SetFail));
    hide IsRun, FailReason, CallOk, PhaseOf, Next;
    FailPhase(r[j], r[j + 1], t);
    FailCases(r[j].sh, r[j].pcs[t], t, PhaseOf(r[j].sh.calls));
  }

  lemma FailPhase(s: State, s': State, t: nat)
    requires Next(s, s') && t in s.pcs && t in s'.pcs && s.pcs[t] != Accept(SetFail) && s'.pcs[t] == Accept(SetFail)
    requires CallOk(PhaseOf(s.sh.calls), t, s.pcs[t])
    ensures PhaseOf(s'.sh.calls) == NextPhase(PhaseOf(s.sh.calls), t, s.pcs[t])
  {
    var u: nat, c: Choice :| Step(s, u, c, s');
    ActPhase(s.sh, u, s.pcs[u], c);
    hide Act;
    assert u == t;
  }
}
