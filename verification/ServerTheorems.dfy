/** What the life cycle of the server guarantees on every run. */
module ServerTheorems {
  import opened ServerModel
  import opened ServerInvariant
  import opened ServerProof
  import opened Options

  // ---------------------------------------------------------- accept and Close

  /**
   `accept` is never called on, or in flight over, a listening socket that has
   been closed.
   */
  lemma AcceptUsesOpenListener(r: seq<State>, i: nat, t: nat)
    requires IsRun(r) && i < |r| && t in r[i].pcs
    requires r[i].pcs[t] == Accept(CallAccept) || (r[i].pcs[t].Accept? && r[i].pcs[t].acc.Accepting?)
    ensures var s := r[i].sh;
            && s.serverFd in s.k.files && s.k.files[s.serverFd] == 0 && 0 !in s.k.closes
            && (r[i].pcs[t].acc.Accepting? ==> r[i].pcs[t].acc.fd == s.serverFd)
            && s.conn == CONNECTING
  {
    RunInv(r, i);
    assert FdOk(r[i].sh, r[i].pcs[t]) && OwnerOk(r[i].sh, r[i].pcs[t]) && CopyOk(r[i].sh, r[i].pcs[t]);
  }

  /** Once nobody is past the second check and the server is down, that stays so. */
  lemma QuietIsStable(s: State, s': State)
    requires Inv(s) && Next(s, s') && Quiet(s)
    ensures Quiet(s') && (s.sh.conn != OPEN ==> s'.sh.conn != OPEN)
  {
    if t: nat, c: Choice :| Step(s, t, c, s') {
      StepKeepsInv(s, t, c, s');
      assert OwnerOk(s.sh, s.pcs[t]);
    }
  }

  lemma QuietStep(r: seq<State>, i: nat)
    requires IsRun(r) && i + 1 < |r| && Quiet(r[i])
    ensures Quiet(r[i + 1]) && (r[i].sh.conn != OPEN ==> r[i + 1].sh.conn != OPEN)
  {
    RunInv(r, i);
    assert Moves(r, i);
    QuietIsStable(r[i], r[i + 1]);
  }

  lemma {:induction false} QuietForEver(r: seq<State>, i: nat, j: nat)
    requires IsRun(r) && i <= j < |r| && Quiet(r[i])
    ensures Quiet(r[j]) && (r[i].sh.conn != OPEN ==> r[j].sh.conn != OPEN)
  {
    if i < j {
      QuietForEver(r, i, j - 1);
      QuietStep(r, j - 1);
    }
  }

  /**
   After the `Close` that stopped the server has returned, the connection is
   never OPEN again, nobody is past the checks of `MoveToConnectingState`, the
   listening socket has been closed once, and a connection whose socket is not
   closed yet is being closed by the thread that owns CLOSING.
   */
  lemma CloseIsFinal(r: seq<State>, i: nat, j: nat)
    requires IsRun(r) && i <= j < |r| && r[i].sh.closeReturned
    ensures r[j].sh.conn != OPEN && Quiet(r[j])
    ensures r[i].sh.k.closes[0] == 1
    ensures r[j].sh.k.Live() != {} ==>
              && r[j].sh.conn == CLOSING
              && exists t :: t in r[j].pcs && OwnsClosing(r[j].pcs[t])
  {
    RunInv(r, i);
    QuietForEver(r, i, j);
    RunInv(r, j);
    if r[j].sh.k.Live() != {} {
      var t :| t in r[j].pcs && Owns(r[j].pcs[t]);
      assert FdOk(r[j].sh, r[j].pcs[t]) && OwnerOk(r[j].sh, r[j].pcs[t]);
    }
  }

  ghost predicate Opens(r: seq<State>, i: nat)
    requires i + 1 < |r|
  {
    r[i].sh.conn == CONNECTING && r[i + 1].sh.conn == OPEN
  }

  /** The acceptor that opens the connection was the only one past the checks. */
  lemma OpeningLeavesNobody(s: State, s': State)
    requires Inv(s) && Next(s, s') && s.sh.conn == CONNECTING && s'.sh.conn == OPEN
    ensures !Quiet(s)
    ensures !s.sh.serverUp ==> Quiet(s')
  {
    if t: nat, c: Choice :| Step(s, t, c, s') {
      StepKeepsInv(s, t, c, s');
      assert Passed(s.pcs[t]);
      forall u | u in s'.pcs
        ensures !Passed(s'.pcs[u])
      {
        assert OwnerOk(s'.sh, s'.pcs[u]);
      }
    }
  }

  /** After `serverUp_` has gone down at most one connection still becomes OPEN. */
  lemma AtMostOneLateOpen(r: seq<State>, i: nat, j: nat)
    requires IsRun(r) && i < j && j + 1 < |r|
    requires !r[i].sh.serverUp && Opens(r, i)
    ensures !Opens(r, j)
  {
    RunInv(r, i);
    assert Moves(r, i);
    OpeningLeavesNobody(r[i], r[i + 1]);
    QuietForEver(r, i + 1, j);
    if Opens(r, j) {
      RunInv(r, j);
      assert Moves(r, j);
      OpeningLeavesNobody(r[j], r[j + 1]);
    }
  }

  /** Between the flip of `serverUp_` and the return of that `Close` the call is live. */
  ghost predicate CloserLives(s: State)
  {
    !s.sh.serverUp && !s.sh.closeReturned ==> exists t :: t in s.pcs && InClose(s.pcs[t])
  }

  lemma StepKeepsCloser(s: State, t: nat, c: Choice, s': State)
    requires Inv(s) && CloserLives(s) && Step(s, t, c, s')
    ensures CloserLives(s')
  {
    StepKeepsInv(s, t, c, s');
    hide Inv, Act;
    if !s'.sh.serverUp && !s'.sh.closeReturned {
      if s.sh.serverUp {
        assert InClose(s'.pcs[t]);
      } else {
        var u :| u in s.pcs && InClose(s.pcs[u]);
        assert u in s'.pcs && InClose(s'.pcs[u]);
      }
    }
  }

  lemma {:induction false} RunCloser(r: seq<State>, i: nat)
    requires IsRun(r) && i < |r|
    ensures CloserLives(r[i])
  {
    if i > 0 {
      RunCloser(r, i - 1);
      RunInv(r, i - 1);
      assert Moves(r, i - 1);
      var s, s' := r[i - 1], r[i];
      if t: nat, c: Choice :| Step(s, t, c, s') {
        StepKeepsCloser(s, t, c, s');
      } else {
        assert s'.pcs == s.pcs && s'.sh.serverUp == s.sh.serverUp && s'.sh.closeReturned == s.sh.closeReturned;
      }
    }
  }

  /** Inside `Close`, before its attempt to close the connection; what it has loaded, if it has, is OPEN. */
  predicate WillClose(pc: PC)
  {
    match pc
    case Close(cl) => !cl.Flip? && (cl.CloseListener? || cl.ResetListener? ==> cl.seen == OPEN)
    case CloseConn(byClose, cc) => byClose && cc.TryClose?
    case _ => false
  }

  /**
   A connection that is OPEN while the server is down has a thread inside
   `Close` that is on its way to close it: `Close` has not returned, has not
   tried yet, and if it has looked at the state already it saw OPEN.
   */
  lemma LateOpenHasCloser(r: seq<State>, i: nat)
    requires IsRun(r) && i < |r| && !r[i].sh.serverUp && r[i].sh.conn == OPEN
    ensures !r[i].sh.closeReturned
    ensures exists t :: t in r[i].pcs && WillClose(r[i].pcs[t])
  {
    RunInv(r, i);
    RunCloser(r, i);
    var t :| t in r[i].pcs && InClose(r[i].pcs[t]);
    assert OwnerOk(r[i].sh, r[i].pcs[t]) && SeenOk(r[i].sh, r[i].pcs[t]);
    assert WillClose(r[i].pcs[t]);
  }

  // ------------------------------------------------------------------ ownership

  /** CONNECTING and CLOSING always have exactly one owner, and no other state has one. */
  lemma SingleOwner(r: seq<State>, i: nat)
    requires IsRun(r) && i < |r|
    ensures r[i].sh.conn == CONNECTING || r[i].sh.conn == CLOSING <==>
              exists t :: t in r[i].pcs && Owns(r[i].pcs[t])
    ensures forall t, u | t in r[i].pcs && u in r[i].pcs && Owns(r[i].pcs[t]) && Owns(r[i].pcs[u]) :: t == u
    ensures forall t | t in r[i].pcs && Owns(r[i].pcs[t]) ::
              OwnsConnecting(r[i].pcs[t]) <==> r[i].sh.conn == CONNECTING
  {
    RunInv(r, i);
    forall t | t in r[i].pcs && Owns(r[i].pcs[t])
      ensures OwnsConnecting(r[i].pcs[t]) <==> r[i].sh.conn == CONNECTING
      ensures r[i].sh.conn == CONNECTING || r[i].sh.conn == CLOSING
    {
      assert OwnerOk(r[i].sh, r[i].pcs[t]);
    }
  }

  /** The only edges of the connection state. */
  predicate Edge(a: ConnectionState, b: ConnectionState)
  {
    match a
    case CLOSED => b == CONNECTING
    case CONNECTING => b != CONNECTING
    case OPEN => b == CLOSING
    case CLOSING => b == CLOSED
  }

  lemma OnlyListedEdges(r: seq<State>, i: nat)
    requires IsRun(r) && i + 1 < |r|
    ensures r[i + 1].sh.conn != r[i].sh.conn ==> Edge(r[i].sh.conn, r[i + 1].sh.conn)
  {
    RunInv(r, i);
    assert Moves(r, i);
    var s, s' := r[i], r[i + 1];
    if t: nat, c: Choice :| Step(s, t, c, s') {
      StepKeepsInv(s, t, c, s');
    }
  }

  /**
   Every unconditional exchange of the acceptor replaces CONNECTING, and the
   compare-exchange at the end of a close finds CLOSING: the branches that log
   a violation are not reachable.
   */
  lemma NoViolationBranch(r: seq<State>, i: nat, t: nat)
    requires IsRun(r) && i < |r| && t in r[i].pcs
    ensures var p := r[i].pcs[t];
            && (p.Accept? && (p.acc.UndoConnect? || p.acc.AcceptFailed? || p.acc.SetFail? || p.acc.SetOpen?)
                ==> r[i].sh.conn == CONNECTING)
            && (p.CloseConn? && p.cc.SetClosed? ==> r[i].sh.conn == CLOSING)
  {
    RunInv(r, i);
    assert OwnerOk(r[i].sh, r[i].pcs[t]);
  }

  /**
   The other branch that logs a violation, an acceptor that meets CONNECTING, is
   reached exactly while another thread owns that state.
   */
  lemma ConnectingIsAnothers(r: seq<State>, i: nat, t: nat)
    requires IsRun(r) && i < |r| && t in r[i].pcs && r[i].pcs[t] == Accept(TryConnect)
    ensures r[i].sh.conn == CONNECTING <==> exists u :: u != t && u in r[i].pcs && OwnsConnecting(r[i].pcs[u])
  {
    SingleOwner(r, i);
    if r[i].sh.conn == CONNECTING {
      var u :| u in r[i].pcs && Owns(r[i].pcs[u]);
      assert OwnsConnecting(r[i].pcs[u]);
    }
  }

  lemma Extended(r: seq<State>, t: nat, c: Choice, s: State) returns (r': seq<State>)
    requires r != [] && IsRun(r) && Step(r[|r| - 1], t, c, s)
    ensures IsRun(r') && r' != [] && r <= r' && r'[|r'| - 1] == s
  {
    r' := r + [s];
    forall i | 0 <= i < |r'| - 1
      ensures Moves(r', i)
    {
      assert i < |r| - 1 ==> Moves(r, i);
    }
  }

  /** Two acceptors, and the second meets CONNECTING. */
  lemma TwoAcceptorsMeet(fd: int) returns (r: seq<State>)
    requires fd >= 0
    ensures IsRun(r) && r != []
    ensures var s := r[|r| - 1]; s.sh.conn == CONNECTING && 1 in s.pcs && s.pcs[1] == Accept(TryConnect)
  {
    var sh := Shared(true, CLOSED, fd, -1, {}, None, Kernel(map[fd := 0], 1, {}, {}, {}, multiset{}, 0), [], false);
    var c, first, second := Choice(0, true, 0), Accept(FirstCheck), Accept(TryConnect);
    r := [State(sh, map[0 := Idle, 1 := Idle])];
    assert IsRun(r);
    hide IsRun;
    r := Extended(r, 0, c, State(sh, map[0 := first, 1 := Idle]));
    r := Extended(r, 0, c, State(sh, map[0 := second, 1 := Idle]));
    r := Extended(r, 1, c, State(sh, map[0 := second, 1 := first]));
    r := Extended(r, 1, c, State(sh, map[0 := second, 1 := second]));
    r := Extended(r, 0, c, State(sh.(conn := CONNECTING), map[0 := Accept(SecondCheck), 1 := second]));
  }

  // ---------------------------------------------------------------- descriptors

  /**
   No system call of the server ever reaches a socket that it does not own, no
   socket is closed twice, at most one accepted connection is not closed, and
   when the connection is CLOSED every accepted connection has been closed
   exactly once.
   */
  lemma DescriptorConservation(r: seq<State>, i: nat)
    requires IsRun(r) && i < |r|
    ensures var s := r[i].sh;
            && s.k.misuse == 0
            && (forall x | x in s.k.closes :: s.k.closes[x] == 1 && (x == 0 || x in s.k.accepted))
            && (forall x, y | x in s.k.Live() && y in s.k.Live() :: x == y)
            && (s.conn == CLOSED ==> s.connFd == -1 && forall x | x in s.k.accepted :: s.k.closes[x] == 1)
            && (s.conn == OPEN ==> s.connFd in s.k.files && s.k.Live() == {s.k.files[s.connFd]})
  {
    RunInv(r, i);
    var s := r[i].sh;
    if s.conn == CLOSED {
      forall x | x in s.k.accepted
        ensures s.k.closes[x] == 1
      {
        assert x !in s.k.Live();
      }
    } else if s.conn == CONNECTING || s.conn == CLOSING {
      var t :| t in r[i].pcs && Owns(r[i].pcs[t]);
      assert FdOk(s, r[i].pcs[t]);
    }
  }

  /** The descriptor field is free when a new descriptor is stored into it. */
  lemma NeverOverwritten(r: seq<State>, i: nat, t: nat, n: int)
    requires IsRun(r) && i < |r| && t in r[i].pcs && r[i].pcs[t] == Accept(Install(n))
    ensures r[i].sh.connFd == -1 && n in r[i].sh.k.files && r[i].sh.k.Live() == {r[i].sh.k.files[n]}
  {
    RunInv(r, i);
    assert FdOk(r[i].sh, r[i].pcs[t]);
  }

  // ----------------------------------------------------------------- the lock

  /** Thread `t` is inside one shared critical section from `i` to `j`. */
  ghost predicate InSharedSection(r: seq<State>, t: nat, i: nat, j: nat)
    requires i <= j < |r|
  {
    forall n | i <= n <= j :: t in r[n].pcs && HoldsShared(r[n].pcs[t])
  }

  /** The descriptor field, and the socket that it names, did not change. */
  predicate FieldFrame(s: Shared, s': Shared)
  {
    && s'.connFd == s.connFd
    && (s.connFd in s.k.files && s.k.files[s.connFd] in s.k.accepted ==>
          s.connFd in s'.k.files && s'.k.files[s.connFd] == s.k.files[s.connFd])
  }

  lemma StepKeepsField(s: State, u: nat, c: Choice, s': State, t: nat)
    requires Inv(s) && Step(s, u, c, s') && t in s.pcs
    requires HoldsShared(s.pcs[t]) && HoldsShared(s'.pcs[t])
    ensures FieldFrame(s.sh, s'.sh)
  {
    StepKeepsInv(s, u, c, s');
    CallsAreOwned(s, u);
    var p := s.pcs[u];
    assert LockOk(s.sh, t, s.pcs[t]) && LockOk(s.sh, u, p) && FdOk(s.sh, p);
    if FdEvent(p, c) && p.Close? {
      CloseEventFrame(s.sh, u, p.cl, c);
    }
  }

  lemma FieldIsStable(s: State, s': State, t: nat)
    requires Inv(s) && Next(s, s') && t in s.pcs && t in s'.pcs
    requires HoldsShared(s.pcs[t]) && HoldsShared(s'.pcs[t])
    ensures FieldFrame(s.sh, s'.sh)
  {
    if u: nat, c: Choice :| Step(s, u, c, s') {
      StepKeepsField(s, u, c, s', t);
    } else {
      var fd: int :| Foreign(s.sh.k, fd, s'.sh.k) && s' == s.(sh := s.sh.(k := s'.sh.k));
      ForeignFrame(s.sh, fd, s'.sh);
    }
  }

  /**
   A descriptor read under the shared lock is -1, or it names the same open
   socket until the lock is released.
   */
  lemma {:induction false} SharedSectionKeepsDescriptor(r: seq<State>, t: nat, i: nat, j: nat)
    requires IsRun(r) && i <= j < |r| && InSharedSection(r, t, i, j)
    ensures r[j].sh.connFd == r[i].sh.connFd
    ensures r[i].sh.connFd != -1 ==>
              && r[i].sh.connFd in r[i].sh.k.files && r[i].sh.connFd in r[j].sh.k.files
              && r[j].sh.k.files[r[i].sh.connFd] == r[i].sh.k.files[r[i].sh.connFd]
              && r[j].sh.k.files[r[i].sh.connFd] in r[j].sh.k.Live()
  {
    RunInv(r, j);
    assert LockOk(r[j].sh, t, r[j].pcs[t]);
    if i < j {
      assert InSharedSection(r, t, i, j - 1);
      SharedSectionKeepsDescriptor(r, t, i, j - 1);
      RunInv(r, j - 1);
      assert LockOk(r[j - 1].sh, t, r[j - 1].pcs[t]);
      assert Moves(r, j - 1);
      FieldIsStable(r[j - 1], r[j], t);
    }
  }

  /**
   Whoever waits for the exclusive lock waits for no blocked transfer: every
   transfer in flight is on no socket at all or on a socket that has been shut
   down already.
   */
  lemma WriterWaitsForNoOpenTransfer(r: seq<State>, i: nat, t: nat, u: nat)
    requires IsRun(r) && i < |r| && t in r[i].pcs && u in r[i].pcs
    requires (r[i].pcs[t].CloseConn? && r[i].pcs[t].cc.WantExclusive?)
             || (r[i].pcs[t].Accept? && r[i].pcs[t].acc.WantInstall?)
    requires r[i].pcs[u].Transfer? && r[i].pcs[u].tr.InCall?
    ensures var fd, k := r[i].pcs[u].tr.fd, r[i].sh.k;
            fd == -1 || (fd in k.files && k.files[fd] in k.shut)
  {
    RunInv(r, i);
    var s := r[i].sh;
    assert LockOk(s, u, r[i].pcs[u]) && CopyOk(s, r[i].pcs[u]);
    assert FdOk(s, r[i].pcs[t]);
  }

  /**
   While `Close` waits for CONNECTING to end, the owner of CONNECTING is not
   stuck: if it is still accepting, the listening socket has been shut down; if
   it has installed its descriptor and `Close` has looked at it, that socket has
   been shut down.
   */
  lemma WaitingCloseInterrupts(r: seq<State>, i: nat, t: nat, u: nat)
    requires IsRun(r) && i < |r| && t in r[i].pcs && u in r[i].pcs
    requires r[i].pcs[t].Close? && ListenerShut(r[i].pcs[t]) && Passed(r[i].pcs[u])
    ensures 0 in r[i].sh.k.shut
    ensures Peeked(r[i].pcs[t]) ==>
              && !Accepts(r[i].pcs[u])
              && r[i].sh.connFd in r[i].sh.k.files
              && r[i].sh.k.files[r[i].sh.connFd] in r[i].sh.k.shut
  {
    RunInv(r, i);
    assert FdOk(r[i].sh, r[i].pcs[u]);
  }
}
