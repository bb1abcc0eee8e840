/** The invariant over all threads, and that every step of every thread keeps it. */
module ServerProof {
  import opened ServerModel
  import opened ServerInvariant
  import opened Options

  predicate OnlyMoves(s: State, t: nat, s': State)
  {
    t in s.pcs && t in s'.pcs && s'.pcs == s.pcs[t := s'.pcs[t]]
  }

  ghost predicate Locks(s: State)
  {
    && (s.sh.writer.Some? ==> s.sh.readers == {} && s.sh.writer.value in s.pcs)
    && s.sh.readers <= s.pcs.Keys
    && forall t | t in s.pcs :: LockOk(s.sh, t, s.pcs[t])
  }

  /** CONNECTING and CLOSING belong to exactly one thread. */
  ghost predicate Owners(s: State)
  {
    && (forall t | t in s.pcs :: OwnerOk(s.sh, s.pcs[t]))
    && (forall t, u | t in s.pcs && u in s.pcs :: Owns(s.pcs[t]) && Owns(s.pcs[u]) ==> t == u)
    && (s.sh.conn == CONNECTING || s.sh.conn == CLOSING ==> exists t :: t in s.pcs && Owns(s.pcs[t]))
  }

  ghost predicate Descriptors(s: State)
  {
    SharedFdOk(s.sh) && forall t | t in s.pcs :: FdOk(s.sh, s.pcs[t])
  }

  /** Nobody can pass the second check of `serverUp_` any more, and nobody is past it. */
  ghost predicate Quiet(s: State)
  {
    !s.sh.serverUp && forall t | t in s.pcs :: !Passed(s.pcs[t])
  }

  ghost predicate Gate(s: State)
  {
    && (s.sh.serverUp ==> !s.sh.closeReturned)
    && (forall t | t in s.pcs :: InClose(s.pcs[t]) ==> !s.sh.serverUp && !s.sh.closeReturned)
    && (forall t, u | t in s.pcs && u in s.pcs :: InClose(s.pcs[t]) && InClose(s.pcs[u]) ==> t == u)
    && (forall t | t in s.pcs :: SeenOk(s.sh, s.pcs[t]) && CopyOk(s.sh, s.pcs[t]))
    && (forall t | t in s.pcs :: Sealed(s.pcs[t]) ==> Quiet(s))
    && (s.sh.closeReturned ==> Quiet(s) && s.sh.conn != OPEN)
  }

  ghost predicate NobodyAccepts(s: State)
  {
    forall u | u in s.pcs :: !Accepts(s.pcs[u])
  }

  ghost predicate Shutdowns(s: State)
  {
    && (forall t | t in s.pcs :: HasShut(s.pcs[t]) || Peeked(s.pcs[t]) ==> ConnectionShut(s.sh))
    && (forall t | t in s.pcs :: Peeked(s.pcs[t]) ==> !s.sh.serverUp && NobodyAccepts(s))
    && (forall t | t in s.pcs :: ListenerShut(s.pcs[t]) ==> 0 in s.sh.k.shut)
  }

  ghost predicate Inv(s: State)
  {
    Locks(s) && Owners(s) && Descriptors(s) && Gate(s) && Shutdowns(s)
  }

  // ----------------------------------------------------------- preservation

  lemma LocksKept(s: State, t: nat, s': State)
    requires OnlyMoves(s, t, s') && Locks(s)
    requires LockEffect(s.sh, t, s.pcs[t], s'.sh, s'.pcs[t])
    ensures Locks(s')
  {
  }

  lemma OwnersKept(s: State, t: nat, s': State)
    requires OnlyMoves(s, t, s') && Owners(s)
    requires OwnerEffect(s.sh, s.pcs[t], s'.sh, s'.pcs[t])
    ensures Owners(s')
  {
    assert OwnerOk(s.sh, s.pcs[t]);
    if s'.sh.conn == CONNECTING || s'.sh.conn == CLOSING {
      if s.sh.conn == s'.sh.conn {
        var u :| u in s.pcs && Owns(s.pcs[u]);
        assert u in s'.pcs && Owns(s'.pcs[u]);
      } else {
        assert Owns(s'.pcs[t]);
      }
    }
  }

  /** System calls of a thread in a reachable state touch sockets of the server only. */
  lemma CallsAreOwned(s: State, t: nat)
    requires Inv(s) && t in s.pcs
    ensures LocalOk(s.sh, t, s.pcs[t]) && Owned(s.sh, s.pcs[t])
  {
    assert LockOk(s.sh, t, s.pcs[t]) && FdOk(s.sh, s.pcs[t]);
  }

  lemma OwnDescriptorsKept(s: State, t: nat, c: Choice, s': State)
    requires Inv(s) && Step(s, t, c, s') && Effect(s.sh, t, s.pcs[t], c, s'.sh, s'.pcs[t])
    ensures SharedFdOk(s'.sh) && FdOk(s'.sh, s'.pcs[t])
  {
    var p := s.pcs[t];
    CallsAreOwned(s, t);
    assert FdOk(s.sh, p);
    if !FdEvent(p, c) {
      QuietFd(s.sh, p, s'.sh, s'.pcs[t]);
    } else {
      match p
      case Accept(a) => AcceptEventFd(s.sh, t, a, c);
      case CloseConn(b, cc) => CloseConnEventFd(s.sh, t, b, cc, c);
      case Close(cl) => CloseEventFd(s.sh, t, cl, c);
    }
  }

  lemma OtherDescriptorsKept(s: State, t: nat, c: Choice, s': State, u: nat)
    requires Inv(s) && Step(s, t, c, s') && Effect(s.sh, t, s.pcs[t], c, s'.sh, s'.pcs[t])
    requires u in s.pcs && u != t
    ensures FdOk(s'.sh, s.pcs[u])
  {
    var p, q := s.pcs[t], s.pcs[u];
    CallsAreOwned(s, t);
    assert FdOk(s.sh, p) && FdOk(s.sh, q);
    assert FdEvent(p, c) && p.Close? ==> InClose(p) && Sealed(p);
    OthersFd(s.sh, t, p, c, q);
  }

  lemma DescriptorsKept(s: State, t: nat, c: Choice, s': State)
    requires Inv(s) && Step(s, t, c, s') && Effect(s.sh, t, s.pcs[t], c, s'.sh, s'.pcs[t])
    ensures Descriptors(s')
  {
    OwnDescriptorsKept(s, t, c, s');
    forall u | u in s'.pcs && u != t
      ensures FdOk(s'.sh, s'.pcs[u])
    {
      OtherDescriptorsKept(s, t, c, s', u);
    }
  }

  lemma OthersCopy(s: Shared, t: nat, p: PC, c: Choice, q: PC)
    requires CanAct(s, p, c) && CopyOk(s, q)
    requires HoldsShared(q) ==> !HoldsExclusive(p)
    requires Passed(q) ==> !(p.Close? && p.cl.ResetListener?)
    requires !FdEvent(p, c) ==> SameFds(s, Act(s, t, p, c).0)
    ensures CopyOk(Act(s, t, p, c).0, q)
  {
  }

  lemma GateKept(s: State, t: nat, c: Choice, s': State)
    requires Inv(s) && Step(s, t, c, s') && Effect(s.sh, t, s.pcs[t], c, s'.sh, s'.pcs[t])
    ensures Gate(s')
  {
    var p := s.pcs[t];
    CallsAreOwned(s, t);
    forall u | u in s'.pcs
      ensures SeenOk(s'.sh, s'.pcs[u]) && CopyOk(s'.sh, s'.pcs[u])
    {
      if u != t {
        var q := s.pcs[u];
        assert LockOk(s.sh, u, q) && LockOk(s.sh, t, p);
        OthersCopy(s.sh, t, p, c, q);
      }
    }
  }

  lemma OthersShut(s: Shared, t: nat, p: PC, c: Choice)
    requires CanAct(s, p, c) && KernelOk(s.k) && ConnectionShut(s)
    requires !(p.Accept? && FdEvent(p, c))
    requires !FdEvent(p, c) ==> SameFds(s, Act(s, t, p, c).0)
    ensures ConnectionShut(Act(s, t, p, c).0)
  {
  }

  lemma ConnectionShutKept(s: State, t: nat, c: Choice, s': State, u: nat)
    requires Inv(s) && Step(s, t, c, s') && Effect(s.sh, t, s.pcs[t], c, s'.sh, s'.pcs[t])
    requires u in s.pcs && (HasShut(s.pcs[u]) || Peeked(s.pcs[u]))
    ensures ConnectionShut(s'.sh)
  {
    CallsAreOwned(s, t);
    assert OwnerOk(s.sh, s.pcs[t]) && OwnerOk(s.sh, s.pcs[u]);
    OthersShut(s.sh, t, s.pcs[t], c);
  }

  /** Whoever accepts has no descriptor installed yet. */
  lemma InstalledMeansNobodyAccepts(s: State)
    requires Descriptors(s) && s.sh.connFd != -1
    ensures NobodyAccepts(s)
  {
    forall v | v in s.pcs
      ensures !Accepts(s.pcs[v])
    {
      assert FdOk(s.sh, s.pcs[v]);
    }
  }

  /** Whoever has looked at the connection's descriptor found it installed, so nobody accepts. */
  lemma PeekedKept(s: State, t: nat, c: Choice, s': State, u: nat)
    requires Inv(s) && Step(s, t, c, s') && Effect(s.sh, t, s.pcs[t], c, s'.sh, s'.pcs[t])
    requires u in s'.pcs && Peeked(s'.pcs[u])
    ensures !s'.sh.serverUp && NobodyAccepts(s')
  {
    if s.sh.connFd != -1 {
      InstalledMeansNobodyAccepts(s);
    }
    hide FdOk, Act, Locks, Owners, SharedFdOk;
  }

  lemma ShutdownsKept(s: State, t: nat, c: Choice, s': State)
    requires Inv(s) && Step(s, t, c, s') && Effect(s.sh, t, s.pcs[t], c, s'.sh, s'.pcs[t])
    ensures Shutdowns(s')
  {
    assert FdOk(s.sh, s.pcs[t]);
    forall u | u in s.pcs && (HasShut(s.pcs[u]) || Peeked(s.pcs[u]))
      ensures ConnectionShut(s'.sh)
    {
      ConnectionShutKept(s, t, c, s', u);
    }
    forall u | u in s'.pcs && Peeked(s'.pcs[u])
      ensures !s'.sh.serverUp && NobodyAccepts(s')
    {
      PeekedKept(s, t, c, s', u);
    }
    hide Act, Locks, Owners, SharedFdOk, NobodyAccepts, ConnectionShut;
  }

  lemma StepKeepsInv(s: State, t: nat, c: Choice, s': State)
    requires Inv(s) && Step(s, t, c, s')
    ensures Effect(s.sh, t, s.pcs[t], c, s'.sh, s'.pcs[t])
    ensures Inv(s')
  {
    CallsAreOwned(s, t);
    ActEffect(s.sh, t, s.pcs[t], c);
    LocksKept(s, t, s');
    OwnersKept(s, t, s');
    DescriptorsKept(s, t, c, s');
    GateKept(s, t, c, s');
    ShutdownsKept(s, t, c, s');
  }

  lemma ForeignFrame(s: Shared, fd: int, s': Shared)
    requires KernelOk(s.k) && Foreign(s.k, fd, s'.k) && s' == s.(k := s'.k)
    ensures KernelOk(s'.k) && ConnectionFrame(s, s') && ListenerFrame(s, s') && s'.k.closes == s.k.closes
    ensures ConnectionShut(s) ==> ConnectionShut(s')
  {
    ForeignKeeps(s.k, fd, s'.k);
  }

  lemma ForeignKeepsInv(s: State, fd: int, s': State)
    requires Inv(s) && Foreign(s.sh.k, fd, s'.sh.k) && s' == s.(sh := s.sh.(k := s'.sh.k))
    ensures Inv(s')
  {
    ForeignFrame(s.sh, fd, s'.sh);
    forall u | u in s'.pcs
      ensures FdOk(s'.sh, s'.pcs[u])
    {
      assert FdOk(s.sh, s.pcs[u]);
    }
  }

  lemma NextKeepsInv(s: State, s': State)
    requires Inv(s) && Next(s, s')
    ensures Inv(s')
  {
    if t: nat, c: Choice :| Step(s, t, c, s') {
      StepKeepsInv(s, t, c, s');
    } else {
      var fd: int :| Foreign(s.sh.k, fd, s'.sh.k) && s' == s.(sh := s.sh.(k := s'.sh.k));
      ForeignKeepsInv(s, fd, s');
    }
  }

  lemma InitInv(s: State)
    requires Init(s)
    ensures Inv(s)
  {
  }

  /** The invariant holds in every reachable state. */
  lemma {:induction false} RunInv(r: seq<State>, i: nat)
    requires IsRun(r) && i < |r|
    ensures Inv(r[i])
  {
    if i == 0 {
      InitInv(r[0]);
    } else {
      RunInv(r, i - 1);
      assert Moves(r, i - 1);
      NextKeepsInv(r[i - 1], r[i]);
    }
  }
}
