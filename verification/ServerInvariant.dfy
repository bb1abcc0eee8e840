/**
 The inductive invariant of the connection life cycle.  A step is summarised
 first by its effect on the shared state and on one program counter; every
 clause group is then preserved by effects alone.
 */
module ServerInvariant {
  import opened ServerModel
  import opened Options

  // ---------------------------------------------- what a program counter means

  predicate IsHandshake(kind: Transfer)
  {
    kind.HandshakeRecv? || kind.UpgradeReply? || kind.RejectReply?
  }

  /** The thread moved the connection to CONNECTING and has not moved it on. */
  predicate OwnsConnecting(pc: PC)
  {
    match pc
    case Accept(a) => !a.FirstCheck? && !a.TryConnect?
    case Transfer(kind, _) => IsHandshake(kind)
    case _ => false
  }

  /** Between the second check of `serverUp_` and the store of the new descriptor. */
  predicate Accepts(pc: PC)
  {
    pc.Accept? && (pc.acc.CallAccept? || pc.acc.Accepting? || pc.acc.AcceptFailed?
                   || pc.acc.WantInstall? || pc.acc.Install?)
  }

  /** The thread saw `serverUp_` true after it had taken CONNECTING. */
  predicate Passed(pc: PC)
  {
    OwnsConnecting(pc) && !(pc.Accept? && (pc.acc.SecondCheck? || pc.acc.UndoConnect?))
  }

  /** The thread moved the connection to CLOSING and has not moved it on. */
  predicate OwnsClosing(pc: PC)
  {
    match pc
    case Transfer(kind, _) => kind.CloseFrame?
    case CloseConn(_, cc) => !cc.TryClose?
    case _ => false
  }

  predicate Owns(pc: PC)
  {
    OwnsConnecting(pc) || OwnsClosing(pc)
  }

  predicate HoldsShared(pc: PC)
  {
    match pc
    case Transfer(_, tr) => !tr.WantShared?
    case CloseConn(_, cc) => cc.DoShut? || cc.ReleaseShut?
    case Close(cl) => cl.Peek? || cl.ReleasePeek?
    case _ => false
  }

  predicate HoldsExclusive(pc: PC)
  {
    match pc
    case Accept(a) => a.Install? || a.ReleaseInstall?
    case CloseConn(_, cc) => cc.CloseFd? || cc.ResetFd? || cc.ReleaseExclusive?
    case _ => false
  }

  /** A `CloseConnection` entered from the server's `Close`. */
  predicate ByClose(pc: PC)
  {
    match pc
    case Transfer(CloseFrame(b), _) => b
    case CloseConn(b, _) => b
    case _ => false
  }

  /** Inside `Close`, the listening socket is still open. */
  predicate BeforeListenerClosed(pc: PC)
  {
    pc.Close? && !pc.cl.Flip? && !pc.cl.ResetListener?
  }

  /** The thread whose `Close` flipped `serverUp_`. */
  predicate InClose(pc: PC)
  {
    (pc.Close? && !pc.cl.Flip?) || ByClose(pc)
  }

  /** `Close` has seen a connection state other than CONNECTING. */
  predicate Sealed(pc: PC)
  {
    (pc.Close? && (pc.cl.CloseListener? || pc.cl.ResetListener?)) || ByClose(pc)
  }

  /** `Close` has shut the accepted socket down. */
  predicate Peeked(pc: PC)
  {
    pc.Close? && (pc.cl.ReleasePeek? || pc.cl.Reload?) && pc.cl.done
  }

  /** The thread has shut the socket down that it is about to close. */
  predicate HasShut(pc: PC)
  {
    pc.CloseConn? && (pc.cc.ReleaseShut? || pc.cc.WantExclusive? || pc.cc.CloseFd?)
  }

  /** `Close` has shut the listening socket down. */
  predicate ListenerShut(pc: PC)
  {
    (pc.Close? && !pc.cl.Flip? && !pc.cl.ShutServer?) || ByClose(pc)
  }

  /** `Close` has closed the listening socket. */
  predicate ListenerGone(pc: PC)
  {
    (pc.Close? && pc.cl.ResetListener?) || ByClose(pc)
  }

  /** Where the accepted descriptor is while a thread owns the connection. */
  datatype Stage = Empty | Pending(n: int) | Bound | Stale

  function StageOf(pc: PC): Stage
  {
    match pc
    case Accept(a) =>
      (match a
       case WantInstall(n) => Pending(n)
       case Install(n) => Pending(n)
       case _ => if a.SecondCheck? || a.UndoConnect? || a.CallAccept? || a.Accepting? || a.AcceptFailed?
                 then Empty else Bound)
    case CloseConn(_, cc) =>
      if cc.ResetFd? then Stale else if cc.ReleaseExclusive? || cc.SetClosed? then Empty else Bound
    case _ => Bound
  }

  predicate ListenerOpen(s: Shared)
  {
    s.serverFd in s.k.files && s.k.files[s.serverFd] == 0
  }

  // ------------------------------------------- clauses about a single thread

  /** The lock knows the thread exactly as its program counter says. */
  predicate LockOk(s: Shared, t: nat, p: PC)
  {
    && (t in s.readers <==> HoldsShared(p))
    && (s.writer == Some(t) <==> HoldsExclusive(p))
  }

  predicate OwnerOk(s: Shared, p: PC)
  {
    && (OwnsConnecting(p) ==> s.conn == CONNECTING)
    && (OwnsClosing(p) ==> s.conn == CLOSING)
  }

  /** A descriptor that a thread copied is still the value of the field. */
  predicate CopyOk(s: Shared, p: PC)
  {
    && (p.Transfer? && p.tr.InCall? ==> p.tr.fd == s.connFd)
    && (p.Accept? && p.acc.Accepting? ==> p.acc.fd == s.serverFd)
  }

  /** What `Close` remembers of the connection state. */
  predicate SeenOk(s: Shared, p: PC)
  {
    p.Close? && (p.cl.CloseListener? || p.cl.ResetListener?) ==>
      p.cl.seen != CONNECTING && (p.cl.seen != OPEN ==> s.conn != OPEN)
  }

  predicate LocalOk(s: Shared, t: nat, p: PC)
  {
    LockOk(s, t, p) && OwnerOk(s, p) && CopyOk(s, p) && SeenOk(s, p)
  }

  // --------------------------------------------------- effects of a single step

  /** The lock changes hands as the program counter says, and only when it may. */
  predicate LockEffect(s: Shared, t: nat, p: PC, s': Shared, p': PC)
  {
    && s'.readers == (if HoldsShared(p') then s.readers + {t} else s.readers - {t})
    && s'.writer == (if HoldsExclusive(p') then Some(t) else if HoldsExclusive(p) then None else s.writer)
    && (HoldsShared(p') && !HoldsShared(p) ==> s.writer.None?)
    && (HoldsExclusive(p') && !HoldsExclusive(p) ==> s.writer.None? && s.readers == {})
  }

  /** The edges of the connection state, and which owner takes them. */
  predicate OwnerEffect(s: Shared, p: PC, s': Shared, p': PC)
  {
    if s'.conn == s.conn then
      (OwnsConnecting(p') <==> OwnsConnecting(p)) && (OwnsClosing(p') <==> OwnsClosing(p))
    else
      match (s.conn, s'.conn)
      case (CLOSED, CONNECTING) => !Owns(p) && OwnsConnecting(p')
      case (OPEN, CLOSING) => !Owns(p) && OwnsClosing(p')
      case (CONNECTING, CLOSING) => OwnsConnecting(p) && OwnsClosing(p')
      case (CONNECTING, OPEN) => Passed(p) && !Owns(p')
      case (CONNECTING, CLOSED) => OwnsConnecting(p) && !Owns(p')
      case (CLOSING, CLOSED) => OwnsClosing(p) && !Owns(p')
      case _ => false
  }

  /** The steps that change a descriptor field or the descriptor table. */
  predicate FdEvent(p: PC, c: Choice)
  {
    match p
    case Accept(a) => (a.Accepting? && c.ok) || a.Install?
    case CloseConn(_, cc) => cc.CloseFd? || cc.ResetFd?
    case Close(cl) => cl.CloseListener? || cl.ResetListener?
    case _ => false
  }

  /** How the other steps move a thread between stages. */
  predicate StageEffect(s: Shared, p: PC, s': Shared, p': PC)
  {
    && (Owns(p') ==> || (Owns(p) && StageOf(p') == StageOf(p))
                     || (s.conn == CLOSED && StageOf(p') == Empty)
                     || (s.conn == OPEN && StageOf(p') == Bound))
    && (s'.conn == CLOSED ==> s.conn == CLOSED || (Owns(p) && StageOf(p) == Empty))
    && (s'.conn == OPEN ==> s.conn == OPEN || (Owns(p) && StageOf(p) == Bound))
    && (s'.writer.None? ==> s.writer.None? || (Owns(p) && (StageOf(p) == Empty || StageOf(p) == Bound)))
    && (BeforeListenerClosed(p') ==> BeforeListenerClosed(p) || s.serverUp)
    && (ListenerGone(p') ==> ListenerGone(p))
    && (s'.closeReturned ==> s.closeReturned || ListenerGone(p))
  }

  /** Only the set of sockets that were shut down may grow. */
  predicate SameFds(s: Shared, s': Shared)
  {
    && s'.connFd == s.connFd && s'.serverFd == s.serverFd
    && s'.k == s.k.(shut := s'.k.shut) && s.k.shut <= s'.k.shut
  }

  /** System calls of the step touch sockets of the server only. */
  predicate Owned(s: Shared, p: PC)
  {
    && (HoldsShared(p) ==> s.k.Harmless(s.connFd))
    && (Passed(p) || BeforeListenerClosed(p) ==> ListenerOpen(s) && 0 !in s.k.foreign)
  }

  /** How `serverUp_` gates the way into `accept` and into `Close`. */
  predicate GateEffect(s: Shared, p: PC, s': Shared, p': PC)
  {
    && (s'.serverUp != s.serverUp ==> s.serverUp && InClose(p') && !InClose(p))
    && (InClose(p') ==> InClose(p) || (s.serverUp && !s'.serverUp))
    && (s'.closeReturned <==> s.closeReturned || (InClose(p) && !InClose(p')))
    && (Passed(p') ==> Passed(p) || s.serverUp)
    && (Accepts(p') ==> Accepts(p) || s.serverUp)
    && (Sealed(p') ==> Sealed(p) || (InClose(p) && s.conn != CONNECTING && s' == s))
    && (InClose(p) && !InClose(p') ==> Sealed(p) && s'.conn != OPEN)
    && SeenOk(s', p')
    && CopyOk(s', p')
  }

  /** The accepted socket, if the descriptor field names it, is shut down. */
  predicate ConnectionShut(s: Shared)
  {
    s.connFd in s.k.files && s.k.files[s.connFd] in s.k.accepted ==> s.k.files[s.connFd] in s.k.shut
  }

  predicate ShutEffect(s: Shared, p: PC, s': Shared, p': PC)
  {
    && (HasShut(p') && !HasShut(p) ==> ConnectionShut(s'))
    && (Peeked(p') && !Peeked(p) ==> s.connFd != -1 && ConnectionShut(s'))
    && (ListenerShut(p') && !ListenerShut(p) && ListenerOpen(s) ==> 0 in s'.k.shut)
    && s.k.shut <= s'.k.shut
  }

  predicate MoveEffect(s: Shared, t: nat, p: PC, s': Shared, p': PC)
  {
    LockEffect(s, t, p, s', p') && OwnerEffect(s, p, s', p') && ShutEffect(s, p, s', p')
  }

  predicate FdEffect(s: Shared, p: PC, c: Choice, s': Shared, p': PC)
  {
    !FdEvent(p, c) ==> StageEffect(s, p, s', p') && (Owned(s, p) ==> SameFds(s, s'))
  }

  lemma AcceptMoveEffect(s: Shared, t: nat, p: PC, c: Choice)
    requires p.Accept?
    requires CanAct(s, p, c) && LocalOk(s, t, p)
    ensures var out := Act(s, t, p, c); MoveEffect(s, t, p, out.0, out.1)
  {
    assert if HoldsShared(p) then s.readers + {t} == s.readers else s.readers - {t} == s.readers;
  }

  lemma TransferMoveEffect(s: Shared, t: nat, p: PC, c: Choice)
    requires p.Transfer?
    requires CanAct(s, p, c) && LocalOk(s, t, p)
    ensures var out := Act(s, t, p, c); MoveEffect(s, t, p, out.0, out.1)
  {
    assert if HoldsShared(p) then s.readers + {t} == s.readers else s.readers - {t} == s.readers;
  }

  lemma CloseConnMoveEffect(s: Shared, t: nat, p: PC, c: Choice)
    requires p.CloseConn?
    requires CanAct(s, p, c) && LocalOk(s, t, p)
    ensures var out := Act(s, t, p, c); MoveEffect(s, t, p, out.0, out.1)
  {
    assert if HoldsShared(p) then s.readers + {t} == s.readers else s.readers - {t} == s.readers;
  }

  lemma CloseMoveEffect(s: Shared, t: nat, p: PC, c: Choice)
    requires p.Close? || p.Idle? || p.Use?
    requires CanAct(s, p, c) && LocalOk(s, t, p)
    ensures var out := Act(s, t, p, c); MoveEffect(s, t, p, out.0, out.1)
  {
    assert if HoldsShared(p) then s.readers + {t} == s.readers else s.readers - {t} == s.readers;
  }

  lemma AcceptGateEffect(s: Shared, t: nat, p: PC, c: Choice)
    requires p.Accept?
    requires CanAct(s, p, c) && LocalOk(s, t, p)
    ensures var out := Act(s, t, p, c); GateEffect(s, p, out.0, out.1)
  {
  }

  lemma TransferGateEffect(s: Shared, t: nat, p: PC, c: Choice)
    requires p.Transfer?
    requires CanAct(s, p, c) && LocalOk(s, t, p)
    ensures var out := Act(s, t, p, c); GateEffect(s, p, out.0, out.1)
  {
  }

  lemma CloseConnGateEffect(s: Shared, t: nat, p: PC, c: Choice)
    requires p.CloseConn?
    requires CanAct(s, p, c) && LocalOk(s, t, p)
    ensures var out := Act(s, t, p, c); GateEffect(s, p, out.0, out.1)
  {
  }

  lemma CloseGateEffect(s: Shared, t: nat, p: PC, c: Choice)
    requires p.Close? || p.Idle? || p.Use?
    requires CanAct(s, p, c) && LocalOk(s, t, p)
    ensures var out := Act(s, t, p, c); GateEffect(s, p, out.0, out.1)
  {
  }

  lemma AcceptFdEffect(s: Shared, t: nat, p: PC, c: Choice)
    requires p.Accept?
    requires CanAct(s, p, c) && LocalOk(s, t, p)
    ensures var out := Act(s, t, p, c); FdEffect(s, p, c, out.0, out.1)
  {
  }

  lemma TransferFdEffect(s: Shared, t: nat, p: PC, c: Choice)
    requires p.Transfer?
    requires CanAct(s, p, c) && LocalOk(s, t, p)
    ensures var out := Act(s, t, p, c); FdEffect(s, p, c, out.0, out.1)
  {
  }

  lemma CloseConnFdEffect(s: Shared, t: nat, p: PC, c: Choice)
    requires p.CloseConn?
    requires CanAct(s, p, c) && LocalOk(s, t, p)
    ensures var out := Act(s, t, p, c); FdEffect(s, p, c, out.0, out.1)
  {
  }

  lemma CloseFdEffect(s: Shared, t: nat, p: PC, c: Choice)
    requires p.Close? || p.Idle? || p.Use?
    requires CanAct(s, p, c) && LocalOk(s, t, p)
    ensures var out := Act(s, t, p, c); FdEffect(s, p, c, out.0, out.1)
  {
  }

  predicate Effect(s: Shared, t: nat, p: PC, c: Choice, s': Shared, p': PC)
  {
    MoveEffect(s, t, p, s', p') && GateEffect(s, p, s', p') && FdEffect(s, p, c, s', p')
  }

  lemma ActEffect(s: Shared, t: nat, p: PC, c: Choice)
    requires CanAct(s, p, c) && LocalOk(s, t, p)
    ensures var out := Act(s, t, p, c); Effect(s, t, p, c, out.0, out.1)
  {
    if p.Accept? {
      AcceptMoveEffect(s, t, p, c); AcceptGateEffect(s, t, p, c); AcceptFdEffect(s, t, p, c);
    } else if p.Transfer? {
      TransferMoveEffect(s, t, p, c); TransferGateEffect(s, t, p, c); TransferFdEffect(s, t, p, c);
    } else if p.CloseConn? {
      CloseConnMoveEffect(s, t, p, c); CloseConnGateEffect(s, t, p, c); CloseConnFdEffect(s, t, p, c);
    } else {
      CloseMoveEffect(s, t, p, c); CloseGateEffect(s, t, p, c); CloseFdEffect(s, t, p, c);
    }
  }

  // ------------------------------------------------------------- the kernel

  ghost predicate KernelOk(k: Kernel)
  {
    && (forall a | a in k.files :: a >= 0 && k.files[a] < k.next && k.files[a] !in k.closes)
    && (forall a, b | a in k.files && b in k.files :: k.files[a] == k.files[b] ==> a == b)
    && (forall x | x in k.accepted :: 0 < x < k.next && x !in k.foreign)
    && (forall x | x in k.foreign :: 0 < x < k.next && x !in k.closes)
    && (forall x | x in k.closes :: k.closes[x] == 1 && x < k.next && (x == 0 || x in k.accepted))
    && 0 < k.next
    && k.misuse == 0
  }

  lemma AcceptKeeps(k: Kernel, fd: int)
    requires KernelOk(k) && fd >= 0 && fd !in k.files
    ensures KernelOk(k.Accept(fd))
    ensures k.Accept(fd).Live() == k.Live() + {k.next}
  {
  }

  lemma CloseKeeps(k: Kernel, fd: int)
    requires KernelOk(k) && fd in k.files && (k.files[fd] == 0 || k.files[fd] in k.accepted)
    ensures KernelOk(k.Close(fd))
    ensures k.Close(fd).Live() == k.Live() - {k.files[fd]}
    ensures k.files[fd] in k.Close(fd).closes
  {
  }

  lemma ForeignKeeps(k: Kernel, fd: int, k': Kernel)
    requires KernelOk(k) && Foreign(k, fd, k')
    ensures KernelOk(k') && k'.Live() == k.Live()
  {
  }

  // ------------------------------------------------------------- descriptors

  ghost predicate NoConnection(s: Shared)
  {
    s.connFd == -1 && s.k.Live() == {}
  }

  /** `fd` names the one accepted connection that is not closed. */
  ghost predicate BoundTo(s: Shared, fd: int)
  {
    fd in s.k.files && s.k.files[fd] in s.k.accepted && s.k.Live() == {s.k.files[fd]}
  }

  ghost predicate StageOk(s: Shared, stage: Stage)
  {
    match stage
    case Empty => NoConnection(s)
    case Pending(n) => s.connFd == -1 && BoundTo(s, n)
    case Bound => BoundTo(s, s.connFd)
    case Stale => s.k.Live() == {}
  }

  ghost predicate SharedFdOk(s: Shared)
  {
    && KernelOk(s.k)
    && (s.conn == CLOSED ==> NoConnection(s))
    && (s.conn == OPEN ==> BoundTo(s, s.connFd))
    && (s.writer.None? ==> s.connFd == -1 || BoundTo(s, s.connFd))
    && (s.serverUp ==> ListenerOpen(s))
    && (s.closeReturned ==> 0 in s.k.closes)
  }

  ghost predicate FdOk(s: Shared, p: PC)
  {
    && (Owns(p) ==> StageOk(s, StageOf(p)))
    && (Passed(p) || BeforeListenerClosed(p) ==> ListenerOpen(s))
    && (ListenerGone(p) ==> 0 in s.k.closes)
  }

  lemma SameFdsCarry(s: Shared, s': Shared)
    requires SameFds(s, s') && KernelOk(s.k)
    ensures KernelOk(s'.k) && s'.k.Live() == s.k.Live()
  {
  }

  /** A thread that takes no descriptor event keeps the clauses for itself. */
  lemma QuietFd(s: Shared, p: PC, s': Shared, p': PC)
    requires SharedFdOk(s) && FdOk(s, p)
    requires SameFds(s, s') && StageEffect(s, p, s', p') && GateEffect(s, p, s', p')
    ensures SharedFdOk(s') && FdOk(s', p')
  {
    SameFdsCarry(s, s');
  }

  lemma AcceptEventFd(s: Shared, t: nat, a: AcceptPC, c: Choice)
    requires CanAct(s, Accept(a), c) && FdEvent(Accept(a), c) && LocalOk(s, t, Accept(a))
    requires SharedFdOk(s) && FdOk(s, Accept(a))
    ensures var out := ActAccept(s, t, a, c); SharedFdOk(out.0) && FdOk(out.0, out.1)
  {
    if a.Accepting? {
      AcceptKeeps(s.k, c.fd);
    }
  }

  lemma CloseConnEventFd(s: Shared, t: nat, b: bool, cc: CloseConnPC, c: Choice)
    requires FdEvent(CloseConn(b, cc), c) && LocalOk(s, t, CloseConn(b, cc))
    requires SharedFdOk(s) && FdOk(s, CloseConn(b, cc))
    ensures var out := ActCloseConn(s, t, b, cc); SharedFdOk(out.0) && FdOk(out.0, out.1)
  {
    if cc.CloseFd? {
      CloseKeeps(s.k, s.connFd);
    }
  }

  lemma CloseListenerFd(s: Shared, t: nat, seen: ConnectionState)
    requires SharedFdOk(s) && FdOk(s, Close(CloseListener(seen))) && !s.serverUp
    ensures var out := ActClose(s, t, CloseListener(seen)); SharedFdOk(out.0) && FdOk(out.0, out.1)
  {
    CloseKeeps(s.k, s.serverFd);
    assert s.k.Live() - {0} == s.k.Live();
  }

  lemma CloseEventFd(s: Shared, t: nat, cl: ClosePC, c: Choice)
    requires FdEvent(Close(cl), c) && SharedFdOk(s) && FdOk(s, Close(cl)) && !s.serverUp
    ensures var out := ActClose(s, t, cl); SharedFdOk(out.0) && FdOk(out.0, out.1)
  {
    if cl.CloseListener? {
      CloseListenerFd(s, t, cl.seen);
    }
  }

  /** Nothing about the accepted connection changed. */
  ghost predicate ConnectionFrame(s: Shared, s': Shared)
  {
    && s'.connFd == s.connFd && s'.k.accepted == s.k.accepted && s'.k.Live() == s.k.Live()
    && forall fd | fd in s.k.files && s.k.files[fd] in s.k.accepted ::
         fd in s'.k.files && s'.k.files[fd] == s.k.files[fd]
  }

  predicate ListenerFrame(s: Shared, s': Shared)
  {
    s'.serverFd == s.serverFd && (ListenerOpen(s) ==> ListenerOpen(s'))
  }

  lemma SameFdsFrame(s: Shared, s': Shared)
    requires SameFds(s, s') && KernelOk(s.k)
    ensures ConnectionFrame(s, s') && ListenerFrame(s, s') && s'.k.closes == s.k.closes
  {
  }

  lemma CloseEventFrame(s: Shared, t: nat, cl: ClosePC, c: Choice)
    requires FdEvent(Close(cl), c) && KernelOk(s.k) && FdOk(s, Close(cl))
    ensures var s' := ActClose(s, t, cl).0; ConnectionFrame(s, s') && s.k.closes <= s'.k.closes
  {
    if cl.CloseListener? {
      CloseKeeps(s.k, s.serverFd);
    }
  }

  lemma OwnerEventFrame(s: Shared, t: nat, p: PC, c: Choice)
    requires FdEvent(p, c) && (p.Accept? || p.CloseConn?) && CanAct(s, p, c)
    requires KernelOk(s.k) && FdOk(s, p)
    ensures var s' := Act(s, t, p, c).0; ListenerFrame(s, s') && s.k.closes <= s'.k.closes
  {
  }

  /** The descriptor clauses of the other threads survive a step of `t`. */
  lemma OthersFd(s: Shared, t: nat, p: PC, c: Choice, q: PC)
    requires CanAct(s, p, c) && SharedFdOk(s) && FdOk(s, p) && FdOk(s, q)
    requires !(Owns(p) && Owns(q)) && (FdEvent(p, c) && p.Close? ==> !Passed(q) && !BeforeListenerClosed(q))
    requires var s' := Act(s, t, p, c).0; !FdEvent(p, c) ==> SameFds(s, s')
    ensures FdOk(Act(s, t, p, c).0, q)
  {
    var s' := Act(s, t, p, c).0;
    if !FdEvent(p, c) {
      SameFdsFrame(s, s');
    } else if p.Close? {
      CloseEventFrame(s, t, p.cl, c);
    } else {
      OwnerEventFrame(s, t, p, c);
    }
  }
}
