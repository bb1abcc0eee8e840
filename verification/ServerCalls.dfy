/** Every system call of the server, and that none is made on a descriptor that is not the server's own. */
module ServerCalls {
  import opened ServerModel
  import opened ServerInvariant
  import opened ServerProof
  import opened Options

  /** A system call with the descriptor that it is given. */
  datatype SystemCall = NoCall | AcceptOn(fd: int) | TransferOn(fd: int) | ShutdownOn(fd: int) | CloseOn(fd: int)

  /** The call that the next step of a thread makes. */
  function CallOf(s: Shared, p: PC, c: Choice): SystemCall
  {
    match p
    case Accept(CallAccept) => AcceptOn(s.serverFd)
    case Transfer(_, ReadFd) => TransferOn(s.connFd)
    case Transfer(_, InCall(fd)) => if c.option == 0 then TransferOn(fd) else NoCall
    case CloseConn(_, DoShut) => ShutdownOn(s.connFd)
    case CloseConn(_, CloseFd) => CloseOn(s.connFd)
    case Close(ShutServer) => ShutdownOn(s.serverFd)
    case Close(Peek) => if s.connFd == -1 then NoCall else ShutdownOn(s.connFd)
    case Close(CloseListener(_)) => CloseOn(s.serverFd)
    case _ => NoCall
  }

  /** The number names a socket of the server that has not been closed. */
  predicate Own(k: Kernel, fd: int)
  {
    fd in k.files && k.files[fd] !in k.foreign && k.files[fd] !in k.closes
  }

  /** A call may be given a number that names nothing, except for `accept` and `close`; it never reaches another's. */
  predicate Proper(k: Kernel, call: SystemCall)
  {
    match call
    case NoCall => true
    case AcceptOn(fd) => fd in k.files && k.files[fd] == 0
    case TransferOn(fd) => fd in k.files ==> k.files[fd] !in k.foreign
    case ShutdownOn(fd) => fd in k.files ==> k.files[fd] !in k.foreign
    case CloseOn(fd) => fd in k.files && k.files[fd] !in k.foreign
  }

  /** `misuse` counts exactly the calls that are not proper. */
  lemma MisuseCounts(s: Shared, t: nat, p: PC, c: Choice)
    requires CanAct(s, p, c)
    ensures Act(s, t, p, c).0.k.misuse == s.k.misuse + if Proper(s.k, CallOf(s, p, c)) then 0 else 1
  {
  }

  /** On every run each call that a thread may make next is proper, and what it reaches has not been closed. */
  lemma EveryCallIsProper(r: seq<State>, i: nat, t: nat, c: Choice)
    requires IsRun(r) && i < |r| && t in r[i].pcs && CanAct(r[i].sh, r[i].pcs[t], c)
    ensures var s := r[i].sh;
            var call := CallOf(s, r[i].pcs[t], c);
            && Proper(s.k, call)
            && (!call.NoCall? && call.fd in s.k.files ==> Own(s.k, call.fd))
            && (call.AcceptOn? || call.CloseOn? ==> Own(s.k, call.fd))
  {
    hide Act, CallOf, Proper, CanAct;
    RunInv(r, i);
    var s, p := r[i], r[i].pcs[t];
    var out := Act(s.sh, t, p, c);
    var s' := State(out.0, s.pcs[t := out.1]);
    assert Step(s, t, c, s');
    StepKeepsInv(s, t, c, s');
    MisuseCounts(s.sh, t, p, c);
    OwnWhenProper(s.sh.k, CallOf(s.sh, p, c));
  }

  lemma OwnWhenProper(k: Kernel, call: SystemCall)
    requires KernelOk(k) && Proper(k, call)
    ensures !call.NoCall? && call.fd in k.files ==> Own(k, call.fd)
    ensures call.AcceptOn? || call.CloseOn? ==> call.fd in k.files
  {
  }

  // ------------------------------------------------------------ who can go on

  /** Some choice of the environment lets the thread take a step. */
  ghost predicate Enabled(s: Shared, p: PC)
  {
    exists c: Choice :: CanAct(s, p, c)
  }

  predicate WantsShared(p: PC)
  {
    match p
    case Transfer(_, WantShared) => true
    case CloseConn(_, WantShut) => true
    case Close(WantPeek) => true
    case _ => false
  }

  predicate WantsExclusive(p: PC)
  {
    match p
    case Accept(WantInstall(_)) => true
    case CloseConn(_, WantExclusive) => true
    case _ => false
  }

  /** A thread is held up by the lock only: a reader by a writer, a writer by anybody who holds it. */
  lemma EnabledIff(s: Shared, p: PC)
    ensures Enabled(s, p) <==> && (WantsShared(p) ==> s.writer.None?)
                               && (WantsExclusive(p) ==> s.writer.None? && s.readers == {})
  {
    assert CanAct(s, p, Choice(0, false, 0)) <==> && (WantsShared(p) ==> s.writer.None?)
                                                  && (WantsExclusive(p) ==> s.writer.None? && s.readers == {});
  }

  /** No deadlock: in every reachable state a thread that cannot go on waits for one that can. */
  lemma NoDeadlock(r: seq<State>, i: nat, t: nat) returns (u: nat)
    requires IsRun(r) && i < |r| && t in r[i].pcs && !Enabled(r[i].sh, r[i].pcs[t])
    ensures u in r[i].pcs && Enabled(r[i].sh, r[i].pcs[u])
    ensures HoldsShared(r[i].pcs[u]) || HoldsExclusive(r[i].pcs[u])
  {
    RunInv(r, i);
    var s := r[i];
    EnabledIff(s.sh, s.pcs[t]);
    u := if s.sh.writer.Some? then s.sh.writer.value else var x :| x in s.sh.readers; x;
    EnabledIff(s.sh, s.pcs[u]);
  }

  // ------------------------------------------------------------- other code

  /** At any moment a number that names nothing may come to name a foreign socket, and that may go away again. */
  lemma NumbersAreReused(s: State, fd: int) returns (s': State)
    requires fd in s.sh.k.files ==> s.sh.k.files[fd] in s.sh.k.foreign
    requires fd >= 0
    ensures Next(s, s') && s'.pcs == s.pcs && s' == s.(sh := s.sh.(k := s'.sh.k))
    ensures fd in s'.sh.k.files <==> fd !in s.sh.k.files
    ensures fd in s'.sh.k.files ==> s'.sh.k.files[fd] in s'.sh.k.foreign
  {
    var k := s.sh.k;
    var k' := if fd in k.files then k.(files := k.files - {fd})
              else k.(files := k.files[fd := k.next], next := k.next + 1, foreign := k.foreign + {k.next});
    s' := s.(sh := s.sh.(k := k'));
    assert Foreign(k, fd, s'.sh.k);
  }
}
