/**
 The connection life cycle of one WebSocketServer in accept mode, as an
 interleaving system: any number of threads run `AcceptNewConnection`,
 `Decode`, `SendReply`, `CloseConnection` and `Close`, and every atomic
 operation, lock operation and system call is one step.  Atomics are
 sequentially consistent, which is the default used by the source.
 */
module ServerModel {
  import opened Options

  // -------------------------------------------------------------- the kernel

  /**
   The descriptor table of the process.  A number is bound to a socket
   identity; identities are never reused but numbers are, and other code of
   the process (`foreign`) opens and closes its own descriptors at any moment.
   Socket 0 is the listening socket.  `shut` holds the sockets that `shutdown`
   was called on, whatever it returned: the source logs a failure and goes on.
   `closes` counts the `close` calls that
   reached a socket of the server and `misuse` counts system calls of the
   server that hit a socket it does not own.
   */
  datatype Kernel = Kernel(
    files: map<int, nat>,
    next: nat,
    shut: set<nat>,
    foreign: set<nat>,
    accepted: set<nat>,
    closes: multiset<nat>,
    misuse: nat)
  {
    /** A descriptor of the server: -1 or anything the server may pass to a system call. */
    predicate Harmless(fd: int)
    {
      fd in files ==> files[fd] !in foreign
    }

    function Touch(fd: int): Kernel
    {
      if Harmless(fd) then this else this.(misuse := misuse + 1)
    }

    function Shutdown(fd: int): Kernel
    {
      if fd in files then Touch(fd).(shut := shut + {files[fd]}) else this
    }

    /** `close` of a number that is not bound to one of the server's sockets is a misuse as well. */
    function Close(fd: int): Kernel
    {
      if fd in files && files[fd] !in foreign then
        this.(files := files - {fd}, closes := closes + multiset{files[fd]})
      else
        this.(files := files - {fd}, misuse := misuse + 1)
    }

    /** `accept` on anything but the listening socket is a misuse. */
    function Listen(fd: int): Kernel
    {
      if fd in files && files[fd] == 0 then this else this.(misuse := misuse + 1)
    }

    function Accept(fd: int): Kernel
      requires fd !in files
    {
      this.(files := files[fd := next], next := next + 1, accepted := accepted + {next})
    }

    /** Accepted connections whose socket nobody has closed yet. */
    ghost function Live(): set<nat>
    {
      set x | x in accepted && x !in closes
    }
  }

  // ------------------------------------------------------------- the threads

  datatype ConnectionState = CONNECTING | OPEN | CLOSING | CLOSED

  datatype CloseReason = FAIL | CLOSE

  datatype Callback = OnValidate | OnOpen | OnFail | OnClose

  /** Which transfer a thread performs under the shared lock. */
  datatype Transfer =
    | HandshakeRecv
    | UpgradeReply
    | RejectReply
    | CloseFrame(byClose: bool)
    | Traffic

  /** Inside `AcceptNewConnection`, outside its transfers. */
  datatype AcceptPC =
    | FirstCheck
    | TryConnect
    | SecondCheck
    | UndoConnect
    | CallAccept
    | Accepting(fd: int)
    | AcceptFailed
    | WantInstall(n: int)
    | Install(n: int)
    | ReleaseInstall
    | Validating
    | RunOpen
    | SetOpen
    | SetFail

  /** Inside one transfer: take the shared lock, read the descriptor, call, release. */
  datatype TransferPC =
    | WantShared
    | ReadFd
    | InCall(fd: int)
    | ReleaseShared(ok: bool)

  /** Inside `CloseConnection` and `CloseConnectionSocket`, outside the transfer of the close frame. */
  datatype CloseConnPC =
    | TryClose
    | Notify(reason: CloseReason)
    | WantShut
    | DoShut
    | ReleaseShut
    | WantExclusive
    | CloseFd
    | ResetFd
    | ReleaseExclusive
    | SetClosed

  /** Inside `Decode` and `SendReply`, outside their transfers. */
  datatype UsePC = CheckOpen | InUse

  /** Inside the server's `Close`, outside its `CloseConnection`. */
  datatype ClosePC =
    | Flip
    | ShutServer
    | FirstLoad
    | WantPeek
    | Peek
    | ReleasePeek(done: bool)
    | Reload(done: bool)
    | CloseListener(seen: ConnectionState)
    | ResetListener(seen: ConnectionState)

  /** `byClose` marks a `CloseConnection` that runs inside the server's `Close`. */
  datatype PC =
    | Idle
    | Accept(acc: AcceptPC)
    | Transfer(kind: Transfer, tr: TransferPC)
    | CloseConn(byClose: bool, cc: CloseConnPC)
    | Use(use: UsePC)
    | Close(cl: ClosePC)

  /** The fields of the server, the lock, the kernel and the record of the callbacks that ran. */
  datatype Shared = Shared(
    serverUp: bool,
    conn: ConnectionState,
    serverFd: int,
    connFd: int,
    readers: set<nat>,
    writer: Option<nat>,
    k: Kernel,
    calls: seq<(Callback, nat)>,
    closeReturned: bool)

  datatype State = State(sh: Shared, pcs: map<nat, PC>)

  /** What the scheduler, the peer and the callbacks decide in one step. */
  datatype Choice = Choice(option: nat, ok: bool, fd: int)

  // --------------------------------------------------------------- the steps

  /** A shared lock needs no writer, an exclusive lock needs nobody. */
  predicate CanAct(s: Shared, pc: PC, c: Choice)
  {
    match pc
    case Transfer(_, WantShared) => s.writer.None?
    case CloseConn(_, WantShut) => s.writer.None?
    case Close(WantPeek) => s.writer.None?
    case Accept(WantInstall(_)) => s.writer.None? && s.readers == {}
    case CloseConn(_, WantExclusive) => s.writer.None? && s.readers == {}
    case Accept(Accepting(_)) => c.ok ==> c.fd >= 0 && c.fd !in s.k.files
    case _ => true
  }

  function Begin(c: Choice): PC
  {
    match c.option
    case 0 => Accept(FirstCheck)
    case 1 => Use(CheckOpen)
    case 2 => CloseConn(false, TryClose)
    case _ => Close(Flip)
  }

  /** `AcceptNewConnection` with `MoveToConnectingState`, `HttpHandShake` and `OnNewConnection`. */
  function ActAccept(s: Shared, t: nat, pc: AcceptPC, c: Choice): (Shared, PC)
    requires CanAct(s, Accept(pc), c)
  {
    match pc
    case FirstCheck => (s, if s.serverUp then Accept(TryConnect) else Idle)
    case TryConnect =>
      if s.conn == CLOSED then (s.(conn := CONNECTING), Accept(SecondCheck)) else (s, Idle)
    case SecondCheck => (s, Accept(if s.serverUp then CallAccept else UndoConnect))
    case UndoConnect => (s.(conn := CLOSED), Idle)
    case CallAccept => (s.(k := s.k.Listen(s.serverFd)), Accept(Accepting(s.serverFd)))
    case Accepting(_) =>
      if c.ok then (s.(k := s.k.Accept(c.fd)), Accept(WantInstall(c.fd))) else (s, Accept(AcceptFailed))
    case AcceptFailed => (s.(conn := CLOSED), Idle)
    case WantInstall(n) => (s.(writer := Some(t)), Accept(Install(n)))
    case Install(n) => (s.(connFd := n), Accept(ReleaseInstall))
    case ReleaseInstall => (s.(writer := None), Transfer(HandshakeRecv, WantShared))
    case Validating =>
      (s.(calls := s.calls + [(OnValidate, t)]),
       match c.option
       case 0 => Accept(SetFail)                  // refused, or the key could not be encoded
       case 1 => Transfer(UpgradeReply, WantShared)
       case _ => Transfer(RejectReply, WantShared))
    case RunOpen => (s.(calls := s.calls + [(OnOpen, t)]), Accept(SetOpen))
    case SetOpen => (s.(conn := OPEN), Idle)
    case SetFail => (s.(conn := CLOSING), CloseConn(false, Notify(FAIL)))
  }

  /** Where a thread goes on after a transfer. */
  function AfterTransfer(kind: Transfer, ok: bool, c: Choice): PC
  {
    match kind
    case HandshakeRecv => Accept(if ok && c.ok then Validating else SetFail)
    case UpgradeReply => Accept(if ok then RunOpen else SetFail)
    case RejectReply => Accept(SetFail)
    case CloseFrame(b) => CloseConn(b, Notify(CLOSE))
    case Traffic => Use(InUse)
  }

  /** `SendUnderLock`, `RecvUnderLock` and the locked `recv` of the handshake. */
  function ActTransfer(s: Shared, t: nat, kind: Transfer, pc: TransferPC, c: Choice): (Shared, PC)
  {
    match pc
    case WantShared => (s.(readers := s.readers + {t}), Transfer(kind, ReadFd))
    case ReadFd => (s.(k := s.k.Touch(s.connFd)), Transfer(kind, InCall(s.connFd)))
    case InCall(fd) =>
      if c.option == 0 then (s.(k := s.k.Touch(fd)), Transfer(kind, pc))  // interrupted or partial: call again
      else (s, Transfer(kind, ReleaseShared(c.ok)))
    case ReleaseShared(ok) => (s.(readers := s.readers - {t}), AfterTransfer(kind, ok, c))
  }

  /** The server's `Close` returns with the `CloseConnection` that it called. */
  function Returned(s: Shared, byClose: bool): Shared
  {
    s.(closeReturned := s.closeReturned || byClose)
  }

  function ActCloseConn(s: Shared, t: nat, b: bool, pc: CloseConnPC): (Shared, PC)
  {
    match pc
    case TryClose =>
      if s.conn == OPEN then (s.(conn := CLOSING), Transfer(CloseFrame(b), WantShared))
      else (Returned(s, b), Idle)
    case Notify(reason) =>
      (s.(calls := s.calls + [(if reason == FAIL then OnFail else OnClose, t)]), CloseConn(b, WantShut))
    case WantShut => (s.(readers := s.readers + {t}), CloseConn(b, DoShut))
    case DoShut => (s.(k := s.k.Shutdown(s.connFd)), CloseConn(b, ReleaseShut))
    case ReleaseShut => (s.(readers := s.readers - {t}), CloseConn(b, WantExclusive))
    case WantExclusive => (s.(writer := Some(t)), CloseConn(b, CloseFd))
    case CloseFd => (s.(k := s.k.Close(s.connFd)), CloseConn(b, ResetFd))
    case ResetFd => (s.(connFd := -1), CloseConn(b, ReleaseExclusive))
    case ReleaseExclusive => (s.(writer := None), CloseConn(b, SetClosed))
    case SetClosed =>
      (Returned(s.(conn := if s.conn == CLOSING then CLOSED else s.conn), b), Idle)
  }

  function ActUse(s: Shared, pc: UsePC, c: Choice): PC
  {
    match pc
    case CheckOpen => if s.conn == OPEN then Use(InUse) else Idle
    case InUse =>
      match c.option
      case 0 => Transfer(Traffic, WantShared)
      case 1 => CloseConn(false, TryClose)
      case _ => Idle
  }

  /** The loop of `WaitConnectingStateEnds` after one load of the connection state. */
  function AfterLoad(seen: ConnectionState, done: bool): PC
  {
    Close(if seen != CONNECTING then CloseListener(seen)
          else if done then Reload(true)
          else WantPeek)
  }

  function ActClose(s: Shared, t: nat, pc: ClosePC): (Shared, PC)
  {
    match pc
    case Flip => if s.serverUp then (s.(serverUp := false), Close(ShutServer)) else (s, Idle)
    case ShutServer => (s.(k := s.k.Shutdown(s.serverFd)), Close(FirstLoad))
    case FirstLoad => (s, AfterLoad(s.conn, false))
    case WantPeek => (s.(readers := s.readers + {t}), Close(Peek))
    case Peek =>
      if s.connFd == -1 then (s, Close(ReleasePeek(false)))
      else (s.(k := s.k.Shutdown(s.connFd)), Close(ReleasePeek(true)))
    case ReleasePeek(done) => (s.(readers := s.readers - {t}), Close(Reload(done)))
    case Reload(done) => (s, AfterLoad(s.conn, done))
    case CloseListener(seen) => (s.(k := s.k.Close(s.serverFd)), Close(ResetListener(seen)))
    case ResetListener(seen) =>
      var s1 := s.(serverFd := -1);
      if seen == OPEN then (s1, CloseConn(true, TryClose)) else (Returned(s1, true), Idle)
  }

  /** One step of thread `t` at `pc`: the new shared state and where the thread is then. */
  function Act(s: Shared, t: nat, pc: PC, c: Choice): (Shared, PC)
    requires CanAct(s, pc, c)
  {
    match pc
    case Idle => (s, Begin(c))
    case Accept(a) => ActAccept(s, t, a, c)
    case Transfer(kind, tr) => ActTransfer(s, t, kind, tr, c)
    case CloseConn(b, cc) => ActCloseConn(s, t, b, cc)
    case Use(u) => (s, ActUse(s, u, c))
    case Close(cl) => ActClose(s, t, cl)
  }

  predicate Step(s: State, t: nat, c: Choice, s': State)
  {
    && t in s.pcs
    && CanAct(s.sh, s.pcs[t], c)
    && var out := Act(s.sh, t, s.pcs[t], c);
       s' == State(out.0, s.pcs[t := out.1])
  }

  /** Other code of the process opens a descriptor, or closes one of its own. */
  predicate Foreign(k: Kernel, fd: int, k': Kernel)
  {
    if fd in k.files then
      k.files[fd] in k.foreign && k' == k.(files := k.files - {fd})
    else
      fd >= 0 && k' == k.(files := k.files[fd := k.next], next := k.next + 1, foreign := k.foreign + {k.next})
  }

  ghost predicate Next(s: State, s': State)
  {
    || (exists t: nat, c: Choice :: Step(s, t, c, s'))
    || (exists fd: int :: Foreign(s.sh.k, fd, s'.sh.k) && s' == s.(sh := s.sh.(k := s'.sh.k)))
  }

  /** After a successful `Init` in accept mode; the threads are still outside the server. */
  ghost predicate Init(s: State)
  {
    && s.sh.serverFd >= 0
    && s.sh == Shared(true, CLOSED, s.sh.serverFd, -1, {}, None,
                      Kernel(map[s.sh.serverFd := 0], 1, {}, {}, {}, multiset{}, 0), [], false)
    && forall t | t in s.pcs :: s.pcs[t] == Idle
  }

  ghost predicate Moves(r: seq<State>, i: nat)
    requires i + 1 < |r|
  {
    Next(r[i], r[i + 1])
  }

  ghost predicate IsRun(r: seq<State>)
  {
    && |r| > 0
    && Init(r[0])
    && forall i | 0 <= i < |r| - 1 :: Moves(r, i)
  }
}
