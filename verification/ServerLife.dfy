/** One complete life of the server: a connection is accepted, opened and closed again, and every call succeeds. */
module ServerLife {
  import opened ServerModel
  import opened ServerTheorems
  import opened Options

  /** A choice of the environment under which calls succeed. */
  function Good(option: nat, fd: int): Choice
  {
    Choice(option, true, fd)
  }

  /** One more step of thread `t`, which was the last of the two to be named. */
  lemma Go(r: seq<State>, t: nat, c: Choice, sh: Shared, p: PC) returns (r': seq<State>)
    requires r != [] && IsRun(r) && t in r[|r| - 1].pcs
    requires var s := r[|r| - 1]; CanAct(s.sh, s.pcs[t], c) && Act(s.sh, t, s.pcs[t], c) == (sh, p)
    ensures IsRun(r') && r' != [] && r <= r'
    ensures r'[|r'| - 1].sh == sh && r'[|r'| - 1].pcs == r[|r| - 1].pcs[t := p]
  {
    r' := Extended(r, t, c, State(sh, r[|r| - 1].pcs[t := p]));
  }

  function Started(l: int): Shared
  {
    Shared(true, CLOSED, l, -1, {}, None, Kernel(map[l := 0], 1, {}, {}, {}, multiset{}, 0), [], false)
  }

  /** A connection has been accepted and its descriptor `n` stored. */
  function Installed(l: int, n: int): Shared
  {
    Shared(true, CONNECTING, l, n, {}, None, Kernel(map[l := 0, n := 1], 2, {}, {}, {1}, multiset{}, 0), [], false)
  }

  /** A connection claimed by the acceptor, whose descriptor has not been stored yet. */
  function Claimed(l: int, n: int): Shared
  {
    Installed(l, n).(connFd := -1)
  }

  lemma ClaimOne(r: seq<State>, l: int, n: int) returns (r': seq<State>)
    requires r != [] && IsRun(r) && r[|r| - 1].sh == Started(l) && 0 in r[|r| - 1].pcs && r[|r| - 1].pcs[0] == Idle
    requires 0 <= l && 0 <= n && l != n
    ensures IsRun(r') && r' != [] && r <= r' && r'[|r'| - 1].sh == Claimed(l, n)
    ensures r'[|r'| - 1].pcs == r[|r| - 1].pcs[0 := Accept(WantInstall(n))]
  {
    hide IsRun;
    var sh, c := Started(l), Good(0, n);
    r' := Go(r, 0, c, sh, Accept(FirstCheck));
    r' := Go(r', 0, c, sh, Accept(TryConnect));
    sh := sh.(conn := CONNECTING);
    r' := Go(r', 0, c, sh, Accept(SecondCheck));
    r' := Go(r', 0, c, sh, Accept(CallAccept));
    r' := Go(r', 0, c, sh, Accept(Accepting(l)));
    assert map[l := 0][n := 1] == map[l := 0, n := 1] && {} + {1} == {1};
    r' := Go(r', 0, c, Claimed(l, n), Accept(WantInstall(n)));
  }

  lemma InstallOne(r: seq<State>, l: int, n: int) returns (r': seq<State>)
    requires r != [] && IsRun(r) && r[|r| - 1].sh == Claimed(l, n) && 0 in r[|r| - 1].pcs
    requires r[|r| - 1].pcs[0] == Accept(WantInstall(n))
    ensures IsRun(r') && r' != [] && r <= r' && r'[|r'| - 1].sh == Installed(l, n)
    ensures r'[|r'| - 1].pcs == r[|r| - 1].pcs[0 := Transfer(HandshakeRecv, WantShared)]
  {
    hide IsRun;
    var sh, c := Claimed(l, n), Good(0, n);
    r' := Go(r, 0, c, sh.(writer := Some(0)), Accept(Install(n)));
    r' := Go(r', 0, c, sh.(writer := Some(0), connFd := n), Accept(ReleaseInstall));
    r' := Go(r', 0, c, sh.(connFd := n), Transfer(HandshakeRecv, WantShared));
  }

  /** A transfer that succeeds, up to the release of the lock. */
  lemma TransferOne(r: seq<State>, t: nat, kind: Transfer) returns (r': seq<State>)
    requires r != [] && IsRun(r) && t in r[|r| - 1].pcs && r[|r| - 1].pcs[t] == Transfer(kind, WantShared)
    requires var s := r[|r| - 1].sh; s.writer.None? && s.readers == {} && s.k.Harmless(s.connFd)
    ensures IsRun(r') && r' != [] && r <= r'
    ensures r'[|r'| - 1].sh == r[|r| - 1].sh.(readers := {t})
    ensures r'[|r'| - 1].pcs == r[|r| - 1].pcs[t := Transfer(kind, ReleaseShared(true))]
  {
    hide IsRun;
    var s := r[|r| - 1].sh;
    assert {} + {t} == {t};
    r' := Go(r, t, Good(1, 0), s.(readers := {t}), Transfer(kind, ReadFd));
    r' := Go(r', t, Good(1, 0), s.(readers := {t}), Transfer(kind, InCall(s.connFd)));
    r' := Go(r', t, Good(1, 0), s.(readers := {t}), Transfer(kind, ReleaseShared(true)));
  }

  /** The handshake succeeds and the connection opens. */
  lemma OpenOne(r: seq<State>, l: int, n: int) returns (r': seq<State>)
    requires r != [] && IsRun(r) && r[|r| - 1].sh == Installed(l, n) && 0 in r[|r| - 1].pcs
    requires r[|r| - 1].pcs[0] == Transfer(HandshakeRecv, WantShared) && l != n
    ensures IsRun(r') && r' != [] && r <= r'
    ensures r'[|r'| - 1].sh == Installed(l, n).(conn := OPEN, calls := [(OnValidate, 0), (OnOpen, 0)])
    ensures r'[|r'| - 1].pcs == r[|r| - 1].pcs[0 := Idle]
  {
    hide IsRun;
    var sh, c := Installed(l, n), Good(1, 0);
    assert {0} - {0} == {};
    assert [] + [(OnValidate, 0)] == [(OnValidate, 0)];
    assert [(OnValidate, 0)] + [(OnOpen, 0)] == [(OnValidate, 0), (OnOpen, 0)];
    r' := TransferOne(r, 0, HandshakeRecv);
    r' := Go(r', 0, c, sh, Accept(Validating));
    sh := sh.(calls := [(OnValidate, 0)]);
    r' := Go(r', 0, c, sh, Transfer(UpgradeReply, WantShared));
    r' := TransferOne(r', 0, UpgradeReply);
    r' := Go(r', 0, c, sh, Accept(RunOpen));
    sh := sh.(calls := [(OnValidate, 0), (OnOpen, 0)]);
    r' := Go(r', 0, c, sh, Accept(SetOpen));
    r' := Go(r', 0, c, sh.(conn := OPEN), Idle);
  }

  /** `Close` stops the server and finds the connection open. */
  lemma StopServer(r: seq<State>, l: int, n: int) returns (r': seq<State>)
    requires r != [] && IsRun(r) && 1 in r[|r| - 1].pcs && r[|r| - 1].pcs[1] == Idle && l != n
    requires r[|r| - 1].sh == Installed(l, n).(conn := OPEN, calls := [(OnValidate, 0), (OnOpen, 0)])
    ensures IsRun(r') && r' != [] && r <= r'
    ensures r'[|r'| - 1].sh == r[|r| - 1].sh.(serverUp := false, k := r[|r| - 1].sh.k.(shut := {0}))
    ensures r'[|r'| - 1].pcs == r[|r| - 1].pcs[1 := Close(CloseListener(OPEN))]
  {
    hide IsRun;
    var sh, c := r[|r| - 1].sh, Good(3, 0);
    assert {} + {0} == {0};
    r' := Go(r, 1, c, sh, Close(Flip));
    sh := sh.(serverUp := false);
    r' := Go(r', 1, c, sh, Close(ShutServer));
    sh := sh.(k := sh.k.(shut := {0}));
    r' := Go(r', 1, c, sh, Close(FirstLoad));
    r' := Go(r', 1, c, sh, Close(CloseListener(OPEN)));
  }

  lemma CloseServerSocket(r: seq<State>, l: int, n: int, sh: Shared) returns (r': seq<State>)
    requires r != [] && IsRun(r) && 1 in r[|r| - 1].pcs && r[|r| - 1].pcs[1] == Close(CloseListener(OPEN)) && l != n
    requires r[|r| - 1].sh == sh && sh.serverFd == l
    requires sh.k == Kernel(map[l := 0, n := 1], 2, {0}, {}, {1}, multiset{}, 0)
    ensures IsRun(r') && r' != [] && r <= r'
    ensures r'[|r'| - 1].sh == sh.(serverFd := -1, k := Kernel(map[n := 1], 2, {0}, {}, {1}, multiset{0}, 0))
    ensures r'[|r'| - 1].pcs == r[|r| - 1].pcs[1 := CloseConn(true, TryClose)]
  {
    hide IsRun;
    var c, closed := Good(3, 0), Kernel(map[n := 1], 2, {0}, {}, {1}, multiset{0}, 0);
    assert map[l := 0, n := 1] - {l} == map[n := 1] && multiset{} + multiset{0} == multiset{0};
    r' := Go(r, 1, c, sh.(k := closed), Close(ResetListener(OPEN)));
    r' := Go(r', 1, c, sh.(k := closed, serverFd := -1), CloseConn(true, TryClose));
  }

  /** The same `Close` says goodbye and calls back. */
  lemma CloseOne(r: seq<State>, n: int) returns (r': seq<State>)
    requires r != [] && IsRun(r) && 1 in r[|r| - 1].pcs && r[|r| - 1].pcs[1] == CloseConn(true, TryClose)
    requires r[|r| - 1].sh ==
               Shared(false, OPEN, -1, n, {}, None, Kernel(map[n := 1], 2, {0}, {}, {1}, multiset{0}, 0),
                      [(OnValidate, 0), (OnOpen, 0)], false)
    ensures IsRun(r') && r' != [] && r <= r'
    ensures r'[|r'| - 1].sh ==
              r[|r| - 1].sh.(conn := CLOSING, calls := [(OnValidate, 0), (OnOpen, 0), (OnClose, 1)])
    ensures r'[|r'| - 1].pcs == r[|r| - 1].pcs[1 := CloseConn(true, WantShut)]
  {
    hide IsRun;
    var sh, c := r[|r| - 1].sh.(conn := CLOSING), Good(1, 0);
    r' := Go(r, 1, c, sh, Transfer(CloseFrame(true), WantShared));
    r' := TransferOne(r', 1, CloseFrame(true));
    assert {1} - {1} == {};
    r' := Go(r', 1, c, sh, CloseConn(true, Notify(CLOSE)));
    assert [(OnValidate, 0), (OnOpen, 0)] + [(OnClose, 1)] == [(OnValidate, 0), (OnOpen, 0), (OnClose, 1)];
    r' := Go(r', 1, c, sh.(calls := [(OnValidate, 0), (OnOpen, 0), (OnClose, 1)]), CloseConn(true, WantShut));
  }

  lemma ShutSocket(r: seq<State>, n: int, sh: Shared) returns (r': seq<State>)
    requires r != [] && IsRun(r) && 1 in r[|r| - 1].pcs && r[|r| - 1].pcs[1] == CloseConn(true, WantShut)
    requires r[|r| - 1].sh == sh && sh.connFd == n && sh.readers == {} && sh.writer.None?
    requires sh.k == Kernel(map[n := 1], 2, {0}, {}, {1}, multiset{0}, 0)
    ensures IsRun(r') && r' != [] && r <= r' && r'[|r'| - 1].sh == sh.(k := sh.k.(shut := {0, 1}))
    ensures r'[|r'| - 1].pcs == r[|r| - 1].pcs[1 := CloseConn(true, WantExclusive)]
  {
    hide IsRun;
    var c := Good(1, 0);
    assert {} + {1} == {1} && {1} - {1} == {} && {0} + {1} == {0, 1};
    r' := Go(r, 1, c, sh.(readers := {1}), CloseConn(true, DoShut));
    r' := Go(r', 1, c, sh.(readers := {1}, k := sh.k.(shut := {0, 1})), CloseConn(true, ReleaseShut));
    r' := Go(r', 1, c, sh.(k := sh.k.(shut := {0, 1})), CloseConn(true, WantExclusive));
  }

  lemma CloseSocket(r: seq<State>, n: int, sh: Shared) returns (r': seq<State>)
    requires r != [] && IsRun(r) && 1 in r[|r| - 1].pcs && r[|r| - 1].pcs[1] == CloseConn(true, WantExclusive)
    requires r[|r| - 1].sh == sh && sh.connFd == n && sh.readers == {} && sh.writer.None?
    requires sh.k == Kernel(map[n := 1], 2, {0, 1}, {}, {1}, multiset{0}, 0)
    ensures IsRun(r') && r' != [] && r <= r'
    ensures r'[|r'| - 1].sh ==
              sh.(connFd := -1, k := Kernel(map[], 2, {0, 1}, {}, {1}, multiset{0, 1}, 0))
    ensures r'[|r'| - 1].pcs == r[|r| - 1].pcs[1 := CloseConn(true, SetClosed)]
  {
    hide IsRun;
    var c, closed := Good(1, 0), Kernel(map[], 2, {0, 1}, {}, {1}, multiset{0, 1}, 0);
    r' := Go(r, 1, c, sh.(writer := Some(1)), CloseConn(true, CloseFd));
    assert map[n := 1] - {n} == map[] && multiset{0} + multiset{1} == multiset{0, 1};
    r' := Go(r', 1, c, sh.(k := closed, writer := Some(1)), CloseConn(true, ResetFd));
    r' := Go(r', 1, c, sh.(k := closed, writer := Some(1), connFd := -1), CloseConn(true, ReleaseExclusive));
    r' := Go(r', 1, c, sh.(k := closed, connFd := -1), CloseConn(true, SetClosed));
  }

  lemma ReturnOne(r: seq<State>) returns (r': seq<State>)
    requires r != [] && IsRun(r) && 1 in r[|r| - 1].pcs && r[|r| - 1].pcs[1] == CloseConn(true, SetClosed)
    requires r[|r| - 1].sh.conn == CLOSING
    ensures IsRun(r') && r' != [] && r <= r'
    ensures r'[|r'| - 1].sh == r[|r| - 1].sh.(conn := CLOSED, closeReturned := true)
  {
    r' := Go(r, 1, Good(1, 0), r[|r| - 1].sh.(conn := CLOSED, closeReturned := true), Idle);
  }

  /**
   When every call succeeds an acceptor opens its connection, and a `Close` then
   closes the connection and the listening socket and returns.
   */
  lemma LifeSucceeds(l: int, n: int) returns (r: seq<State>, i: nat)
    requires 0 <= l && 0 <= n && l != n
    ensures IsRun(r) && i < |r| && r[i].sh.conn == OPEN && r[i].sh.connFd == n && r[i].sh.serverUp
    ensures var s := r[|r| - 1].sh;
            && s.conn == CLOSED && !s.serverUp && s.closeReturned && s.k.closes == multiset{0, 1}
            && s.calls == [(OnValidate, 0), (OnOpen, 0), (OnClose, 1)]
  {
    var s := State(Started(l), map[0 := Idle, 1 := Idle]);
    r := [s];
    assert IsRun(r);
    hide IsRun, Act, CanAct;
    r := ClaimOne(r, l, n);
    r := InstallOne(r, l, n);
    r := OpenOne(r, l, n);
    i := |r| - 1;
    var more := StopServer(r, l, n);
    more := CloseServerSocket(more, l, n, more[|more| - 1].sh);
    more := CloseOne(more, n);
    more := ShutSocket(more, n, more[|more| - 1].sh);
    more := CloseSocket(more, n, more[|more| - 1].sh);
    more := ReturnOne(more);
    assert more[i] == r[i];
    r := more;
  }
}
