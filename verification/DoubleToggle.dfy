/**
  Two OFF-then-ON toggles can break mutual exclusion. Client 1's request survives
  the first toggle and is granted; it asks once more before it learns of the grant,
  and then gives the lock back. After the second toggle the scheduler reads that
  extra request, grants the lock again, and then reads the old release, which
  cancels the new grant: clients 1 and 2 both end up owning the lock.
 */
module DoubleToggle {
  import opened Messages
  import opened SchedulerSpec
  import SR = SchedulerRuns
  import CS = ClientSpec
  import C = Client
  import opened Protocol
  import opened ProtocolTheorems

  ghost predicate Reachable(s: Sys) {
    exists ss, es :: IsRun(ss, es) && ss[|es|] == s
  }

  lemma Extend(s: Sys, e: Event)
    requires Reachable(s) && Enabled(s, e)
    ensures Reachable(Next(s, e))
  {
    var ss, es :| IsRun(ss, es) && ss[|es|] == s;
    var ss', es' := ss + [Next(s, e)], es + [e];
    forall i | 0 <= i < |es'| ensures Enabled(ss'[i], es'[i]) && ss'[i + 1] == Next(ss'[i], es'[i]) {
      if i < |es| { assert ss'[i] == ss[i] && es'[i] == es[i] && ss'[i + 1] == ss[i + 1]; }
    }
    assert IsRun(ss', es') && ss'[|es'|] == Next(s, e);
  }

  /** Two joined applications on descriptors 1 and 2, a configuration tool on 3. */
  datatype Mini = Mini(
    q: seq<Fd>, held: bool, on: bool, round: nat, reset: bool,
    granted: set<Fd>, epoch: nat, ons: nat,
    a: Conn, b: Conn, k: Conn)

  const LISTED: seq<Listed> := [Listed(1, 10), Listed(2, 20), Listed(3, UNREGISTERED_ID)]

  function Full(m: Mini): Sys {
    Sys(SR.World(Sched(LISTED, m.q, m.held, m.on, DEFAULT_TQ, m.round, m.reset),
                 Timer(0, false),
                 SR.History(m.granted, m.epoch, m.ons, 0, false)),
        map[1 := m.a, 2 := m.b, 3 := m.k])
  }

  function Push(c: Conn, m: ToClient): Conn {
    c.(s2c := c.s2c + [m])
  }

  function Pop(c: Conn): Conn
    requires c.c2s != []
  {
    c.(c2s := c.c2s[1..])
  }

  lemma Sets()
    ensures RegisteredFds(LISTED) == {1, 2} && Fds(LISTED) == {1, 2, 3}
  {
    assert LISTED[0] in LISTED && LISTED[1] in LISTED && LISTED[2] in LISTED;
  }

  // ------------------------------------------------------- the steps that are needed

  lemma ClientOne(m: Mini, e: C.Event)
    requires Reachable(Full(m)) && Enabled(Full(m), AtClient(1, e))
    ensures Reachable(Full(m.(a := ClientMoved(m.a, e))))
  {
    Extend(Full(m), AtClient(1, e));
    assert Next(Full(m), AtClient(1, e)) == Full(m.(a := ClientMoved(m.a, e)));
  }

  lemma ClientTwo(m: Mini, e: C.Event)
    requires Reachable(Full(m)) && Enabled(Full(m), AtClient(2, e))
    ensures Reachable(Full(m.(b := ClientMoved(m.b, e))))
  {
    Extend(Full(m), AtClient(2, e));
    assert Next(Full(m), AtClient(2, e)) == Full(m.(b := ClientMoved(m.b, e)));
  }

  function SchedOf(m: Mini): Sched {
    Full(m).w.s
  }

  /** The scheduler reads the first message of connection `fd` and turns `m` into `m'`. */
  ghost predicate Turns(m: Mini, fd: Fd, r: Effect, m': Mini) {
    && fd in Full(m).conns && Full(m).conns[fd].c2s != []
    && (var x := Full(m).conns[fd].c2s[0]; !x.Register? && r == ProcessMsg(SchedOf(m), fd, x, {}, []))
    && r.s == SchedOf(m')
    && m'.a == Got(m.a, fd == 1, r.out, 1) && m'.b == Got(m.b, fd == 2, r.out, 2)
    && m'.k == Got(m.k, fd == 3, r.out, 3)
    && SR.ToldToDrop(r.out) == {}
    && m'.granted == (if SR.Grantees(r.out) != {} then SR.Grantees(r.out) else m.granted)
    && m'.epoch == (if m.on && !m'.on then m.round else m.epoch)
    && m'.ons == (if !m.on && m'.on then m.ons + 1 else m.ons)
    && (m'.on || m'.round == m.round)
  }

  lemma DeliverAll(m: Mini, e: SR.Event, out: Out)
    requires e.Recv? && e.fd in Full(m).conns && Full(m).conns[e.fd].c2s != []
    ensures Deliver(Full(m).conns, e, {1, 2, 3}, out) ==
      map[1 := Got(m.a, e.fd == 1, out, 1), 2 := Got(m.b, e.fd == 2, out, 2), 3 := Got(m.k, e.fd == 3, out, 3)]
  {
  }

  lemma Received(m: Mini, fd: Fd, r: Effect, m': Mini)
    requires Reachable(Full(m)) && Turns(m, fd, r, m')
    ensures Reachable(Full(m'))
  {
    Sets();
    var e := Recv(fd, {}, []);
    DeliverAll(m, SchedulerEvent(Full(m), e), r.out);
    Extend(Full(m), e);
    assert Next(Full(m), e) == Full(m');
  }

  function Got(c: Conn, read: bool, out: Out, fd: Fd): Conn
    requires read ==> c.c2s != []
  {
    var c1 := if read then Pop(c) else c;
    if fd in out then Push(c1, out[fd]) else c1
  }

  lemma Broadcast(s: Sched)
    requires s.clients == LISTED
    ensures BcastStatus(s, {}) ==
      Effect(s.(requests := Without(s.requests, {})), map[1 := Status(s.on), 2 := Status(s.on)])
    ensures var out := BcastStatus(s, {}).out; SR.Grantees(out) == {} == SR.ToldToDrop(out)
  {
    Sets();
    assert RegisteredFds(LISTED) * {} == {};
    WithoutNoClients(LISTED);
  }

  lemma SwitchOff(m: Mini)
    requires Reachable(Full(m)) && m.on && m.k.c2s != [] && m.k.c2s[0] == SchedOff
    ensures Reachable(Full(m.(q := [], held := false, on := false, epoch := m.round,
                              a := Push(m.a, StatusOff), b := Push(m.b, StatusOff), k := Pop(m.k))))
  {
    Broadcast(SchedOf(m).(on := false));
    Received(m, 3, ProcessMsg(SchedOf(m), 3, SchedOff, {}, []),
             m.(q := [], held := false, on := false, epoch := m.round,
                a := Push(m.a, StatusOff), b := Push(m.b, StatusOff), k := Pop(m.k)));
  }

  lemma SwitchOn(m: Mini)
    requires Reachable(Full(m)) && !m.on && m.q == [] && !m.held && m.k.c2s != [] && m.k.c2s[0] == SchedOn
    ensures Reachable(Full(m.(on := true, ons := m.ons + 1,
                              a := Push(m.a, StatusOn), b := Push(m.b, StatusOn), k := Pop(m.k))))
  {
    Broadcast(SchedOf(m).(on := true));
    Received(m, 3, ProcessMsg(SchedOf(m), 3, SchedOn, {}, []),
             m.(on := true, ons := m.ons + 1,
                a := Push(m.a, StatusOn), b := Push(m.b, StatusOn), k := Pop(m.k)));
  }

  lemma OneGrant(fd: Fd, r: nat)
    ensures SR.Grantees(map[fd := LockOk(r)]) == {fd} && SR.ToldToDrop(map[fd := LockOk(r)]) == {}
  {
    assert fd in SR.Grantees(map[fd := LockOk(r)]);
  }

  lemma GrantOne(m: Mini)
    requires Reachable(Full(m)) && m.on && m.q == [] && !m.held && m.a.c2s != [] && m.a.c2s[0] == ReqLock
    ensures Reachable(Full(m.(q := [1], held := true, round := m.round + 1, reset := true, granted := {1},
                              a := Push(Pop(m.a), LockOk(m.round + 1)))))
  {
    Sets();
    OneGrant(1, m.round + 1);
    Received(m, 1, ProcessMsg(SchedOf(m), 1, ReqLock, {}, []),
             m.(q := [1], held := true, round := m.round + 1, reset := true, granted := {1},
                a := Push(Pop(m.a), LockOk(m.round + 1))));
  }

  lemma QueueTwo(m: Mini)
    requires Reachable(Full(m)) && m.on && m.q == [1] && m.held && m.b.c2s != [] && m.b.c2s[0] == ReqLock
    ensures Reachable(Full(m.(q := [1, 2], b := Pop(m.b))))
  {
    Sets();
    Received(m, 2, ProcessMsg(SchedOf(m), 2, ReqLock, {}, []), m.(q := [1, 2], b := Pop(m.b)));
  }

  lemma ReleaseGrantsTwo(m: Mini)
    requires m.on && m.q == [1, 2] && m.held && m.a.c2s != [] && m.a.c2s[0].LockReleased?
    ensures ProcessMsg(SchedOf(m), 1, m.a.c2s[0], {}, []) ==
      Effect(SchedOf(m).(requests := [2], round := m.round + 1, mustReset := true), map[2 := LockOk(m.round + 1)])
  {
    Sets();
    assert [1, 2][1..] == [2] && Without([2], {1}) == [2];
  }

  lemma ReleaseOne(m: Mini)
    requires Reachable(Full(m)) && m.on && m.q == [1, 2] && m.held && m.a.c2s != [] && m.a.c2s[0].LockReleased?
    ensures Reachable(Full(m.(q := [2], round := m.round + 1, reset := true, granted := {2},
                              a := Pop(m.a), b := Push(m.b, LockOk(m.round + 1)))))
  {
    OneGrant(2, m.round + 1);
    ReleaseGrantsTwo(m);
    var s' := SchedOf(m).(requests := [2], round := m.round + 1, mustReset := true);
    Received(m, 1, Effect(s', map[2 := LockOk(m.round + 1)]),
             m.(q := [2], round := m.round + 1, reset := true, granted := {2},
                a := Pop(m.a), b := Push(m.b, LockOk(m.round + 1))));
  }

  // -------------------------------------------------------------------- the run

  const APP: Conn := Conn(CS.Fresh(CS.Joining), [], [StatusOn])
  const TOOL: seq<ToScheduler> := [SchedOff, SchedOn, SchedOff, SchedOn]

  const READY: Mini :=
    Mini([], false, true, 0, false, {}, 0, 0, APP, APP, Conn(CS.Fresh(CS.Ctl), TOOL, []))

  function Reads(c: Conn): Conn
    requires c.s2c != []
  {
    ClientMoved(c, C.Receive(c.s2c[0]))
  }

  /** Client 1 reads the next message on its stream. */
  lemma OneReads(m: Mini) returns (m': Mini)
    requires Reachable(Full(m)) && m.a.s2c != [] && m.a.cl.phase in {CS.Joining, CS.Running}
    ensures m' == m.(a := Reads(m.a)) && Reachable(Full(m'))
  {
    ClientOne(m, C.Receive(m.a.s2c[0]));
    m' := m.(a := Reads(m.a));
  }

  lemma TwoReads(m: Mini) returns (m': Mini)
    requires Reachable(Full(m)) && m.b.s2c != [] && m.b.cl.phase in {CS.Joining, CS.Running}
    ensures m' == m.(b := Reads(m.b)) && Reachable(Full(m'))
  {
    ClientTwo(m, C.Receive(m.b.s2c[0]));
    m' := m.(b := Reads(m.b));
  }

  lemma OneAsks(m: Mini) returns (m': Mini)
    requires Reachable(Full(m)) && m.a.cl.phase == CS.Running
    ensures m' == m.(a := ClientMoved(m.a, C.Ask)) && Reachable(Full(m'))
  {
    ClientOne(m, C.Ask);
    m' := m.(a := ClientMoved(m.a, C.Ask));
  }

  /** Off and on again, by the tool. */
  lemma Toggle(m: Mini) returns (m': Mini)
    requires Reachable(Full(m)) && m.on
    requires |m.k.c2s| >= 2 && m.k.c2s[0] == SchedOff && m.k.c2s[1] == SchedOn
    ensures Reachable(Full(m'))
    ensures m' == m.(q := [], held := false, epoch := m.round, ons := m.ons + 1,
                     a := m.a.(s2c := m.a.s2c + [StatusOff, StatusOn]),
                     b := m.b.(s2c := m.b.s2c + [StatusOff, StatusOn]),
                     k := m.k.(c2s := m.k.c2s[2..]))
  {
    SwitchOff(m);
    var m1 := m.(q := [], held := false, on := false, epoch := m.round,
                 a := Push(m.a, StatusOff), b := Push(m.b, StatusOff), k := Pop(m.k));
    SwitchOn(m1);
    m' := m1.(on := true, ons := m1.ons + 1,
              a := Push(m1.a, StatusOn), b := Push(m1.b, StatusOn), k := Pop(m1.k));
    assert m'.a.s2c == m.a.s2c + [StatusOff, StatusOn] && m'.b.s2c == m.b.s2c + [StatusOff, StatusOn];
  }

  /** An application after its first status, with the given flags and history. */
  function App(own: bool, need: bool, didWork: bool, ticking: bool, giver: Option<nat>, grant: nat,
               returned: set<nat>): CS.Client {
    CS.Client(CS.Running, true, own, need, didWork, need, ticking, giver, grant, returned)
  }

  /** Client 1 asks; the toggle overtakes its request; the request is granted. */
  const GRANTED: Mini :=
    Mini([1], true, true, 1, true, {1}, 0, 1,
         Conn(App(false, true, false, false, None, 0, {}), [], [StatusOff, StatusOn, LockOk(1)]),
         Conn(APP.cl, [], [StatusOn, StatusOff, StatusOn]),
         Conn(CS.Fresh(CS.Ctl), [SchedOff, SchedOn], []))

  /** The request is still on its way when the scheduler has gone off and on. */
  const OVERTAKEN: Mini :=
    READY.(ons := 1,
           a := Conn(App(false, true, false, false, None, 0, {}), [ReqLock], [StatusOff, StatusOn]),
           b := Conn(APP.cl, [], [StatusOn, StatusOff, StatusOn]),
           k := Conn(CS.Fresh(CS.Ctl), [SchedOff, SchedOn], []))

  lemma Overtake()
    requires Reachable(Full(READY))
    ensures Reachable(Full(OVERTAKEN))
  {
    var m1 := OneReads(READY);
    var m2 := OneAsks(m1);
    assert m2.a == Conn(App(false, true, false, false, None, 0, {}), [ReqLock], []);
    var m3 := Toggle(m2);
    assert m3.a == OVERTAKEN.a && m3.b == OVERTAKEN.b && m3.k == OVERTAKEN.k;
  }

  lemma FirstToggle()
    requires Reachable(Full(READY))
    ensures Reachable(Full(GRANTED))
  {
    Overtake();
    GrantOne(OVERTAKEN);
    assert OVERTAKEN.a.s2c + [LockOk(1)] == [StatusOff, StatusOn, LockOk(1)];
    assert GRANTED == OVERTAKEN.(q := [1], held := true, round := 1, reset := true, granted := {1},
                                 a := Push(Pop(OVERTAKEN.a), LockOk(1)));
  }

  /** Client 1 asks again before it learns of its grant, then gives the lock back. */
  const GIVEN_BACK: Mini :=
    GRANTED.(a := Conn(App(false, false, false, true, None, 1, {1}), [ReqLock, LockReleased(1)], []))

  const OWNING: Mini :=
    GRANTED.(a := Conn(App(true, false, true, false, Some(1), 1, {}), [ReqLock], []))

  lemma AskTwice()
    requires Reachable(Full(GRANTED))
    ensures Reachable(Full(OWNING))
  {
    var m1 := OneReads(GRANTED);
    var m2 := OneReads(m1);
    assert m2.a == Conn(App(false, false, false, false, None, 0, {}), [], [LockOk(1)]);
    var m3 := OneAsks(m2);
    var m4 := OneReads(m3);
    assert m4.a == OWNING.a;
  }

  lemma ReleaseOnce()
    requires Reachable(Full(OWNING))
    ensures Reachable(Full(GIVEN_BACK))
  {
    ClientOne(OWNING, C.EarlyBegin);
    var m := OWNING.(a := ClientMoved(OWNING.a, C.EarlyBegin));
    ClientOne(m, C.EarlyTimeout(true));
    assert ClientMoved(m.a, C.EarlyTimeout(true)) == GIVEN_BACK.a;
    assert m.(a := GIVEN_BACK.a) == GIVEN_BACK;
  }

  /** The second toggle; the extra request is granted; the old release is still unread. */
  const REGRANTED: Mini :=
    Mini([1], true, true, 2, true, {1}, 1, 2,
         Conn(GIVEN_BACK.a.cl, [LockReleased(1)], [StatusOff, StatusOn, LockOk(2)]),
         Conn(APP.cl, [], [StatusOn, StatusOff, StatusOn, StatusOff, StatusOn]),
         Conn(CS.Fresh(CS.Ctl), [], []))

  lemma SecondToggle()
    requires Reachable(Full(GIVEN_BACK))
    ensures Reachable(Full(REGRANTED))
  {
    var m1 := Toggle(GIVEN_BACK);
    GrantOne(m1);
    assert m1.a.s2c + [LockOk(2)] == [StatusOff, StatusOn, LockOk(2)];
    assert m1.b.s2c == [StatusOn, StatusOff, StatusOn, StatusOff, StatusOn];
    assert REGRANTED == m1.(q := [1], held := true, round := 2, reset := true, granted := {1},
                            a := Push(Pop(m1.a), LockOk(2)));
  }

  /** Client 2 catches up and asks. */
  const BOTH_QUEUED: Mini :=
    REGRANTED.(q := [1, 2], b := Conn(App(false, true, false, false, None, 0, {}), [], []))

  const CAUGHT_UP: Conn := Conn(App(false, false, false, false, None, 0, {}), [], [])

  /** Two status messages that cancel out. */
  lemma TwoReadsOffOn(m: Mini) returns (m': Mini)
    requires Reachable(Full(m)) && m.b.cl == CAUGHT_UP.cl && m.b.c2s == []
    requires |m.b.s2c| >= 2 && m.b.s2c[0] == StatusOff && m.b.s2c[1] == StatusOn
    ensures m' == m.(b := CAUGHT_UP.(s2c := m.b.s2c[2..])) && Reachable(Full(m'))
  {
    var m1 := TwoReads(m);
    m' := TwoReads(m1);
    assert m1.b.s2c[1..] == m.b.s2c[2..];
  }

  lemma ClientTwoQueues()
    requires Reachable(Full(REGRANTED))
    ensures Reachable(Full(BOTH_QUEUED))
  {
    var m1 := TwoReads(REGRANTED);
    var m2 := TwoReadsOffOn(m1);
    var m3 := TwoReadsOffOn(m2);
    assert m3 == REGRANTED.(b := CAUGHT_UP);
    ClientTwoAsks(m3);
  }

  lemma ClientTwoAsks(m: Mini)
    requires Reachable(Full(m)) && m == REGRANTED.(b := CAUGHT_UP)
    ensures Reachable(Full(BOTH_QUEUED))
  {
    ClientTwo(m, C.Ask);
    var m1 := m.(b := ClientMoved(m.b, C.Ask));
    assert m1.b == Conn(BOTH_QUEUED.b.cl, [ReqLock], []);
    QueueTwo(m1);
    assert m1.(q := [1, 2], b := Pop(m1.b)) == BOTH_QUEUED;
  }

  /** The old release is read, client 2 is granted, and both clients read their grants. */
  lemma BothOwn() returns (m: Mini)
    requires Reachable(Full(BOTH_QUEUED))
    ensures Reachable(Full(m)) && m.on && m.ons == 2 && OwnsUpToDate(m.a) && OwnsUpToDate(m.b)
  {
    ReleaseOne(BOTH_QUEUED);
    var m1 := BOTH_QUEUED.(q := [2], round := 3, reset := true, granted := {2},
                           a := Pop(BOTH_QUEUED.a), b := Push(BOTH_QUEUED.b, LockOk(3)));
    var m2 := OneReads(m1);
    var m3 := OneReads(m2);
    var m4 := OneReads(m3);
    m := TwoReads(m4);
  }

  // ------------------------------------------------------------------ the start

  lemma StartReachable()
    ensures Reachable(START)
  {
    assert IsRun([START], []);
  }

  /** The scheduler with these clients, before anything happened. */
  function Fresh(cs: seq<Listed>): SR.World {
    SR.START.(s := SR.START.s.(clients := cs))
  }

  const U: Id := UNREGISTERED_ID
  const KNOCK: Conn := Conn(CS.Fresh(CS.Joining), [Register], [])
  const CTL: Conn := Conn(CS.Fresh(CS.Ctl), TOOL, [])

  const ONE_LISTED: Sys := Sys(Fresh([Listed(1, U)]), map[1 := KNOCK])
  const TWO_LISTED: Sys := Sys(Fresh([Listed(1, U), Listed(2, U)]), map[1 := KNOCK, 2 := KNOCK])
  const ALL_LISTED: Sys :=
    Sys(Fresh([Listed(1, U), Listed(2, U), Listed(3, U)]), map[1 := KNOCK, 2 := KNOCK, 3 := CTL])

  lemma FirstConnected()
    ensures Reachable(ONE_LISTED)
  {
    StartReachable();
    ConnectOne(START, ConnectApp(1), ONE_LISTED);
  }

  lemma SecondConnected()
    ensures Reachable(TWO_LISTED)
  {
    FirstConnected();
    assert Fds(ONE_LISTED.w.s.clients) == {1};
    ConnectOne(ONE_LISTED, ConnectApp(2), TWO_LISTED);
  }

  lemma Connected()
    ensures Reachable(ALL_LISTED)
  {
    SecondConnected();
    var cs := TWO_LISTED.w.s.clients;
    assert cs[0] in cs && cs[1] in cs;
    assert Fds(cs) == {1, 2};
    ConnectOne(TWO_LISTED, ConnectCtl(3, TOOL), ALL_LISTED);
  }

  lemma ConnectOne(s: Sys, e: Event, s': Sys)
    requires Reachable(s) && (e.ConnectApp? || e == ConnectCtl(3, TOOL))
    requires s.conns.Keys == Fds(s.w.s.clients) && e.fd !in s.conns
    requires s'.conns == s.conns[e.fd := Newcomer(e)]
    requires s.w == Fresh(s.w.s.clients) && s'.w == Fresh(s.w.s.clients + [Listed(e.fd, U)])
    ensures Reachable(s')
  {
    Extend(s, e);
    var cs := s'.w.s.clients;
    forall x | x in Fds(s.w.s.clients) ensures x in Fds(cs) {
      var c :| c in s.w.s.clients && c.fd == x;
      assert c in cs;
    }
    assert Deliver(s.conns, SR.Accept(e.fd), Fds(cs), map[]) == s.conns;
    assert SR.Grantees(map[]) == {} && SR.ToldToDrop(map[]) == {};
    assert Next(s, e) == s';
  }

  const ONE_KNOWN: Sys :=
    Sys(Fresh([Listed(1, 10), Listed(2, U), Listed(3, U)]), map[1 := APP, 2 := KNOCK, 3 := CTL])

  lemma FirstRegistered()
    ensures Reachable(ONE_KNOWN)
  {
    Connected();
    RegisterOne(ALL_LISTED, 1, 10, ONE_KNOWN);
  }

  /** Applications 1 and 2 register; each is sent its first status. */
  lemma Registered()
    ensures Reachable(Full(READY))
  {
    FirstRegistered();
    RegisterOne(ONE_KNOWN, 2, 20, Full(READY));
  }

  /** Clients 1, 2 and 3 are listed; `fd` is about to register with an id nobody has. */
  predicate CanJoin(cs: seq<Listed>, fd: Fd, id: Id) {
    && |cs| == 3 && (forall i :: 0 <= i < 3 ==> cs[i].fd == i + 1 && cs[i].id != id)
    && 1 <= fd <= 2 && cs[fd - 1].id == U && id != U
  }

  lemma RegisterWorld(cs: seq<Listed>, fd: Fd, id: Id)
    requires CanJoin(cs, fd, id)
    ensures var e := SR.Recv(fd, Register, {}, [id]);
      && SR.Enabled(Fresh(cs), e)
      && SR.Act(Fresh(cs), e) ==
           TimerEffect(Fresh(cs[fd - 1 := Listed(fd, id)]).s, Timer(0, false), map[fd := StatusOn])
      && SR.Next(Fresh(cs), e) == Fresh(cs[fd - 1 := Listed(fd, id)])
  {
    RegisterEnabled(cs, fd, id);
    var out := map[fd := StatusOn];
    assert SR.Grantees(out) == {} == SR.ToldToDrop(out);
    assert WithId(cs, fd, id) == cs[fd - 1 := Listed(fd, id)];
  }

  lemma RegisterOne(s: Sys, fd: Fd, id: Id, s': Sys)
    requires Reachable(s) && s.w == Fresh(s.w.s.clients) && CanJoin(s.w.s.clients, fd, id)
    requires s.conns.Keys == {1, 2, 3} && s.conns[fd] == KNOCK
    requires s' == Sys(Fresh(s.w.s.clients[fd - 1 := Listed(fd, id)]), s.conns[fd := APP])
    ensures Reachable(s')
  {
    RegisterStep(s, fd, id);
    Extend(s, Recv(fd, {}, [id]));
  }

  lemma RegisterStep(s: Sys, fd: Fd, id: Id)
    requires s.w == Fresh(s.w.s.clients) && CanJoin(s.w.s.clients, fd, id)
    requires s.conns.Keys == {1, 2, 3} && s.conns[fd] == KNOCK
    ensures Enabled(s, Recv(fd, {}, [id]))
    ensures Next(s, Recv(fd, {}, [id])) == Sys(Fresh(s.w.s.clients[fd - 1 := Listed(fd, id)]), s.conns[fd := APP])
  {
    RegisterWorld(s.w.s.clients, fd, id);
    ThreeFds(s.w.s.clients[fd - 1 := Listed(fd, id)]);
    RegisterDeliver(s.conns, fd, id);
  }

  lemma RegisterDeliver(conns: map<Fd, Conn>, fd: Fd, id: Id)
    requires conns.Keys == {1, 2, 3} && fd in conns && conns[fd] == KNOCK
    ensures Deliver(conns, SR.Recv(fd, Register, {}, [id]), {1, 2, 3}, map[fd := StatusOn]) == conns[fd := APP]
  {
    assert Moved(KNOCK, Some(Register), Some(StatusOn)) == APP;
  }

  lemma ThreeFds(cs: seq<Listed>)
    requires |cs| == 3 && forall i :: 0 <= i < 3 ==> cs[i].fd == i + 1
    ensures Fds(cs) == {1, 2, 3}
    ensures forall i :: 0 <= i < 3 ==> (i + 1 in RegisteredFds(cs) <==> cs[i].id != UNREGISTERED_ID)
  {
    assert cs[0] in cs && cs[1] in cs && cs[2] in cs;
  }

  lemma RegisterEnabled(cs: seq<Listed>, fd: Fd, id: Id)
    requires CanJoin(cs, fd, id)
    ensures fd in Fds(cs) && fd !in RegisteredFds(cs)
    ensures (exists d :: d in [id] && Acceptable(cs, d)) && FirstAcceptable(cs, [id]) == id
  {
    ThreeFds(cs);
    assert [id][0] in [id] && Acceptable(cs, [id][0]);
    assert cs[fd - 1].fd == fd;
  }

  /** Two toggles are enough: a reachable state in which two up-to-date clients own the lock. */
  lemma TwoTogglesBreakMutualExclusion() returns (s: Sys)
    ensures Reachable(s) && s.w.s.on && s.w.h.ons == 2
    ensures 1 in s.conns && 2 in s.conns && OwnsUpToDate(s.conns[1]) && OwnsUpToDate(s.conns[2])
  {
    Registered();
    FirstToggle();
    AskTwice();
    ReleaseOnce();
    SecondToggle();
    ClientTwoQueues();
    var m := BothOwn();
    s := Full(m);
  }
}
