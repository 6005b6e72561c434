/**
  Runs of the scheduler in which a hypothesis of the theorems fails, and the
  conclusion with it: a second REGISTER strands the queue, and a timeout that
  coincides with a timer reset leaves the new holder without a quantum.
 */
module Counterexamples {
  import opened Messages
  import opened SchedulerSpec
  import opened SchedulerRuns
  import opened SchedulerInvariant
  import opened SchedulerTheorems
  import opened SchedulerTimer

  ghost predicate Reachable(w: World) {
    exists ws, es :: IsRun(ws, es) && ws[|es|] == w
  }

  lemma Extend(w: World, e: Event)
    requires Reachable(w) && Enabled(w, e)
    ensures Reachable(Next(w, e))
  {
    var ws, es :| IsRun(ws, es) && ws[|es|] == w;
    var ws', es' := ws + [Next(w, e)], es + [e];
    forall i | 0 <= i < |es'| ensures Enabled(ws'[i], es'[i]) && ws'[i + 1] == Next(ws'[i], es'[i]) {
      if i < |es| { assert ws'[i] == ws[i] && es'[i] == es[i] && ws'[i + 1] == ws[i + 1]; }
    }
    assert IsRun(ws', es') && ws'[|es'|] == Next(w, e);
  }

  lemma StartReachable()
    ensures Reachable(START)
  {
    assert IsRun([START], []);
  }

  const JOINED: seq<Listed> := [Listed(1, 10), Listed(2, 20)]

  /** Clients 1 and 2, registered; `q` is the queue. */
  function Two(q: seq<Fd>, held: bool, round: nat, reset: bool, t: Timer, h: History): World {
    World(Sched(JOINED, q, held, true, DEFAULT_TQ, round, reset), t, h)
  }

  lemma Sets()
    ensures RegisteredFds(JOINED) == {1, 2} == Fds(JOINED)
    ensures Grantees(map[]) == {} && ToldToDrop(map[]) == {}
  {
    assert JOINED[0] in JOINED && JOINED[1] in JOINED;
  }

  lemma OneMessage(fd: Fd, m: ToClient)
    ensures Grantees(map[fd := m]) == if m.LockOk? then {fd} else {}
    ensures ToldToDrop(map[fd := m]) == if m.DropLock? then {fd} else {}
  {
  }

  const IDLE: World := Two([], false, 0, false, Timer(0, false), History({}, 0, 0, 0, false))

  /** Both clients are listed; nobody is registered. */
  lemma ListBoth() returns (w: World)
    ensures Reachable(w)
    ensures w == START.(s := START.s.(clients := [Listed(1, UNREGISTERED_ID), Listed(2, UNREGISTERED_ID)]))
  {
    var u := UNREGISTERED_ID;
    StartReachable();
    Extend(START, Accept(1));
    var w1 := Next(START, Accept(1));
    assert w1.s.clients == [Listed(1, u)] && Fds(w1.s.clients) == {1};
    Extend(w1, Accept(2));
    w := Next(w1, Accept(2));
    assert w.s.clients == [Listed(1, u), Listed(2, u)];
  }

  lemma JoinBoth()
    ensures Reachable(IDLE)
  {
    var u := UNREGISTERED_ID;
    var w2 := ListBoth();
    assert w2.s.clients[0] in w2.s.clients && w2.s.clients[1] in w2.s.clients;
    assert RegisteredFds(w2.s.clients) == {};
    RegisterOne(w2, 1, 10, Listed(1, u), Listed(2, u));
    Extend(w2, Recv(1, Register, {}, [10]));
    var w3 := Next(w2, Recv(1, Register, {}, [10]));
    assert w3.s.clients == [Listed(1, 10), Listed(2, u)];
    assert w3.s.clients[0] in w3.s.clients && w3.s.clients[1] in w3.s.clients;
    assert 2 !in RegisteredFds(w3.s.clients);
    RegisterOne(w3, 2, 20, Listed(1, 10), Listed(2, u));
    Extend(w3, Recv(2, Register, {}, [20]));
    assert Next(w3, Recv(2, Register, {}, [20])) == IDLE;
  }

  lemma RegisterOne(w: World, fd: Fd, id: Id, a: Listed, b: Listed)
    requires w.s.clients == [a, b] && a.fd == 1 && b.fd == 2 && fd in {1, 2}
    requires fd !in RegisteredFds(w.s.clients) && id !in {UNREGISTERED_ID, a.id, b.id}
    ensures Enabled(w, Recv(fd, Register, {}, [id]))
    ensures Next(w, Recv(fd, Register, {}, [id])) ==
      w.(s := w.s.(clients := [if fd == 1 then Listed(1, id) else a, if fd == 2 then Listed(2, id) else b]),
         h := w.h.(heldThroughout := w.h.heldThroughout && w.s.lockHeld))
  {
    Sets();
    assert w.s.clients[0] in w.s.clients && w.s.clients[1] in w.s.clients;
    assert [id][0] in [id] && Acceptable(w.s.clients, [id][0]);
    assert FirstAcceptable(w.s.clients, [id]) == id;
    var cs := WithId(w.s.clients, fd, id);
    assert cs == [cs[0], cs[1]];
    OneMessage(fd, Status(w.s.on));
  }

  /** Both ask; client 1 is granted, client 2 waits. */
  const WAITING: World := Two([1, 2], true, 1, true, Timer(0, false), History({1}, 0, 0, 0, false))

  lemma BothAsk()
    ensures Reachable(WAITING)
  {
    JoinBoth();
    Sets();
    OneMessage(1, LockOk(1));
    Extend(IDLE, Recv(1, ReqLock, {}, []));
    var w := Next(IDLE, Recv(1, ReqLock, {}, []));
    assert w == Two([1], true, 1, true, Timer(0, false), History({1}, 0, 0, 0, false));
    Extend(w, Recv(2, ReqLock, {}, []));
    assert Next(w, Recv(2, ReqLock, {}, [])) == WAITING;
  }

  /** The holder registers again: client 2 waits for a lock that nobody holds. */
  lemma SecondRegisterStrands() returns (w: World)
    ensures Reachable(w) && w.s.on && w.s.requests == [2] && !w.s.lockHeld && !Busy(w.s)
  {
    BothAsk();
    Sets();
    var e := Recv(1, Register, {}, []);
    Extend(WAITING, e);
    w := Next(WAITING, e);
    assert WAITING.s.requests[1..] == [2] && Without([2], {1}) == [2];
  }

  /** Client 1 has been told to drop the lock. */
  const TOLD: World := Two([1, 2], true, 1, false, Timer(1, true), History({1}, 0, 0, 1, true))

  lemma TellOne()
    ensures Reachable(TOLD)
  {
    BothAsk();
    Sets();
    OneMessage(1, DropLock(1));
    Extend(WAITING, Wake);
    var w := Next(WAITING, Wake);
    Extend(w, Timeout({}));
    assert Next(w, Timeout({})) == TOLD;
  }

  /** Client 1 gives the lock back, client 2 gets it, and the timer is due a reset. */
  const HANDED: World := Two([2], true, 2, true, Timer(1, true), History({2}, 0, 0, 1, false))

  lemma HandOver()
    ensures Reachable(HANDED)
  {
    TellOne();
    Sets();
    OneMessage(2, LockOk(2));
    var e := Recv(1, LockReleased(1), {}, []);
    assert [1, 2][1..] == [2] && Without([2], {1}) == [2];
    Extend(TOLD, e);
    assert Next(TOLD, e) == HANDED;
  }

  /** The timeout is returned before the reset is noticed: client 2 is never told. */
  lemma CoincidingTimeoutForgets() returns (w: World)
    ensures Reachable(w) && Forgotten(w) && w.h.granted == {2}
  {
    HandOver();
    Sets();
    Extend(HANDED, Timeout({}));
    w := Next(HANDED, Timeout({}));
  }
}
