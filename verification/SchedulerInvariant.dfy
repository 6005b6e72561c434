/** What every step of the scheduler keeps, whatever its peers send. */
module SchedulerInvariant {
  import opened Messages
  import opened SchedulerSpec
  import opened SchedulerRuns

  // ------------------------------------------------------------- try_schedule

  /** Index of the first queued client that a send reaches, or the queue's length. */
  function FirstAlive(q: seq<Fd>, dead: set<Fd>): (i: nat)
    ensures i <= |q|
    ensures forall j :: 0 <= j < i ==> q[j] in dead
    ensures i < |q| ==> q[i] !in dead
  {
    if q == [] || q[0] !in dead then 0 else 1 + FirstAlive(q[1..], dead)
  }

  function Members(q: seq<Fd>): set<Fd> {
    set x | x in q
  }

  lemma {:induction false} WithoutAbsent(q: seq<Fd>, gone: set<Fd>)
    requires forall x :: x in q ==> x !in gone
    ensures Without(q, gone) == q
  {
    if q == [] {
    } else {
      WithoutAbsent(q[1..], gone);
    }
  }

  lemma WithoutHead(q: seq<Fd>)
    requires q != [] && Distinct(q)
    ensures Without(q, {q[0]}) == q[1..]
  {
    WithoutAbsent(q[1..], {q[0]});
  }

  /**
    The first request whose send succeeds is granted, exactly the clients before it
    are deleted, and the rest keep their order.
   */
  ghost function FirstAliveGranted(s: Sched, dead: set<Fd>): Effect {
    var i := FirstAlive(s.requests, dead);
    var gone := Members(s.requests[..i]);
    if i == |s.requests| then
      Effect(s.(requests := [], clients := WithoutClients(s.clients, gone)), map[])
    else
      Effect(s.(requests := s.requests[i..], clients := WithoutClients(s.clients, gone),
                lockHeld := true, round := s.round + 1, mustReset := true),
             map[s.requests[i] := LockOk(s.round + 1)])
  }

  lemma HeadAlive(s: Sched, dead: set<Fd>)
    requires !s.lockHeld && FirstAlive(s.requests, dead) == 0
    ensures TrySchedule(s, dead) == FirstAliveGranted(s, dead)
  {
    var q := s.requests;
    assert Members(q[..0]) == {};
    WithoutNoClients(s.clients);
    assert q[0..] == q;
  }

  lemma HeadDead(s: Sched, dead: set<Fd>)
    requires Distinct(s.requests) && !s.lockHeld && FirstAlive(s.requests, dead) > 0
    ensures FirstAliveGranted(s, dead) == FirstAliveGranted(DeleteClient(s, s.requests[0]), dead)
    ensures DeleteClient(s, s.requests[0]).requests == s.requests[1..]
  {
    var q := s.requests;
    var i := FirstAlive(q, dead);
    WithoutHead(q);
    FirstAliveTail(q, dead);
    WithoutClientsTwice(s.clients, {q[0]}, Members(q[1..][..i - 1]));
  }

  lemma {:induction false} TryScheduleResult(s: Sched, dead: set<Fd>)
    requires Distinct(s.requests) && !s.lockHeld
    ensures TrySchedule(s, dead) == FirstAliveGranted(s, dead)
    decreases |s.requests|
  {
    if FirstAlive(s.requests, dead) == 0 {
      HeadAlive(s, dead);
    } else {
      HeadDead(s, dead);
      DistinctTail(s.requests);
      TryScheduleResult(DeleteClient(s, s.requests[0]), dead);
    }
  }

  lemma DistinctTail(q: seq<Fd>)
    requires q != [] && Distinct(q)
    ensures Distinct(q[1..])
  {
  }

  lemma FirstAliveTail(q: seq<Fd>, dead: set<Fd>)
    requires FirstAlive(q, dead) > 0
    ensures var i := FirstAlive(q, dead);
      && FirstAlive(q[1..], dead) == i - 1
      && Members(q[..i]) == {q[0]} + Members(q[1..][..i - 1])
      && q[1..][i - 1..] == q[i..]
  {
    var i := FirstAlive(q, dead);
    assert q[..i] == [q[0]] + q[1..][..i - 1];
  }

  // --------------------------------------------- the lists, operation by operation

  lemma DeleteClientsLists(s: Sched, gone: set<Fd>)
    requires ListsOk(s)
    ensures ListsOk(DeleteClients(s, gone))
  {
    WithoutFacts(s.requests, gone);
    WithoutClientsDistinct(s.clients, gone);
    WithoutClientsSets(s.clients, gone);
  }

  lemma DeleteIsDeleteOne(s: Sched, fd: Fd)
    ensures DeleteClient(s, fd) == DeleteClients(s, {fd})
  {
  }

  lemma RemoveReqLists(s: Sched, fd: Fd)
    requires ListsOk(s)
    ensures ListsOk(RemoveReq(s, fd))
  {
    WithoutFacts(s.requests, {fd});
  }

  lemma TryScheduleLists(s: Sched, dead: set<Fd>)
    requires ListsOk(s) && !s.lockHeld
    ensures ListsOk(TrySchedule(s, dead).s)
  {
    TryScheduleResult(s, dead);
    var i := FirstAlive(s.requests, dead);
    var gone := Members(s.requests[..i]);
    WithoutClientsDistinct(s.clients, gone);
    WithoutClientsSets(s.clients, gone);
    forall x | x in s.requests[i..] ensures x in RegisteredFds(s.clients) - gone {
      var j :| i <= j < |s.requests| && s.requests[j] == x;
      assert s.requests[j] in s.requests;
    }
  }

  // ------------------------------------------ how an operation may move the lock

  /**
    What any operation outside the timer thread does to the lock: it may let go
    of it, it may grant it in a new round and arm the timer, or it leaves it be.
   */
  predicate LockMove(s: Sched, s': Sched, out: Out) {
    && s.round <= s'.round <= s.round + 1
    && (s.mustReset ==> s'.mustReset)
    && ToldToDrop(out) == {}
    && if s'.round == s.round then
         && Grantees(out) == {}
         && (s'.lockHeld ==> s.lockHeld && s.requests != [] && IsHead(s', s.requests[0]))
       else
         && s'.on && s'.lockHeld && s'.mustReset && s'.requests != []
         && Grantees(out) == {s'.requests[0]}
  }

  lemma QuietMove(s: Sched, s': Sched)
    requires s.round == s'.round && (s.mustReset ==> s'.mustReset)
    requires s'.lockHeld ==> s.lockHeld && s.requests != [] && IsHead(s', s.requests[0])
    ensures LockMove(s, s', map[])
  {
  }

  lemma TryScheduleMove(s: Sched, dead: set<Fd>)
    requires Distinct(s.requests) && !s.lockHeld && (!s.on ==> s.requests == [])
    ensures LockMove(s, TrySchedule(s, dead).s, TrySchedule(s, dead).out)
    ensures TrySchedule(s, dead).s.on == s.on
  {
    TryScheduleResult(s, dead);
  }

  lemma DeleteClientsMove(s: Sched, gone: set<Fd>)
    requires s.lockHeld ==> s.requests != []
    ensures LockMove(s, DeleteClients(s, gone), map[])
    ensures DeleteClients(s, gone).lockHeld ==> DeleteClients(s, gone).requests != []
  {
    WithoutFacts(s.requests, gone);
  }

  lemma RemoveReqMove(s: Sched, fd: Fd)
    requires s.lockHeld ==> s.requests != []
    ensures LockMove(s, RemoveReq(s, fd), map[])
  {
    WithoutFacts(s.requests, {fd});
  }

  /** A quiet operation followed by an attempt to schedule. */
  lemma ScheduleAfter(s: Sched, s1: Sched, dead: set<Fd>)
    requires LockMove(s, s1, map[]) && s1.round == s.round && ListsOk(s1)
    requires !s1.on ==> s1.requests == []
    ensures LockMove(s, ScheduleIfFree(s1, dead).s, ScheduleIfFree(s1, dead).out)
    ensures ListsOk(ScheduleIfFree(s1, dead).s)
    ensures ScheduleIfFree(s1, dead).s.on == s1.on
    ensures !s1.on ==> ScheduleIfFree(s1, dead).s.requests == []
  {
    if !s1.lockHeld {
      TryScheduleMove(s1, dead);
      TryScheduleLists(s1, dead);
      TryScheduleResult(s1, dead);
    }
  }

  // ---------------------------------------------------- every event but the timer's

  predicate SchedOk(s: Sched) {
    && ListsOk(s)
    && (s.lockHeld ==> s.requests != [])
    && (!s.on ==> s.requests == [] && !s.lockHeld)
  }

  predicate Good(s: Sched, e: Effect) {
    && ListsOk(e.s)
    && LockMove(s, e.s, e.out)
    && (!e.s.on ==> e.s.requests == [] && !e.s.lockHeld)
    && (e.s.on ==> s.on || e.s.round == s.round)
  }

  lemma ListsOkWithId(s: Sched, fd: Fd, id: Id)
    requires ListsOk(s) && fd in Fds(s.clients) && Acceptable(s.clients, id)
    ensures ListsOk(s.(clients := WithId(s.clients, fd, id)))
  {
    WithIdDistinct(s.clients, fd, id);
    WithIdRegistered(s.clients, fd, id);
  }

  lemma RegisterGood(s: Sched, fd: Fd, dead: set<Fd>, draws: seq<Id>)
    requires SchedOk(s) && fd in Fds(s.clients) && CanRegister(s, fd, draws)
    ensures Good(s, RegisterClient(s, fd, dead, draws))
  {
    if fd in RegisteredFds(s.clients) {
      DeleteGood(s, fd);
    } else {
      var id := FirstAcceptable(s.clients, draws);
      var s1 := s.(clients := WithId(s.clients, fd, id));
      ListsOkWithId(s, fd, id);
      if fd in dead {
        DeleteGood(s1, fd);
        assert LockMove(s, DeleteClient(s1, fd), map[]);
      } else {
        QuietMove(s, s1);
        assert Grantees(map[fd := Status(s.on)]) == {} == ToldToDrop(map[fd := Status(s.on)]);
      }
    }
  }

  lemma BcastGood(s: Sched, s0: Sched, dead: set<Fd>)
    requires SchedOk(s) && s0 == s.(on := s0.on)
    requires !s0.on || s.requests == []
    ensures var b := BcastStatus(s0, dead);
      ListsOk(b.s) && LockMove(s, b.s, b.out) && b.s.round == s.round && b.s.on == s0.on
    ensures s.requests == [] ==> BcastStatus(s0, dead).s.requests == []
  {
    var gone := RegisteredFds(s.clients) * dead;
    DeleteClientsLists(s0, gone);
    DeleteClientsMove(s0, gone);
    WithoutFacts(s.requests, gone);
    var b := BcastStatus(s0, dead);
    assert Grantees(b.out) == {} && ToldToDrop(b.out) == {};
  }

  lemma TurnOffGood(s: Sched, dead: set<Fd>)
    requires SchedOk(s) && s.on
    ensures Good(s, TurnOff(s, dead))
  {
    var s0 := s.(on := false);
    var gone := RegisteredFds(s.clients) * dead;
    DeleteClientsLists(s0, gone);
    var b := BcastStatus(s0, dead);
    assert Grantees(b.out) == {} && ToldToDrop(b.out) == {};
  }

  lemma RequestGood(s: Sched, fd: Fd, dead: set<Fd>)
    requires SchedOk(s) && s.on && fd in RegisteredFds(s.clients)
    ensures Good(s, ScheduleIfFree(InsertReq(s, fd), dead))
  {
    var s1 := InsertReq(s, fd);
    assert ListsOk(s1);
    QuietMove(s, s1);
    ScheduleAfter(s, s1, dead);
  }

  lemma ReleaseGood(s: Sched, fd: Fd, dead: set<Fd>)
    requires SchedOk(s) && s.on
    ensures Good(s, ScheduleIfFree(RemoveReq(s, fd), dead))
  {
    RemoveReqLists(s, fd);
    RemoveReqMove(s, fd);
    ScheduleAfter(s, RemoveReq(s, fd), dead);
  }

  lemma DeleteGood(s: Sched, fd: Fd)
    requires SchedOk(s)
    ensures Good(s, Effect(DeleteClient(s, fd), map[]))
  {
    DeleteIsDeleteOne(s, fd);
    DeleteClientsLists(s, {fd});
    DeleteClientsMove(s, {fd});
    WithoutFacts(s.requests, {fd});
  }

  lemma ProcessMsgGood(s: Sched, fd: Fd, m: ToScheduler, dead: set<Fd>, draws: seq<Id>)
    requires SchedOk(s) && fd in Fds(s.clients)
    requires m.Register? ==> CanRegister(s, fd, draws)
    ensures Good(s, ProcessMsg(s, fd, m, dead, draws))
  {
    match m {
      case Register => RegisterGood(s, fd, dead, draws);
      case SchedOn => if !s.on { BcastGood(s, s.(on := true), dead); } else { QuietMove(s, s); }
      case SchedOff => if s.on { TurnOffGood(s, dead); } else { QuietMove(s, s); }
      case SetTq(_) => QuietMove(s, ProcessMsg(s, fd, m, dead, draws).s);
      case ReqLock =>
        if fd !in RegisteredFds(s.clients) { DeleteGood(s, fd); }
        else if s.on { RequestGood(s, fd, dead); } else { QuietMove(s, s); }
      case LockReleased(_) =>
        if fd !in RegisteredFds(s.clients) { DeleteGood(s, fd); }
        else if s.on { ReleaseGood(s, fd, dead); } else { QuietMove(s, s); }
      case Unknown => QuietMove(s, s);
    }
  }

  lemma HangupGood(s: Sched, fd: Fd, dead: set<Fd>)
    requires SchedOk(s)
    ensures Good(s, Hangup(s, fd, dead))
  {
    DeleteGood(s, fd);
    var s1 := DeleteClient(s, fd);
    if s1.on { ScheduleAfter(s, s1, dead); }
  }

  lemma AcceptGood(s: Sched, fd: Fd)
    requires SchedOk(s) && fd !in Fds(s.clients)
    ensures Good(s, Effect(AcceptClient(s, fd), map[]))
  {
    var s1 := AcceptClient(s, fd);
    QuietMove(s, s1);
    forall i | 0 <= i < |s.clients| ensures s.clients[i].fd != fd {
      assert s.clients[i] in s.clients;
    }
    forall x | x in s.requests ensures x in RegisteredFds(s1.clients) {
      assert x in RegisteredFds(s.clients);
    }
  }

  // -------------------------------------------------------------- preservation

  lemma GoodKeepsInv(w: World, e: Event)
    requires Inv(w) && Enabled(w, e) && !e.Timeout? && !e.Wake?
    requires Good(w.s, Effect(Act(w, e).s, Act(w, e).out))
    ensures Inv(Next(w, e))
  {
  }

  lemma TimeoutLists(w: World, dead: set<Fd>)
    requires Inv(w)
    ensures ListsOk(TimerTimeout(w.s, w.t, dead).s)
  {
    if w.s.lockHeld {
      var head := w.s.requests[0];
      DeleteGood(w.s, head);
      TryScheduleLists(DeleteClient(w.s, head), dead);
    }
  }

  lemma TimeoutKeepsInv(w: World, dead: set<Fd>)
    requires Inv(w)
    ensures Inv(Next(w, Timeout(dead)))
  {
    TimeoutLists(w, dead);
    if w.s.lockHeld && !w.t.dropSent && w.t.roundAtStart == w.s.round {
      var head := w.s.requests[0];
      if head in dead {
        DeleteGood(w.s, head);
        TryScheduleMove(DeleteClient(w.s, head), dead);
        TryScheduleResult(DeleteClient(w.s, head), dead);
      } else {
        var out := map[head := DropLock(w.s.round)];
        assert Grantees(out) == {};
        assert head in ToldToDrop(out);
      }
    } else {
      assert Grantees(map[]) == {} && ToldToDrop(map[]) == {};
    }
  }

  lemma WakeKeepsInv(w: World)
    requires Inv(w)
    ensures Inv(Next(w, Wake))
  {
    assert Grantees(map[]) == {} && ToldToDrop(map[]) == {};
  }

  /** Every step of the scheduler keeps the invariant. */
  lemma NextKeepsInv(w: World, e: Event)
    requires Inv(w) && Enabled(w, e)
    ensures Inv(Next(w, e))
  {
    match e {
      case Accept(fd) => AcceptGood(w.s, fd); GoodKeepsInv(w, e);
      case Recv(fd, m, dead, draws) => ProcessMsgGood(w.s, fd, m, dead, draws); GoodKeepsInv(w, e);
      case Drop(fd, dead) => HangupGood(w.s, fd, dead); GoodKeepsInv(w, e);
      case Timeout(dead) => TimeoutKeepsInv(w, dead);
      case Wake => WakeKeepsInv(w);
    }
  }

  /** A run: `ws[i + 1]` is what `es[i]` makes of `ws[i]`. */
  ghost predicate IsRun(ws: seq<World>, es: seq<Event>) {
    && |ws| == |es| + 1
    && ws[0] == START
    && forall i :: 0 <= i < |es| ==> Enabled(ws[i], es[i]) && ws[i + 1] == Next(ws[i], es[i])
  }

  lemma {:induction false} RunKeepsInv(ws: seq<World>, es: seq<Event>, i: nat)
    requires IsRun(ws, es) && i < |ws|
    ensures Inv(ws[i])
  {
    if i == 0 {
    } else {
      RunKeepsInv(ws, es, i - 1);
      NextKeepsInv(ws[i - 1], es[i - 1]);
    }
  }

  /**
    In every state of every run: the holder is the head of the queue and the last
    client that was granted; a scheduler that is off has no queue and no holder;
    queued clients are listed, registered and queued once; no two listed clients
    share a descriptor, no two registered ones an id.
   */
  lemma SchedulerSafety(ws: seq<World>, es: seq<Event>, i: nat)
    requires IsRun(ws, es) && i < |ws|
    ensures var s := ws[i].s;
      && (s.lockHeld ==> s.requests != [] && ws[i].h.granted == {s.requests[0]})
      && (!s.on ==> s.requests == [] && !s.lockHeld)
      && Distinct(s.requests)
      && (forall fd :: fd in s.requests ==> exists c :: c in s.clients && c.fd == fd && c.id != UNREGISTERED_ID)
      && DistinctFds(s.clients)
      && DistinctIds(s.clients)
  {
    RunKeepsInv(ws, es, i);
  }
}
