/**
  One scheduler step as a single connection sees it: how its own standing changes
  and which one message, if any, it is sent. The protocol proofs use nothing else
  about the scheduler.
 */
module SchedulerViews {
  import opened Messages
  import opened SchedulerSpec
  import opened SchedulerRuns
  import opened SchedulerInvariant
  import opened SchedulerTheorems

  /** The scheduler's standing towards one connection. */
  datatype Env = Env(
    on: bool,
    round: nat,
    epoch: nat,
    ons: nat,
    registered: bool,
    queued: bool,
    holder: bool)

  function View(w: World, fd: Fd): Env {
    Env(w.s.on, w.s.round, w.h.epoch, w.h.ons,
        fd in RegisteredFds(w.s.clients), fd in w.s.requests, Holds(w.s, fd))
  }

  predicate TurnedOff(v: Env, v': Env, input: Option<ToScheduler>, out: Option<ToClient>) {
    && (input.None? || input.value.SchedOff?)
    && v.on && !v'.on
    && v'.epoch == v'.round == v.round && v'.ons == v.ons
    && v'.registered == v.registered && !v'.queued && !v'.holder
    && out == if v.registered then Some(StatusOff) else None
  }

  predicate TurnedOn(v: Env, v': Env, input: Option<ToScheduler>, out: Option<ToClient>) {
    && (input.None? || input.value.SchedOn?)
    && !v.on && !v.queued && !v.holder
    && v' == v.(on := true, ons := v.ons + 1)
    && out == if v.registered then Some(StatusOn) else None
  }

  predicate Joined(v: Env, v': Env, input: Option<ToScheduler>, out: Option<ToClient>) {
    && input == Some(Register)
    && !v.registered && !v.queued && !v.holder
    && v' == v.(registered := true)
    && out == Some(Status(v.on))
  }

  /** Nothing about the mode or the registration changes. */
  predicate Ordinary(v: Env, v': Env, input: Option<ToScheduler>, out: Option<ToClient>) {
    var heard := v.on && v.registered && input.Some?;
    var released := heard && input.value.LockReleased?;
    && (input.Some? ==> !input.value.Register?)
    && v'.on == v.on && v'.epoch == v.epoch && v'.ons == v.ons && v'.registered == v.registered
    && v.round <= v'.round
    && v'.queued == (if released then false else v.queued || (heard && input.value.ReqLock?))
    && match out
       case None => v'.holder == (v.holder && !released) && (v'.holder ==> v'.round == v.round)
       case Some(LockOk(r)) => r == v'.round == v.round + 1 && v.on && v'.queued && v'.holder && !v.holder
       case Some(DropLock(r)) => r == v.round == v'.round && v.holder && v'.holder && input.None?
       case Some(_) => false
  }

  predicate Seen(v: Env, v': Env, input: Option<ToScheduler>, out: Option<ToClient>) {
    || TurnedOff(v, v', input, out)
    || TurnedOn(v, v', input, out)
    || Joined(v, v', input, out)
    || Ordinary(v, v', input, out)
  }

  predicate ViewOk(v: Env) {
    && (v.holder ==> v.queued && v.epoch < v.round)
    && (v.queued ==> v.registered && v.on)
    && v.epoch <= v.round
    && (v.ons == 0 && v.on ==> v.epoch == 0)
  }

  lemma InvGivesViewOk(w: World, fd: Fd)
    requires Inv(w)
    ensures ViewOk(View(w, fd))
  {
  }

  function Input(e: Event, fd: Fd): Option<ToScheduler> {
    if e.Recv? && e.fd == fd then Some(e.m) else None
  }

  function Sent(out: Out, fd: Fd): Option<ToClient> {
    if fd in out then Some(out[fd]) else None
  }

  // -------------------------------------------------- operation by operation

  /** A client that survives `try_schedule` stays registered and queued, or stays not. */
  lemma TryScheduleSpares(s: Sched, dead: set<Fd>, x: Fd)
    requires ListsOk(s) && !s.lockHeld && x in Fds(TrySchedule(s, dead).s.clients)
    ensures var e := TrySchedule(s, dead);
      && (x in RegisteredFds(e.s.clients) <==> x in RegisteredFds(s.clients))
      && (x in e.s.requests <==> x in s.requests)
  {
    TryScheduleResult(s, dead);
    var i := FirstAlive(s.requests, dead);
    WithoutClientsSets(s.clients, Members(s.requests[..i]));
    assert x !in s.requests[..i];
    assert s.requests == s.requests[..i] + s.requests[i..];
  }

  /** What `try_schedule` means to a client that survives it. */
  lemma TryScheduleSeen(s: Sched, dead: set<Fd>, x: Fd)
    requires ListsOk(s) && !s.lockHeld && x in Fds(TrySchedule(s, dead).s.clients)
    ensures var e := TrySchedule(s, dead);
      && (x in RegisteredFds(e.s.clients) <==> x in RegisteredFds(s.clients))
      && (x in e.s.requests <==> x in s.requests)
      && e.s.on == s.on
      && if x in e.out then e.out[x] == LockOk(e.s.round) && e.s.round == s.round + 1 && Holds(e.s, x)
         else s.round <= e.s.round && !Holds(e.s, x)
  {
    TryScheduleSpares(s, dead, x);
    TryScheduleResult(s, dead);
  }

  lemma ScheduleSeen(s: Sched, dead: set<Fd>, x: Fd)
    requires ListsOk(s) && (s.lockHeld ==> s.requests != []) && x in Fds(ScheduleIfFree(s, dead).s.clients)
    ensures var e := ScheduleIfFree(s, dead);
      && (x in RegisteredFds(e.s.clients) <==> x in RegisteredFds(s.clients))
      && (x in e.s.requests <==> x in s.requests)
      && e.s.on == s.on
      && s.round <= e.s.round
      && if x in e.out then e.out[x] == LockOk(e.s.round) && e.s.round == s.round + 1 && Holds(e.s, x) && !Holds(s, x)
         else Holds(e.s, x) == Holds(s, x) && (Holds(s, x) ==> e.s.round == s.round)
  {
    if !s.lockHeld { TryScheduleSeen(s, dead, x); }
  }

  lemma RequestSeen(w: World, e: Event, x: Fd)
    requires Inv(w) && Enabled(w, e) && e.Recv? && e.m.ReqLock?
    requires x in Fds(w.s.clients) && x in Fds(Act(w, e).s.clients)
    ensures Ordinary(View(w, x), View(Next(w, e), x), Input(e, x), Sent(Act(w, e).out, x))
  {
    var s := w.s;
    if e.fd !in RegisteredFds(s.clients) {
      DeleteSeen(w, e, x);
    } else if s.on {
      RequestGood(s, e.fd, e.dead);
      var s1 := InsertReq(s, e.fd);
      assert Holds(s1, x) == Holds(s, x);
      assert x in s1.requests <==> x in s.requests || x == e.fd;
      ScheduleSeen(s1, e.dead, x);
      assert x in Act(w, e).out ==> x in s1.requests;
    }
  }

  /** The client named by the event is deleted; others notice nothing. */
  lemma DeleteSeen(w: World, e: Event, x: Fd)
    requires Inv(w) && Enabled(w, e) && e.Recv?
    requires Act(w, e).s == DeleteClient(w.s, e.fd) && Act(w, e).out == map[]
    requires x in Fds(Act(w, e).s.clients)
    ensures Ordinary(View(w, x), View(Next(w, e), x), Input(e, x), None)
  {
    WithoutClientsSets(w.s.clients, {e.fd});
    WithoutFacts(w.s.requests, {e.fd});
  }

  lemma ReleaseSeen(w: World, e: Event, x: Fd)
    requires Inv(w) && Enabled(w, e) && e.Recv? && e.m.LockReleased?
    requires x in Fds(w.s.clients) && x in Fds(Act(w, e).s.clients)
    ensures Ordinary(View(w, x), View(Next(w, e), x), Input(e, x), Sent(Act(w, e).out, x))
  {
    var s := w.s;
    if e.fd !in RegisteredFds(s.clients) {
      DeleteSeen(w, e, x);
    } else if s.on {
      RemoveReqLists(s, e.fd);
      var s1 := RemoveReq(s, e.fd);
      WithoutFacts(s.requests, {e.fd});
      assert Holds(s1, x) == (Holds(s, x) && x != e.fd);
      ScheduleSeen(s1, e.dead, x);
    }
  }

  /** A first REGISTER whose status message cannot be delivered. */
  lemma RegisterFailedSeen(w: World, e: Event, x: Fd)
    requires Inv(w) && Enabled(w, e) && e.Recv? && e.m.Register?
    requires e.fd !in RegisteredFds(w.s.clients) && e.fd in e.dead && x in Fds(Act(w, e).s.clients)
    ensures Ordinary(View(w, x), View(Next(w, e), x), Input(e, x), None) && Act(w, e).out == map[]
  {
    var s := w.s;
    var id := FirstAcceptable(s.clients, e.draws);
    var cs := WithId(s.clients, e.fd, id);
    WithIdFds(s.clients, e.fd, id);
    WithIdRegistered(s.clients, e.fd, id);
    WithoutClientsSets(cs, {e.fd});
    assert x in RegisteredFds(WithoutClients(cs, {e.fd})) <==> x in RegisteredFds(s.clients);
    assert e.fd !in s.requests;
    WithoutAbsent(s.requests, {e.fd});
  }

  lemma RegisterDoneSeen(w: World, e: Event, x: Fd)
    requires Inv(w) && Enabled(w, e) && e.Recv? && e.m.Register?
    requires e.fd !in RegisteredFds(w.s.clients) && e.fd !in e.dead
    ensures Seen(View(w, x), View(Next(w, e), x), Input(e, x), Sent(Act(w, e).out, x))
  {
    var s := w.s;
    var id := FirstAcceptable(s.clients, e.draws);
    WithIdRegistered(s.clients, e.fd, id);
    assert Act(w, e).s == s.(clients := WithId(s.clients, e.fd, id));
    assert e.fd !in s.requests;
  }

  lemma RegisterSeen(w: World, e: Event, x: Fd)
    requires Inv(w) && Enabled(w, e) && e.Recv? && e.m.Register?
    requires x in Fds(w.s.clients) && x in Fds(Act(w, e).s.clients)
    ensures Seen(View(w, x), View(Next(w, e), x), Input(e, x), Sent(Act(w, e).out, x))
  {
    if e.fd in RegisteredFds(w.s.clients) {
      DeleteSeen(w, e, x);
    } else if e.fd in e.dead {
      RegisterFailedSeen(w, e, x);
    } else {
      RegisterDoneSeen(w, e, x);
    }
  }

  lemma ModeSeen(w: World, e: Event, x: Fd)
    requires Inv(w) && Enabled(w, e) && e.Recv? && (e.m.SchedOn? || e.m.SchedOff?)
    requires x in Fds(w.s.clients) && x in Fds(Act(w, e).s.clients)
    ensures Seen(View(w, x), View(Next(w, e), x), Input(e, x), Sent(Act(w, e).out, x))
  {
    var s := w.s;
    var gone := RegisteredFds(s.clients) * e.dead;
    WithoutClientsSets(s.clients, gone);
    WithoutFacts(s.requests, gone);
  }

  lemma RecvSeen(w: World, e: Event, x: Fd)
    requires Inv(w) && Enabled(w, e) && e.Recv?
    requires x in Fds(w.s.clients) && x in Fds(Act(w, e).s.clients)
    ensures Seen(View(w, x), View(Next(w, e), x), Input(e, x), Sent(Act(w, e).out, x))
  {
    match e.m {
      case Register => RegisterSeen(w, e, x);
      case SchedOn => ModeSeen(w, e, x);
      case SchedOff => ModeSeen(w, e, x);
      case SetTq(_) =>
      case ReqLock => RequestSeen(w, e, x);
      case LockReleased(_) => ReleaseSeen(w, e, x);
      case Unknown =>
    }
  }

  lemma HangupSeen(w: World, e: Event, x: Fd)
    requires Inv(w) && Enabled(w, e) && e.Drop?
    requires x in Fds(w.s.clients) && x in Fds(Act(w, e).s.clients)
    ensures Ordinary(View(w, x), View(Next(w, e), x), None, Sent(Act(w, e).out, x))
  {
    var s1 := DeleteClient(w.s, e.fd);
    DeleteGood(w.s, e.fd);
    WithoutFacts(w.s.requests, {e.fd});
    WithoutClientsSets(w.s.clients, {e.fd});
    if s1.on {
      ScheduleKeepsOut(s1, e.dead, x);
      ScheduleSeen(s1, e.dead, x);
      assert Holds(s1, x) == Holds(w.s, x);
    }
  }

  /** A client deleted before scheduling is still deleted after it. */
  lemma ScheduleKeepsOut(s: Sched, dead: set<Fd>, x: Fd)
    requires Distinct(s.requests) && x in Fds(ScheduleIfFree(s, dead).s.clients)
    ensures x in Fds(s.clients)
  {
    if !s.lockHeld {
      TryScheduleResult(s, dead);
      WithoutClientsSets(s.clients, Members(s.requests[..FirstAlive(s.requests, dead)]));
    }
  }

  lemma TimeoutSeen(w: World, e: Event, x: Fd)
    requires Inv(w) && e.Timeout?
    requires x in Fds(w.s.clients) && x in Fds(Act(w, e).s.clients)
    ensures Ordinary(View(w, x), View(Next(w, e), x), None, Sent(Act(w, e).out, x))
  {
    if w.s.lockHeld && !w.t.dropSent && w.t.roundAtStart == w.s.round {
      var head := w.s.requests[0];
      if head in e.dead {
        var s1 := DeleteClient(w.s, head);
        DeleteGood(w.s, head);
        WithoutFacts(w.s.requests, {head});
        WithoutClientsSets(w.s.clients, {head});
        ScheduleKeepsOut(s1, e.dead, x);
        TryScheduleSeen(s1, e.dead, x);
      }
    }
  }

  /** Every scheduler step, seen by a client that is listed before and after it. */
  lemma NextSeen(w: World, e: Event, x: Fd)
    requires Inv(w) && Enabled(w, e)
    requires x in Fds(w.s.clients) && x in Fds(Next(w, e).s.clients)
    ensures Seen(View(w, x), View(Next(w, e), x), Input(e, x), Sent(Act(w, e).out, x))
  {
    match e {
      case Accept(fd) => AcceptSeen(w, e, x);
      case Recv(_, _, _, _) => RecvSeen(w, e, x);
      case Drop(_, _) => HangupSeen(w, e, x);
      case Timeout(_) => TimeoutSeen(w, e, x);
      case Wake =>
    }
  }

  lemma AcceptSeen(w: World, e: Event, x: Fd)
    requires Inv(w) && Enabled(w, e) && e.Accept? && x in Fds(w.s.clients)
    ensures Ordinary(View(w, x), View(Next(w, e), x), None, None)
  {
    var cs := w.s.clients;
    var cs' := Next(w, e).s.clients;
    forall c | c in cs' ensures c in cs || c == Listed(e.fd, UNREGISTERED_ID) {
    }
    assert x in RegisteredFds(cs') <==> x in RegisteredFds(cs);
  }

  /** A connection just accepted is unknown to everybody. */
  lemma AcceptNewcomer(w: World, fd: Fd)
    requires Inv(w) && Enabled(w, Accept(fd))
    ensures Fds(Next(w, Accept(fd)).s.clients) == Fds(w.s.clients) + {fd}
    ensures var v := View(Next(w, Accept(fd)), fd); !v.registered && !v.queued && !v.holder
  {
    var cs, cs' := w.s.clients, Next(w, Accept(fd)).s.clients;
    forall c ensures c in cs' <==> c in cs || c == Listed(fd, UNREGISTERED_ID) {
    }
    assert fd !in RegisteredFds(cs);
  }

  lemma {:induction false} ListedShrinks(w: World, e: Event)
    requires Inv(w) && Enabled(w, e) && !e.Accept?
    ensures Fds(Next(w, e).s.clients) <= Fds(w.s.clients)
  {
    forall x | x in Fds(Next(w, e).s.clients) ensures x in Fds(w.s.clients) {
      match e {
        case Recv(fd, m, dead, draws) => RecvListed(w.s, fd, m, dead, draws, x);
        case Drop(fd, dead) =>
          DeleteGood(w.s, fd);
          WithoutClientsSets(w.s.clients, {fd});
          if DeleteClient(w.s, fd).on { ScheduleKeepsOut(DeleteClient(w.s, fd), dead, x); }
        case Timeout(dead) =>
          if w.s.lockHeld {
            var head := w.s.requests[0];
            DeleteGood(w.s, head);
            WithoutClientsSets(w.s.clients, {head});
            if !w.t.dropSent && w.t.roundAtStart == w.s.round && head in dead {
              ScheduleKeepsOut(DeleteClient(w.s, head), dead, x);
            }
          }
        case Wake =>
      }
    }
  }

  lemma RegisterListed(s: Sched, fd: Fd, dead: set<Fd>, draws: seq<Id>, x: Fd)
    requires CanRegister(s, fd, draws) && x in Fds(RegisterClient(s, fd, dead, draws).s.clients)
    ensures x in Fds(s.clients)
  {
    if fd in RegisteredFds(s.clients) {
      WithoutClientsSets(s.clients, {fd});
    } else {
      var id := FirstAcceptable(s.clients, draws);
      WithIdFds(s.clients, fd, id);
      WithoutClientsSets(WithId(s.clients, fd, id), {fd});
    }
  }

  lemma RecvListed(s: Sched, fd: Fd, m: ToScheduler, dead: set<Fd>, draws: seq<Id>, x: Fd)
    requires SchedOk(s) && fd in Fds(s.clients) && (m.Register? ==> CanRegister(s, fd, draws))
    requires x in Fds(ProcessMsg(s, fd, m, dead, draws).s.clients)
    ensures x in Fds(s.clients)
  {
    if m.Register? {
      RegisterListed(s, fd, dead, draws, x);
    } else if m.SchedOn? || m.SchedOff? {
      WithoutClientsSets(s.clients, RegisteredFds(s.clients) * dead);
    } else if (m.ReqLock? || m.LockReleased?) && fd !in RegisteredFds(s.clients) {
      WithoutClientsSets(s.clients, {fd});
    } else if m.ReqLock? && s.on {
      RequestGood(s, fd, dead);
      ScheduleKeepsOut(InsertReq(s, fd), dead, x);
    } else if m.LockReleased? && s.on {
      RemoveReqLists(s, fd);
      ScheduleKeepsOut(RemoveReq(s, fd), dead, x);
    }
  }
}
