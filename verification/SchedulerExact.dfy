/**
  What every event does, exactly: whom it removes, which quantum and which mode are in
  force after it, and when the timer's reset is due. Each is stated on the events and
  the state before them, not by the operations that bring it about.
 */
module SchedulerExact {
  import opened Messages
  import opened SchedulerSpec
  import opened SchedulerRuns
  import opened SchedulerInvariant
  import opened SchedulerTheorems
  import opened SchedulerTimer

  // ------------------------------------------------------------------ who is removed

  /** A scheduling attempt over queue `q` finds everybody up to and including `x` unreachable. */
  ghost predicate Passed(q: seq<Fd>, dead: set<Fd>, x: Fd) {
    exists i :: 0 <= i < |q| && q[i] == x && forall j :: 0 <= j <= i ==> q[j] in dead
  }

  /** The same when `fd` has left the queue. */
  ghost predicate PassedBeside(q: seq<Fd>, fd: Fd, dead: set<Fd>, x: Fd) {
    x != fd && exists i :: 0 <= i < |q| && q[i] == x && forall j :: 0 <= j <= i ==> q[j] == fd || q[j] in dead
  }

  /** The lock is free, or becomes free because `fd` leaves the queue. */
  predicate FreeWithout(s: Sched, fd: Fd) {
    !s.lockHeld || (s.requests != [] && s.requests[0] == fd)
  }

  /**
    The event makes the scheduler drop client `x`: it hung up, broke the rules of
    registration, or a message that this event sends it could not be delivered.
   */
  ghost predicate Removes(w: World, e: Event, x: Fd) {
    var s := w.s;
    match e
    case Accept(_) => false
    case Wake => false
    case Drop(fd, dead) => x == fd || (s.on && FreeWithout(s, fd) && PassedBeside(s.requests, fd, dead, x))
    case Timeout(dead) =>
      s.lockHeld && !w.t.dropSent && w.t.roundAtStart == s.round && Passed(s.requests, dead, x)
    case Recv(fd, m, dead, _) =>
      var registered := fd in RegisteredFds(s.clients);
      match m
      case Register => x == fd && (registered || fd in dead)
      case SchedOn => !s.on && x in RegisteredFds(s.clients) && x in dead
      case SchedOff => s.on && x in RegisteredFds(s.clients) && x in dead
      case ReqLock =>
        if !registered then x == fd
        else s.on && !s.lockHeld && Passed(if fd in s.requests then s.requests else s.requests + [fd], dead, x)
      case LockReleased(_) =>
        if !registered then x == fd
        else s.on && FreeWithout(s, fd) && PassedBeside(s.requests, fd, dead, x)
      case SetTq(_) => false
      case Unknown => false
  }

  lemma TryScheduleRemoves(s: Sched, dead: set<Fd>, x: Fd)
    requires Distinct(s.requests) && !s.lockHeld && x in Fds(s.clients)
    ensures x !in Fds(TrySchedule(s, dead).s.clients) <==> Passed(s.requests, dead, x)
  {
    TryScheduleResult(s, dead);
    var q, i := s.requests, FirstAlive(s.requests, dead);
    WithoutClientsSets(s.clients, Members(q[..i]));
    if x in q[..i] {
      var j :| 0 <= j < i && q[j] == x;
    }
    if Passed(q, dead, x) {
      var j :| 0 <= j < |q| && q[j] == x && forall k :: 0 <= k <= j ==> q[k] in dead;
      assert j < i;
      assert q[..i][j] == x;
    }
  }

  lemma PassedTail(q: seq<Fd>, dead: set<Fd>, x: Fd)
    requires q != []
    ensures Passed(q, dead, x) <==> q[0] in dead && (q[0] == x || Passed(q[1..], dead, x))
  {
    if Passed(q, dead, x) && q[0] != x {
      var i :| 0 <= i < |q| && q[i] == x && forall j :: 0 <= j <= i ==> q[j] in dead;
      assert q[1..][i - 1] == x && forall j :: 0 <= j <= i - 1 ==> q[1..][j] == q[j + 1];
    }
    if q[0] in dead && q[0] != x && Passed(q[1..], dead, x) {
      var i :| 0 <= i < |q[1..]| && q[1..][i] == x && forall j :: 0 <= j <= i ==> q[1..][j] in dead;
      assert q[i + 1] == x && forall j :: 1 <= j <= i + 1 ==> q[j] == q[1..][j - 1];
    }
  }

  lemma PassedBesideTail(q: seq<Fd>, fd: Fd, dead: set<Fd>, x: Fd)
    requires q != [] && x != fd
    ensures PassedBeside(q, fd, dead, x) <==>
      (q[0] == fd || q[0] in dead) && (q[0] == x || PassedBeside(q[1..], fd, dead, x))
  {
    if PassedBeside(q, fd, dead, x) && q[0] != x {
      var i :| 0 <= i < |q| && q[i] == x && forall j :: 0 <= j <= i ==> q[j] == fd || q[j] in dead;
      assert q[1..][i - 1] == x && forall j :: 0 <= j <= i - 1 ==> q[1..][j] == q[j + 1];
    }
    if (q[0] == fd || q[0] in dead) && q[0] != x && PassedBeside(q[1..], fd, dead, x) {
      var i :| 0 <= i < |q[1..]| && q[1..][i] == x && forall j :: 0 <= j <= i ==> q[1..][j] == fd || q[1..][j] in dead;
      assert q[i + 1] == x && forall j :: 1 <= j <= i + 1 ==> q[j] == q[1..][j - 1];
    }
  }

  /** Taking a client out of the queue first makes no other difference. */
  lemma {:induction false} PassedWithout(q: seq<Fd>, fd: Fd, dead: set<Fd>, x: Fd)
    requires x != fd
    ensures Passed(Without(q, {fd}), dead, x) <==> PassedBeside(q, fd, dead, x)
  {
    if q == [] {
    } else {
      PassedWithout(q[1..], fd, dead, x);
      PassedBesideTail(q, fd, dead, x);
      if q[0] != fd {
        PassedTail(Without(q, {fd}), dead, x);
        assert Without(q, {fd})[1..] == Without(q[1..], {fd});
      }
    }
  }

  /** Removing `fd` and scheduling if that leaves the lock free. */
  lemma ReleaseRemoves(s: Sched, fd: Fd, dead: set<Fd>, x: Fd)
    requires ListsOk(s) && x in Fds(s.clients) && x != fd
    ensures x !in Fds(ScheduleIfFree(RemoveReq(s, fd), dead).s.clients) <==>
      FreeWithout(s, fd) && PassedBeside(s.requests, fd, dead, x)
  {
    RemoveReqLists(s, fd);
    PassedWithout(s.requests, fd, dead, x);
    if !RemoveReq(s, fd).lockHeld { TryScheduleRemoves(RemoveReq(s, fd), dead, x); }
  }

  /** A client that gives the lock back is not in the queue any more, so nothing is sent to it. */
  lemma SenderStays(s: Sched, fd: Fd, dead: set<Fd>)
    requires ListsOk(s) && fd in Fds(s.clients)
    ensures fd in Fds(ScheduleIfFree(RemoveReq(s, fd), dead).s.clients)
  {
    RemoveReqLists(s, fd);
    WithoutFacts(s.requests, {fd});
    if !RemoveReq(s, fd).lockHeld {
      TryScheduleRemoves(RemoveReq(s, fd), dead, fd);
    }
  }

  lemma HangupRemoves(s: Sched, fd: Fd, dead: set<Fd>, x: Fd)
    requires SchedOk(s) && x in Fds(s.clients)
    ensures x !in Fds(Hangup(s, fd, dead).s.clients) <==>
      x == fd || (s.on && FreeWithout(s, fd) && PassedBeside(s.requests, fd, dead, x))
  {
    var s1 := DeleteClient(s, fd);
    DeleteGood(s, fd);
    WithoutClientsSets(s.clients, {fd});
    if x == fd {
      if s1.on && !s1.lockHeld { DeletedStaysOut(s1, dead, fd); }
    } else {
      PassedWithout(s.requests, fd, dead, x);
      if s1.on && !s1.lockHeld { TryScheduleRemoves(s1, dead, x); }
    }
  }

  lemma DeletedStaysOut(s: Sched, dead: set<Fd>, fd: Fd)
    requires Distinct(s.requests) && !s.lockHeld && fd !in Fds(s.clients)
    ensures fd !in Fds(TrySchedule(s, dead).s.clients)
  {
    TryScheduleResult(s, dead);
    WithoutClientsSets(s.clients, Members(s.requests[..FirstAlive(s.requests, dead)]));
  }

  lemma RegisterRemoves(s: Sched, fd: Fd, dead: set<Fd>, draws: seq<Id>, x: Fd)
    requires ListsOk(s) && fd in Fds(s.clients) && CanRegister(s, fd, draws) && x in Fds(s.clients)
    ensures x !in Fds(RegisterClient(s, fd, dead, draws).s.clients) <==>
      x == fd && (fd in RegisteredFds(s.clients) || fd in dead)
  {
    if fd in RegisteredFds(s.clients) {
      WithoutClientsSets(s.clients, {fd});
    } else {
      var cs := WithId(s.clients, fd, FirstAcceptable(s.clients, draws));
      WithIdFds(s.clients, fd, FirstAcceptable(s.clients, draws));
      WithoutClientsSets(cs, {fd});
    }
  }

  lemma RecvRemoves(w: World, e: Event, x: Fd)
    requires Inv(w) && Enabled(w, e) && e.Recv? && x in Fds(w.s.clients)
    ensures x !in Fds(Next(w, e).s.clients) <==> Removes(w, e, x)
  {
    var s, fd, dead := w.s, e.fd, e.dead;
    WithoutClientsSets(s.clients, {fd});
    WithoutClientsSets(s.clients, RegisteredFds(s.clients) * dead);
    match e.m {
      case Register => RegisterRemoves(s, fd, dead, e.draws, x);
      case ReqLock =>
        if fd in RegisteredFds(s.clients) && s.on && !s.lockHeld {
          RequestGood(s, fd, dead);
          TryScheduleRemoves(InsertReq(s, fd), dead, x);
        }
      case LockReleased(_) =>
        if fd in RegisteredFds(s.clients) && s.on {
          if x == fd { SenderStays(s, fd, dead); } else { ReleaseRemoves(s, fd, dead, x); }
        }
      case _ =>
    }
  }

  lemma TimeoutRemoves(w: World, dead: set<Fd>, x: Fd)
    requires Inv(w) && x in Fds(w.s.clients)
    ensures x !in Fds(Next(w, Timeout(dead)).s.clients) <==> Removes(w, Timeout(dead), x)
  {
    var s := w.s;
    if s.lockHeld && !w.t.dropSent && w.t.roundAtStart == s.round {
      var head := s.requests[0];
      PassedTail(s.requests, dead, x);
      if head in dead {
        var s1 := DeleteClient(s, head);
        DeleteGood(s, head);
        WithoutHead(s.requests);
        WithoutClientsSets(s.clients, {head});
        if x == head { DeletedStaysOut(s1, dead, head); } else { TryScheduleRemoves(s1, dead, x); }
      }
    }
  }

  /** For every event: a listed client is gone afterwards if and only if the event removes it. */
  lemma RemovedExactly(w: World, e: Event, x: Fd)
    requires Inv(w) && Enabled(w, e) && x in Fds(w.s.clients)
    ensures x !in Fds(Next(w, e).s.clients) <==> Removes(w, e, x)
  {
    match e {
      case Accept(fd) => AcceptKeeps(w.s, fd, x);
      case Recv(_, _, _, _) => RecvRemoves(w, e, x);
      case Drop(fd, dead) => HangupRemoves(w.s, fd, dead, x);
      case Timeout(dead) => TimeoutRemoves(w, dead, x);
      case Wake =>
    }
  }

  lemma AcceptKeeps(s: Sched, fd: Fd, x: Fd)
    requires x in Fds(s.clients)
    ensures x in Fds(AcceptClient(s, fd).clients)
  {
    var c :| c in s.clients && c.fd == x;
    assert c in AcceptClient(s, fd).clients;
  }

  // ------------------------------------------------------------- quantum, mode, reset

  /** The quantum in seconds after the first `i` events: the last one that was set, 30 if none was. */
  function QuantumAfter(es: seq<Event>, i: nat): int
    requires i <= |es|
  {
    if i == 0 then 30
    else match es[i - 1]
      case Recv(_, SetTq(Some(v)), _, _) => v
      case _ => QuantumAfter(es, i - 1)
  }

  /** Whether scheduling is on after the first `i` events: as the last message about it said, on if none did. */
  function ModeAfter(es: seq<Event>, i: nat): bool
    requires i <= |es|
  {
    if i == 0 then true
    else match es[i - 1]
      case Recv(_, SchedOn, _, _) => true
      case Recv(_, SchedOff, _, _) => false
      case _ => ModeAfter(es, i - 1)
  }

  lemma {:induction false} TryScheduleSettings(s: Sched, dead: set<Fd>)
    ensures TrySchedule(s, dead).s.tq == s.tq && TrySchedule(s, dead).s.on == s.on
    decreases |s.requests|
  {
    if s.requests == [] {
    } else if s.requests[0] in dead {
      WithoutShortens(s.requests, s.requests[0]);
      TryScheduleSettings(DeleteClient(s, s.requests[0]), dead);
    }
  }

  lemma MessageSettings(s: Sched, fd: Fd, m: ToScheduler, dead: set<Fd>, draws: seq<Id>)
    requires m.Register? ==> CanRegister(s, fd, draws)
    ensures var r := ProcessMsg(s, fd, m, dead, draws).s;
      && r.tq == (if m.SetTq? && m.parsed.Some? then m.parsed.value else s.tq)
      && r.on == (if m.SchedOn? then true else if m.SchedOff? then false else s.on)
  {
    if m.ReqLock? {
      TryScheduleSettings(InsertReq(s, fd), dead);
    } else if m.LockReleased? {
      TryScheduleSettings(RemoveReq(s, fd), dead);
    }
  }

  lemma SettingsStep(w: World, e: Event)
    requires Enabled(w, e)
    ensures Next(w, e).s.tq == if e.Recv? && e.m.SetTq? && e.m.parsed.Some? then e.m.parsed.value else w.s.tq
    ensures Next(w, e).s.on ==
      if e.Recv? && e.m.SchedOn? then true else if e.Recv? && e.m.SchedOff? then false else w.s.on
  {
    match e {
      case Accept(_) =>
      case Recv(fd, m, dead, draws) => MessageSettings(w.s, fd, m, dead, draws);
      case Drop(fd, dead) => TryScheduleSettings(DeleteClient(w.s, fd), dead);
      case Timeout(dead) =>
        if w.s.lockHeld { TryScheduleSettings(DeleteClient(w.s, w.s.requests[0]), dead); }
      case Wake =>
    }
  }

  /** In every state of every run the quantum and the mode are those that the messages so far asked for. */
  lemma {:induction false} SettingsFollow(ws: seq<World>, es: seq<Event>, i: nat)
    requires IsRun(ws, es) && i < |ws|
    ensures ws[i].s.tq == QuantumAfter(es, i) && ws[i].s.on == ModeAfter(es, i)
  {
    if i == 0 {
    } else {
      SettingsFollow(ws, es, i - 1);
      assert ws[i] == Next(ws[i - 1], es[i - 1]);
      SettingsStep(ws[i - 1], es[i - 1]);
    }
  }

  /** Outside the timer thread a reset becomes due exactly by a grant or by a new quantum, and stays due. */
  lemma ResetExactly(w: World, e: Event)
    requires Inv(w) && Enabled(w, e) && !e.Timeout? && !e.Wake?
    ensures Next(w, e).s.mustReset <==> w.s.mustReset || Served(w, e) != {} || SetsTq(e)
  {
    match e {
      case Accept(fd) => AcceptGood(w.s, fd);
      case Recv(fd, m, dead, draws) => MessageResets(w.s, fd, m, dead, draws);
      case Drop(fd, dead) =>
        HangupGood(w.s, fd, dead);
        ScheduleResets(DeleteClient(w.s, fd), dead);
    }
  }

  lemma MessageResets(s: Sched, fd: Fd, m: ToScheduler, dead: set<Fd>, draws: seq<Id>)
    requires m.Register? ==> CanRegister(s, fd, draws)
    ensures var r := ProcessMsg(s, fd, m, dead, draws);
      r.s.mustReset <==> s.mustReset || Grantees(r.out) != {} || (m.SetTq? && m.parsed.Some?)
  {
    assert Grantees(map[]) == {};
    match m {
      case ReqLock => ScheduleResets(InsertReq(s, fd), dead);
      case LockReleased(_) => ScheduleResets(RemoveReq(s, fd), dead);
      case _ => assert Grantees(ProcessMsg(s, fd, m, dead, draws).out) == {};
    }
  }

  lemma {:induction false} ScheduleResets(s: Sched, dead: set<Fd>)
    ensures var r := TrySchedule(s, dead); r.s.mustReset <==> s.mustReset || Grantees(r.out) != {}
    decreases |s.requests|
  {
    if s.requests == [] {
      assert Grantees(map[]) == {};
    } else if s.requests[0] in dead {
      WithoutShortens(s.requests, s.requests[0]);
      ScheduleResets(DeleteClient(s, s.requests[0]), dead);
    } else {
      assert s.requests[0] in Grantees(TrySchedule(s, dead).out);
    }
  }

  /** A wake-up begins a new interval exactly when a reset is due; a timeout always does. Then none is due. */
  lemma IntervalsExactly(w: World, dead: set<Fd>)
    requires Inv(w)
    ensures var w' := Next(w, Wake);
      && w'.s == w.s.(mustReset := false)
      && w'.t == if w.s.mustReset then Timer(w.s.round, false) else w.t
    ensures var w' := Next(w, Timeout(dead)); !w'.s.mustReset && w'.t.roundAtStart == w'.s.round
  {
  }

  /** REGISTER takes the first number drawn that is neither reserved nor in use. */
  lemma {:induction false} FirstDrawIsTaken(clients: seq<Listed>, draws: seq<Id>) returns (i: nat)
    requires exists d :: d in draws && Acceptable(clients, d)
    ensures i < |draws| && FirstAcceptable(clients, draws) == draws[i]
    ensures forall j :: 0 <= j < i ==> draws[j] == 0xF00D_F00D_F00D_F00D || exists c :: c in clients && c.id == draws[j]
  {
    if Acceptable(clients, draws[0]) {
      i := 0;
    } else {
      assert exists d :: d in draws[1..] && Acceptable(clients, d);
      i := FirstDrawIsTaken(clients, draws[1..]);
      i := i + 1;
    }
  }
}
