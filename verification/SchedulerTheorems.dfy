/** Work conservation and first-come-first-served order, over whole runs. */
module SchedulerTheorems {
  import opened Messages
  import opened SchedulerSpec
  import opened SchedulerRuns
  import opened SchedulerInvariant

  // -------------------------------------------------------- work conservation

  /** Nobody waits for a free lock. */
  predicate Busy(s: Sched) {
    s.on && s.requests != [] ==> s.lockHeld
  }

  /**
    The one event that strands a queue: the holder, with others waiting, sends
    REGISTER a second time. It is deleted, and nothing is scheduled.
   */
  predicate Strands(w: World, e: Event) {
    && e.Recv? && e.m.Register?
    && e.fd in RegisteredFds(w.s.clients)
    && IsHead(w.s, e.fd) && |w.s.requests| > 1
  }

  lemma TryScheduleBusy(s: Sched, dead: set<Fd>)
    requires Distinct(s.requests) && !s.lockHeld
    ensures Busy(TrySchedule(s, dead).s)
  {
    TryScheduleResult(s, dead);
  }

  lemma DeleteBusy(s: Sched, fd: Fd)
    requires ListsOk(s) && Busy(s) && (s.lockHeld ==> s.requests != []) && (!s.on ==> s.requests == [])
    ensures Busy(DeleteClient(s, fd)) <==> !(IsHead(s, fd) && |s.requests| > 1)
  {
    WithoutFacts(s.requests, {fd});
    if IsHead(s, fd) { WithoutHead(s.requests); }
  }

  lemma RecvBusy(w: World, fd: Fd, m: ToScheduler, dead: set<Fd>, draws: seq<Id>)
    requires Inv(w) && Busy(w.s) && Enabled(w, Recv(fd, m, dead, draws)) && !m.Register?
    ensures Busy(ProcessMsg(w.s, fd, m, dead, draws).s)
  {
    var s := w.s;
    if (m.ReqLock? || m.LockReleased?) && fd !in RegisteredFds(s.clients) {
      DeleteBusy(s, fd);
    } else if m.ReqLock? && s.on {
      RequestGood(s, fd, dead);
      if !s.lockHeld { TryScheduleBusy(InsertReq(s, fd), dead); }
    } else if m.LockReleased? && s.on {
      RemoveReqLists(s, fd);
      if !RemoveReq(s, fd).lockHeld { TryScheduleBusy(RemoveReq(s, fd), dead); }
    }
  }

  lemma RegisterBusy(w: World, fd: Fd, dead: set<Fd>, draws: seq<Id>)
    requires Inv(w) && Busy(w.s) && Enabled(w, Recv(fd, Register, dead, draws))
    ensures Busy(RegisterClient(w.s, fd, dead, draws).s) <==>
      !Strands(w, Recv(fd, Register, dead, draws))
  {
    var s := w.s;
    if fd in RegisteredFds(s.clients) {
      DeleteBusy(s, fd);
    } else {
      var s1 := s.(clients := WithId(s.clients, fd, FirstAcceptable(s.clients, draws)));
      assert fd !in s.requests;
      WithoutFacts(s.requests, {fd});
    }
  }

  lemma OtherBusy(w: World, e: Event)
    requires Inv(w) && Busy(w.s) && Enabled(w, e) && !e.Recv?
    ensures Busy(Next(w, e).s)
  {
    match e {
      case Drop(fd, dead) =>
        DeleteGood(w.s, fd);
        if !DeleteClient(w.s, fd).lockHeld { TryScheduleBusy(DeleteClient(w.s, fd), dead); }
      case Timeout(dead) =>
        if w.s.lockHeld {
          DeleteGood(w.s, w.s.requests[0]);
          TryScheduleBusy(DeleteClient(w.s, w.s.requests[0]), dead);
        }
      case Accept(_) =>
      case Wake =>
    }
  }

  /** A step keeps the scheduler busy exactly when it does not strand the queue. */
  lemma WorkConservingStep(w: World, e: Event)
    requires Inv(w) && Busy(w.s) && Enabled(w, e)
    ensures Busy(Next(w, e).s) <==> !Strands(w, e)
  {
    if e.Recv? {
      if e.m.Register? {
        RegisterBusy(w, e.fd, e.dead, e.draws);
      } else {
        RecvBusy(w, e.fd, e.m, e.dead, e.draws);
      }
    } else {
      OtherBusy(w, e);
    }
  }

  /**
    Up to the first stranding event, if any, no request ever waits for a free
    lock; right after it, one does.
   */
  lemma {:induction false} WorkConservation(ws: seq<World>, es: seq<Event>, i: nat)
    requires IsRun(ws, es) && i < |ws|
    requires forall k :: 0 <= k < i - 1 ==> !Strands(ws[k], es[k])
    ensures Busy(ws[i].s) <==> i == 0 || !Strands(ws[i - 1], es[i - 1])
  {
    if i == 0 {
    } else {
      WorkConservation(ws, es, i - 1);
      RunKeepsInv(ws, es, i - 1);
      WorkConservingStep(ws[i - 1], es[i - 1]);
    }
  }

  /** What puts a free lock with a queue back to work, or the queue out of the way. */
  predicate Rescues(w: World, e: Event) {
    match e
    case Recv(fd, m, _, _) =>
      || m.SchedOff?
      || (fd in RegisteredFds(w.s.clients) && (m.ReqLock? || m.LockReleased?))
      || (fd in RegisteredFds(w.s.clients) && m.Register? && w.s.requests == [fd])
    case Drop(_, _) => true
    case _ => false
  }

  lemma DeleteStranded(s: Sched, fd: Fd)
    requires Distinct(s.requests) && !Busy(s)
    ensures Busy(DeleteClient(s, fd)) <==> s.requests == [fd]
  {
    WithoutFacts(s.requests, {fd});
    if s.requests == [fd] {
    } else if IsHead(s, fd) {
      WithoutHead(s.requests);
    } else {
      assert s.requests[0] in Without(s.requests, {fd});
    }
  }

  lemma RecvStranded(w: World, fd: Fd, m: ToScheduler, dead: set<Fd>, draws: seq<Id>)
    requires Inv(w) && !Busy(w.s) && Enabled(w, Recv(fd, m, dead, draws))
    ensures Busy(ProcessMsg(w.s, fd, m, dead, draws).s) <==> Rescues(w, Recv(fd, m, dead, draws))
  {
    var s := w.s;
    if fd !in RegisteredFds(s.clients) {
      DeleteStranded(s, fd);
      assert fd !in s.requests;
      WithoutFacts(s.requests, {fd});
    } else if m.Register? {
      DeleteStranded(s, fd);
    } else if m.ReqLock? {
      RequestGood(s, fd, dead);
      TryScheduleBusy(InsertReq(s, fd), dead);
    } else if m.LockReleased? {
      RemoveReqLists(s, fd);
      TryScheduleBusy(RemoveReq(s, fd), dead);
    }
  }

  /** A step gets a stranded queue going exactly when it is one of these. */
  lemma StrandedStep(w: World, e: Event)
    requires Inv(w) && !Busy(w.s) && Enabled(w, e)
    ensures Busy(Next(w, e).s) <==> Rescues(w, e)
  {
    match e {
      case Recv(fd, m, dead, draws) => RecvStranded(w, fd, m, dead, draws);
      case Drop(fd, dead) =>
        DeleteGood(w.s, fd);
        TryScheduleBusy(DeleteClient(w.s, fd), dead);
      case _ =>
    }
  }

  /** Event `k` stranded the queue, and nothing has rescued it before state `i`. */
  ghost predicate StrandedSince(ws: seq<World>, es: seq<Event>, k: nat, i: nat)
    requires IsRun(ws, es) && i < |ws|
  {
    k < i && Strands(ws[k], es[k]) && forall j :: k < j < i ==> !Rescues(ws[j], es[j])
  }

  ghost predicate Stranded(ws: seq<World>, es: seq<Event>, i: nat)
    requires IsRun(ws, es) && i < |ws|
  {
    exists k :: StrandedSince(ws, es, k, i)
  }

  /**
    For every state of every run: a request waits for a free lock exactly when some
    event stranded the queue and none has rescued it since.
   */
  lemma {:induction false} StrandedExactly(ws: seq<World>, es: seq<Event>, i: nat)
    requires IsRun(ws, es) && i < |ws|
    ensures !Busy(ws[i].s) <==> Stranded(ws, es, i)
  {
    if i == 0 {
    } else {
      var w, e := ws[i - 1], es[i - 1];
      StrandedExactly(ws, es, i - 1);
      assert Busy(ws[i].s) <==> if Busy(w.s) then !Strands(w, e) else Rescues(w, e) by {
        RunKeepsInv(ws, es, i - 1);
        assert ws[i] == Next(w, e);
        if Busy(w.s) { WorkConservingStep(w, e); } else { StrandedStep(w, e); }
      }
      if Busy(w.s) { NotSince(ws, es, i); } else { Since(ws, es, i); }
    }
  }

  /** A state that was not stranded can only be stranded by the last event. */
  lemma NotSince(ws: seq<World>, es: seq<Event>, i: nat)
    requires IsRun(ws, es) && 0 < i < |ws|
    requires !Stranded(ws, es, i - 1)
    ensures Stranded(ws, es, i) <==> Strands(ws[i - 1], es[i - 1])
  {
    if Strands(ws[i - 1], es[i - 1]) {
      assert StrandedSince(ws, es, i - 1, i);
    }
    forall k | StrandedSince(ws, es, k, i) ensures k == i - 1 {
      assert k == i - 1 || StrandedSince(ws, es, k, i - 1);
    }
  }

  /** A stranded state stays so unless the last event rescued it. */
  lemma Since(ws: seq<World>, es: seq<Event>, i: nat)
    requires IsRun(ws, es) && 0 < i < |ws|
    requires Stranded(ws, es, i - 1)
    ensures Stranded(ws, es, i) <==> !Rescues(ws[i - 1], es[i - 1])
  {
    if Rescues(ws[i - 1], es[i - 1]) {
      forall k | StrandedSince(ws, es, k, i) ensures k == i - 1 {
      }
    } else {
      var k :| StrandedSince(ws, es, k, i - 1);
      assert StrandedSince(ws, es, k, i);
    }
  }

  // ------------------------------------------------- first come, first served

  function IndexOf(q: seq<Fd>, fd: Fd): (i: nat)
    requires fd in q
    ensures i < |q| && q[i] == fd && fd !in q[..i]
  {
    if q[0] == fd then 0 else 1 + IndexOf(q[1..], fd)
  }

  /** The clients queued ahead of `fd`. */
  function Ahead(q: seq<Fd>, fd: Fd): set<Fd>
    requires fd in q
  {
    Members(q[..IndexOf(q, fd)])
  }

  predicate Holds(s: Sched, fd: Fd) {
    s.lockHeld && IsHead(s, fd)
  }

  /** How many clients still have to be granted before `fd` is. */
  function Rank(s: Sched, fd: Fd): int
    requires fd in s.requests
  {
    IndexOf(s.requests, fd) - (if s.lockHeld then 1 else 0)
  }

  /** `fd` waits in both states; `grants` others were served in between. */
  predicate Advances(s: Sched, s': Sched, fd: Fd, grants: int) {
    && fd in s.requests && fd in s'.requests
    && Rank(s', fd) + grants <= Rank(s, fd)
    && Ahead(s'.requests, fd) <= Ahead(s.requests, fd)
  }

  lemma {:induction false} WithoutIndex(q: seq<Fd>, gone: set<Fd>, fd: Fd)
    requires fd in q && fd !in gone
    ensures fd in Without(q, gone)
    ensures IndexOf(Without(q, gone), fd) + (if q[0] in gone then 1 else 0) <= IndexOf(q, fd)
    ensures Ahead(Without(q, gone), fd) <= Ahead(q, fd)
  {
    WithoutFacts(q, gone);
    if q[0] != fd {
      WithoutIndex(q[1..], gone, fd);
      AheadCons(q, fd);
      if q[0] !in gone { AheadCons(Without(q, gone), fd); }
    }
  }

  lemma AheadCons(q: seq<Fd>, fd: Fd)
    requires fd in q && q[0] != fd
    ensures fd in q[1..] && IndexOf(q, fd) == 1 + IndexOf(q[1..], fd)
    ensures Ahead(q, fd) == {q[0]} + Ahead(q[1..], fd)
  {
    var i := IndexOf(q, fd);
    assert q[..i] == [q[0]] + q[1..][..i - 1];
  }

  lemma {:induction false} DropIndex(q: seq<Fd>, n: nat, fd: Fd)
    requires n <= |q| && fd in q[n..] && Distinct(q)
    ensures fd in q && IndexOf(q, fd) == n + IndexOf(q[n..], fd)
    ensures Ahead(q[n..], fd) <= Ahead(q, fd)
  {
    var k := IndexOf(q[n..], fd);
    assert q[n + k] == fd;
    assert q[..n + k] == q[..n] + q[n..][..k];
  }

  lemma {:induction false} AppendIndex(q: seq<Fd>, x: Fd, fd: Fd)
    requires fd in q
    ensures fd in q + [x] && IndexOf(q + [x], fd) == IndexOf(q, fd)
    ensures Ahead(q + [x], fd) == Ahead(q, fd)
  {
    if q[0] != fd {
      AppendIndex(q[1..], x, fd);
      assert (q + [x])[1..] == q[1..] + [x];
    }
    var i := IndexOf(q, fd);
    assert (q + [x])[..i] == q[..i];
  }

  lemma DeleteAdvances(s: Sched, gone: set<Fd>, fd: Fd)
    requires fd in s.requests && fd !in gone
    ensures Advances(s, DeleteClients(s, gone), fd, 0)
  {
    WithoutIndex(s.requests, gone, fd);
  }

  lemma RemoveAdvances(s: Sched, x: Fd, fd: Fd)
    requires fd in s.requests && fd != x
    ensures Advances(s, RemoveReq(s, x), fd, 0)
  {
    WithoutIndex(s.requests, {x}, fd);
  }

  /** `fd` is still waiting after the effect. */
  predicate Waits(s: Sched, out: Out, fd: Fd) {
    fd in s.requests && fd !in Grantees(out)
  }

  /** Rounds pass only by serving clients that were ahead of `fd`. */
  predicate Fair(s: Sched, s': Sched, out: Out, fd: Fd) {
    Advances(s, s', fd, s'.round - s.round) && Grantees(out) <= Ahead(s.requests, fd)
  }

  /** A grant by `try_schedule` goes to someone queued ahead of a client that goes on waiting. */
  lemma TryScheduleFair(s: Sched, dead: set<Fd>, fd: Fd)
    requires Distinct(s.requests) && !s.lockHeld && fd in s.requests
    requires Waits(TrySchedule(s, dead).s, TrySchedule(s, dead).out, fd)
    ensures Fair(s, TrySchedule(s, dead).s, TrySchedule(s, dead).out, fd)
  {
    TryScheduleResult(s, dead);
    var i := FirstAlive(s.requests, dead);
    DropIndex(s.requests, i, fd);
    var k := IndexOf(s.requests, fd);
    assert s.requests[i] in s.requests[..k];
  }

  lemma ScheduleFair(s: Sched, s1: Sched, dead: set<Fd>, fd: Fd)
    requires Distinct(s1.requests) && Advances(s, s1, fd, 0) && s1.round == s.round
    requires Waits(ScheduleIfFree(s1, dead).s, ScheduleIfFree(s1, dead).out, fd)
    ensures Fair(s, ScheduleIfFree(s1, dead).s, ScheduleIfFree(s1, dead).out, fd)
  {
    if !s1.lockHeld { TryScheduleFair(s1, dead, fd); }
  }

  /** REGISTER grants nothing; the queue stays as it is, or the client is deleted. */
  lemma RegisterQuiet(s: Sched, x: Fd, dead: set<Fd>, draws: seq<Id>)
    requires CanRegister(s, x, draws)
    ensures var r := RegisterClient(s, x, dead, draws);
      && Grantees(r.out) == {} && r.s.round == s.round
      && ((r.s.requests == s.requests && r.s.lockHeld == s.lockHeld) ||
          (r.s.requests == DeleteClients(s, {x}).requests && r.s.lockHeld == DeleteClients(s, {x}).lockHeld))
  {
  }

  lemma RegisterFair(s: Sched, x: Fd, dead: set<Fd>, draws: seq<Id>, fd: Fd)
    requires ListsOk(s) && CanRegister(s, x, draws) && fd in s.requests
    requires fd in RegisterClient(s, x, dead, draws).s.requests
    ensures Fair(s, RegisterClient(s, x, dead, draws).s, RegisterClient(s, x, dead, draws).out, fd)
  {
    RegisterQuiet(s, x, dead, draws);
    WithoutFacts(s.requests, {x});
    if fd != x { DeleteAdvances(s, {x}, fd); }
  }

  lemma RequestFair(s: Sched, x: Fd, dead: set<Fd>, fd: Fd)
    requires ListsOk(s) && x in RegisteredFds(s.clients) && fd in s.requests
    requires Waits(ScheduleIfFree(InsertReq(s, x), dead).s, ScheduleIfFree(InsertReq(s, x), dead).out, fd)
    ensures Fair(s, ScheduleIfFree(InsertReq(s, x), dead).s, ScheduleIfFree(InsertReq(s, x), dead).out, fd)
  {
    AppendIndex(s.requests, x, fd);
    ScheduleFair(s, InsertReq(s, x), dead, fd);
  }

  lemma ReleaseFair(s: Sched, x: Fd, dead: set<Fd>, fd: Fd)
    requires ListsOk(s) && fd in s.requests
    requires Waits(ScheduleIfFree(RemoveReq(s, x), dead).s, ScheduleIfFree(RemoveReq(s, x), dead).out, fd)
    ensures Fair(s, ScheduleIfFree(RemoveReq(s, x), dead).s, ScheduleIfFree(RemoveReq(s, x), dead).out, fd)
  {
    ReleasedIsGone(s, x, dead);
    RemoveReqLists(s, x);
    RemoveAdvances(s, x, fd);
    ScheduleFair(s, RemoveReq(s, x), dead, fd);
  }

  lemma ReleasedIsGone(s: Sched, x: Fd, dead: set<Fd>)
    requires ListsOk(s)
    ensures x !in ScheduleIfFree(RemoveReq(s, x), dead).s.requests
  {
    RemoveReqLists(s, x);
    WithoutFacts(s.requests, {x});
    if !RemoveReq(s, x).lockHeld { TryScheduleResult(RemoveReq(s, x), dead); }
  }

  lemma ProcessMsgFair(s: Sched, x: Fd, m: ToScheduler, dead: set<Fd>, draws: seq<Id>, fd: Fd)
    requires SchedOk(s) && x in Fds(s.clients) && (m.Register? ==> CanRegister(s, x, draws)) && fd in s.requests
    requires Waits(ProcessMsg(s, x, m, dead, draws).s, ProcessMsg(s, x, m, dead, draws).out, fd)
    ensures Fair(s, ProcessMsg(s, x, m, dead, draws).s, ProcessMsg(s, x, m, dead, draws).out, fd)
  {
    if m.Register? {
      RegisterFair(s, x, dead, draws, fd);
    } else if (m.ReqLock? || m.LockReleased?) && x !in RegisteredFds(s.clients) {
      DeleteAdvances(s, {x}, fd);
    } else if m.ReqLock? && s.on {
      RequestFair(s, x, dead, fd);
    } else if m.LockReleased? && s.on {
      ReleaseFair(s, x, dead, fd);
    }
  }

  lemma HangupFair(s: Sched, x: Fd, dead: set<Fd>, fd: Fd)
    requires SchedOk(s) && fd in s.requests
    requires Waits(Hangup(s, x, dead).s, Hangup(s, x, dead).out, fd)
    ensures Fair(s, Hangup(s, x, dead).s, Hangup(s, x, dead).out, fd)
  {
    DeleteGood(s, x);
    WithoutFacts(s.requests, {x});
    var s1 := DeleteClient(s, x);
    if x == fd {
      if !s1.lockHeld { TryScheduleResult(s1, dead); }
    } else {
      DeleteAdvances(s, {x}, fd);
      ScheduleFair(s, s1, dead, fd);
    }
  }

  lemma TimeoutFair(s: Sched, t: Timer, dead: set<Fd>, fd: Fd)
    requires SchedOk(s) && fd in s.requests && !Holds(s, fd)
    requires Waits(TimerTimeout(s, t, dead).s, TimerTimeout(s, t, dead).out, fd)
    ensures Fair(s, TimerTimeout(s, t, dead).s, TimerTimeout(s, t, dead).out, fd)
  {
    if s.lockHeld {
      var head := s.requests[0];
      DeleteGood(s, head);
      DeleteAdvances(s, {head}, fd);
      if !t.dropSent && t.roundAtStart == s.round && head in dead {
        TryScheduleFair(DeleteClient(s, head), dead, fd);
      }
    }
  }

  /** Only a grant makes a waiting client the holder. */
  lemma StillWaiting(w: World, e: Event, fd: Fd)
    requires Inv(w) && Enabled(w, e) && !Holds(w.s, fd) && fd !in Served(w, e)
    ensures !Holds(Next(w, e).s, fd)
  {
    match e {
      case Accept(x) => AcceptGood(w.s, x);
      case Recv(x, m, dead, draws) => ProcessMsgGood(w.s, x, m, dead, draws);
      case Drop(x, dead) => HangupGood(w.s, x, dead);
      case Timeout(dead) =>
        if w.s.lockHeld {
          DeleteGood(w.s, w.s.requests[0]);
          TryScheduleMove(DeleteClient(w.s, w.s.requests[0]), dead);
        }
      case Wake =>
    }
  }

  /** Whoever the event sends a LOCK_OK. */
  function Served(w: World, e: Event): set<Fd>
    requires Enabled(w, e)
  {
    Grantees(Act(w, e).out)
  }

  /** One step, seen by a client that waits before and after it. */
  lemma NextFair(w: World, e: Event, fd: Fd)
    requires Inv(w) && Enabled(w, e) && fd in w.s.requests && !Holds(w.s, fd)
    requires fd in Next(w, e).s.requests && fd !in Served(w, e)
    ensures Advances(w.s, Next(w, e).s, fd, Next(w, e).s.round - w.s.round)
    ensures Served(w, e) <= Ahead(w.s.requests, fd)
  {
    match e {
      case Accept(_) =>
      case Recv(x, m, dead, draws) => ProcessMsgFair(w.s, x, m, dead, draws, fd);
      case Drop(x, dead) => HangupFair(w.s, x, dead, fd);
      case Timeout(dead) => TimeoutFair(w.s, w.t, dead, fd);
      case Wake =>
    }
  }

  lemma RunFair(ws: seq<World>, es: seq<Event>, fd: Fd, k: nat)
    requires IsRun(ws, es) && k < |es| && !Holds(ws[k].s, fd)
    requires fd in ws[k].s.requests && fd in ws[k + 1].s.requests && fd !in Served(ws[k], es[k])
    ensures Advances(ws[k].s, ws[k + 1].s, fd, ws[k + 1].s.round - ws[k].s.round)
    ensures Served(ws[k], es[k]) <= Ahead(ws[k].s.requests, fd)
    ensures !Holds(ws[k + 1].s, fd)
  {
    RunKeepsInv(ws, es, k);
    NextFair(ws[k], es[k], fd);
    StillWaiting(ws[k], es[k], fd);
  }

  /** `fd` is queued, and not granted, from state `i` to state `j` of the run. */
  ghost predicate WaitsThrough(ws: seq<World>, es: seq<Event>, fd: Fd, i: nat, j: nat)
    requires IsRun(ws, es) && i <= j < |ws|
  {
    && !Holds(ws[i].s, fd)
    && (forall k :: i <= k <= j ==> fd in ws[k].s.requests)
    && (forall k :: i <= k < j ==> fd !in Served(ws[k], es[k]))
  }

  lemma {:induction false} WaitingAdvances(ws: seq<World>, es: seq<Event>, fd: Fd, i: nat, j: nat)
    requires IsRun(ws, es) && i <= j < |ws| && WaitsThrough(ws, es, fd, i, j)
    ensures Advances(ws[i].s, ws[j].s, fd, ws[j].s.round - ws[i].s.round) && !Holds(ws[j].s, fd)
  {
    if i == j {
    } else {
      WaitingAdvances(ws, es, fd, i, j - 1);
      RunFair(ws, es, fd, j - 1);
    }
  }

  /**
    While a request stays queued and ungranted, only clients queued ahead of it
    are served, and the lock is granted no more often than there were unserved
    requests ahead of it: with `k` requests ahead, at most `k` times.
   */
  lemma BoundedOvertaking(ws: seq<World>, es: seq<Event>, fd: Fd, i: nat, j: nat)
    requires IsRun(ws, es) && i <= j < |ws| && WaitsThrough(ws, es, fd, i, j)
    ensures ws[j].s.round - ws[i].s.round <= Rank(ws[i].s, fd) <= IndexOf(ws[i].s.requests, fd)
    ensures forall k :: i <= k < j ==> Served(ws[k], es[k]) <= Ahead(ws[i].s.requests, fd)
  {
    WaitingAdvances(ws, es, fd, i, j);
    NotHolderRank(ws[j].s, fd);
    forall k | i <= k < j ensures Served(ws[k], es[k]) <= Ahead(ws[i].s.requests, fd) {
      WaitingAdvances(ws, es, fd, i, k);
      RunFair(ws, es, fd, k);
    }
  }

  lemma NotHolderRank(s: Sched, fd: Fd)
    requires fd in s.requests && !Holds(s, fd)
    ensures Rank(s, fd) >= 0
  {
  }

  /** A round passes exactly when somebody is granted, and only one client is. */
  lemma RoundsAreGrants(w: World, e: Event)
    requires Inv(w) && Enabled(w, e)
    ensures |Served(w, e)| == Next(w, e).s.round - w.s.round
  {
    match e {
      case Accept(fd) => AcceptGood(w.s, fd);
      case Recv(fd, m, dead, draws) => ProcessMsgGood(w.s, fd, m, dead, draws);
      case Drop(fd, dead) => HangupGood(w.s, fd, dead);
      case Timeout(dead) =>
        if w.s.lockHeld {
          var head := w.s.requests[0];
          DeleteGood(w.s, head);
          TryScheduleMove(DeleteClient(w.s, head), dead);
          assert Grantees(map[head := DropLock(w.s.round)]) == {};
        }
      case Wake =>
    }
  }
}
