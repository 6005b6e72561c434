/** The protocol's promises, over every run of the whole system. */
module ProtocolTheorems {
  import opened Messages
  import opened SchedulerSpec
  import SR = SchedulerRuns
  import SI = SchedulerInvariant
  import ST = SchedulerTheorems
  import opened SchedulerViews
  import CS = ClientSpec
  import C = Client
  import opened Channels
  import P = Protocol
  import opened Connections
  import opened Tokens
  import opened SingleToggle

  // --------------------------------------------------------------- invariants

  /** The scheduler's invariant, and a connection for every listed client. */
  predicate Linked(s: P.Sys) {
    SR.Inv(s.w) && s.conns.Keys == Fds(s.w.s.clients)
  }

  /** Holds in every run, whatever the toggles. */
  ghost predicate Basic(s: P.Sys) {
    Linked(s) && forall fd :: fd in s.conns ==>
      var v, c := View(s.w, fd), s.conns[fd]; Shape(v, c) && NotLost(v, c) && RoundsOk(v, c)
  }

  /** Holds in every run without a stale release. */
  ghost predicate Conserving(s: P.Sys) {
    forall fd :: fd in s.conns ==> TokensOk(View(s.w, fd), s.conns[fd])
  }

  /** Holds in every run without a stale release; useful up to the first toggle. */
  ghost predicate Singular(s: P.Sys) {
    forall fd :: fd in s.conns ==> Single(View(s.w, fd), s.conns[fd])
  }

  /** The event makes the scheduler read a release that cancels a newer grant. */
  predicate StaleAt(s: P.Sys, e: P.Event)
    requires P.Enabled(s, e)
  {
    e.Recv? && StaleRelease(View(s.w, e.fd), Some(s.conns[e.fd].c2s[0]))
  }

  // ------------------------------------------------------------ one scheduler step

  lemma LinkedKept(s: P.Sys, e: P.Event)
    requires Linked(s) && P.Enabled(s, e)
    ensures Linked(P.Next(s, e))
  {
    if !e.AtClient? {
      var se := P.SchedulerEvent(s, e);
      SI.NextKeepsInv(s.w, se);
      if se.Accept? { AcceptNewcomer(s.w, se.fd); } else { ListedShrinks(s.w, se); }
    }
  }

  /** A connection that survives a scheduler step moves as the step is seen from it. */
  lemma SurvivorSteps(s: P.Sys, e: P.Event, fd: Fd)
      returns (input: Option<ToScheduler>, out: Option<ToClient>)
    requires Linked(s) && P.Enabled(s, e) && !e.AtClient?
    requires fd in s.conns && fd in P.Next(s, e).conns
    ensures Steps(View(s.w, fd), View(P.Next(s, e).w, fd), s.conns[fd], input, out)
    ensures P.Next(s, e).conns[fd] == P.Moved(s.conns[fd], input, out)
    ensures input == if e.Recv? && e.fd == fd then Some(s.conns[fd].c2s[0]) else None
  {
    var se := P.SchedulerEvent(s, e);
    LinkedKept(s, e);
    input, out := Input(se, fd), Sent(SR.Act(s.w, se).out, fd);
    NextSeen(s.w, se, fd);
    InvGivesViewOk(s.w, fd);
    InvGivesViewOk(P.Next(s, e).w, fd);
  }

  /** A connection that was not there before has just been accepted. */
  lemma NewcomerFits(s: P.Sys, e: P.Event, fd: Fd)
    requires Linked(s) && P.Enabled(s, e) && !e.AtClient?
    requires fd !in s.conns && fd in P.Next(s, e).conns
    ensures var v, c := View(P.Next(s, e).w, fd), P.Next(s, e).conns[fd];
      Shape(v, c) && NotLost(v, c) && RoundsOk(v, c) && TokensOk(v, c) && Single(v, c)
  {
    var se := P.SchedulerEvent(s, e);
    AcceptNewcomer(s.w, fd);
    LinkedKept(s, e);
    InvGivesViewOk(P.Next(s, e).w, fd);
    NewConnFits(View(P.Next(s, e).w, fd), e);
  }

  lemma NewConnFits(v: Env, e: P.Event)
    requires e.ConnectApp? || (e.ConnectCtl? && forall m :: m in e.wants ==> P.CtlMsg(m))
    requires ViewOk(v) && !v.registered
    ensures var c := P.Newcomer(e);
      Shape(v, c) && NotLost(v, c) && RoundsOk(v, c) && TokensOk(v, c) && Single(v, c)
  {
    LiveReleasesNone(P.Newcomer(e).c2s, v.epoch);
  }

  lemma BasicAt(s: P.Sys, e: P.Event, fd: Fd)
    requires Basic(s) && P.Enabled(s, e) && fd in P.Next(s, e).conns
    ensures var v, c := View(P.Next(s, e).w, fd), P.Next(s, e).conns[fd];
      Shape(v, c) && NotLost(v, c) && RoundsOk(v, c)
  {
    var v, v' := View(s.w, fd), View(P.Next(s, e).w, fd);
    if e.AtClient? {
      if fd == e.fd {
        ShapeClientMoved(v, s.conns[fd], e.e);
        NotLostClientMoved(v, s.conns[fd], e.e);
        RoundsClientMoved(v, s.conns[fd], e.e);
      }
    } else if fd in s.conns {
      var input, out := SurvivorSteps(s, e, fd);
      ShapeMoved(v, v', s.conns[fd], input, out);
      NotLostMoved(v, v', s.conns[fd], input, out);
      RoundsMoved(v, v', s.conns[fd], input, out);
    } else {
      NewcomerFits(s, e, fd);
    }
  }

  lemma BasicKept(s: P.Sys, e: P.Event)
    requires Basic(s) && P.Enabled(s, e)
    ensures Basic(P.Next(s, e))
  {
    LinkedKept(s, e);
    forall fd | fd in P.Next(s, e).conns
      ensures var v, c := View(P.Next(s, e).w, fd), P.Next(s, e).conns[fd];
        Shape(v, c) && NotLost(v, c) && RoundsOk(v, c)
    {
      BasicAt(s, e, fd);
    }
  }

  lemma TokensAt(s: P.Sys, e: P.Event, fd: Fd)
    requires Basic(s) && Conserving(s) && P.Enabled(s, e) && !StaleAt(s, e) && fd in P.Next(s, e).conns
    ensures TokensOk(View(P.Next(s, e).w, fd), P.Next(s, e).conns[fd])
  {
    var v, v' := View(s.w, fd), View(P.Next(s, e).w, fd);
    if e.AtClient? {
      if fd == e.fd { TokensClientMoved(v, s.conns[fd], e.e); }
    } else if fd in s.conns {
      var input, out := SurvivorSteps(s, e, fd);
      TokensMoved(v, v', s.conns[fd], input, out);
    } else {
      NewcomerFits(s, e, fd);
    }
  }

  lemma SingleAt(s: P.Sys, e: P.Event, fd: Fd)
    requires Basic(s) && Conserving(s) && Singular(s) && P.Enabled(s, e) && fd in P.Next(s, e).conns
    ensures Single(View(P.Next(s, e).w, fd), P.Next(s, e).conns[fd])
  {
    var v, v' := View(s.w, fd), View(P.Next(s, e).w, fd);
    if e.AtClient? {
      InvGivesViewOk(s.w, fd);
      if fd == e.fd { SingleClientMoved(v, s.conns[fd], e.e); }
    } else if fd in s.conns {
      var input, out := SurvivorSteps(s, e, fd);
      SingleMoved(v, v', s.conns[fd], input, out);
    } else {
      NewcomerFits(s, e, fd);
    }
  }

  lemma SafeStep(s: P.Sys, e: P.Event)
    requires Basic(s) && Conserving(s) && Singular(s) && P.Enabled(s, e) && !StaleAt(s, e)
    ensures Basic(P.Next(s, e)) && Conserving(P.Next(s, e)) && Singular(P.Next(s, e))
  {
    BasicKept(s, e);
    forall fd | fd in P.Next(s, e).conns
      ensures TokensOk(View(P.Next(s, e).w, fd), P.Next(s, e).conns[fd])
      ensures Single(View(P.Next(s, e).w, fd), P.Next(s, e).conns[fd])
    {
      TokensAt(s, e, fd);
      SingleAt(s, e, fd);
    }
  }

  /** While the scheduler has been turned on at most once, no release is stale. */
  lemma NoStaleStep(s: P.Sys, e: P.Event)
    requires Basic(s) && Conserving(s) && Singular(s) && P.Enabled(s, e) && s.w.h.ons <= 1
    ensures !StaleAt(s, e)
  {
    if e.Recv? && View(s.w, e.fd).holder && s.conns[e.fd].c2s[0].LockReleased? {
      ReleaseSurvives(s, e);
      var input, out := SurvivorSteps(s, e, e.fd);
      NoStaleRelease(View(s.w, e.fd), View(P.Next(s, e).w, e.fd), s.conns[e.fd], input, out);
    }
  }

  /** Scheduling deletes only clients that are queued. */
  lemma ScheduleSpares(s: Sched, dead: set<Fd>, x: Fd)
    requires Distinct(s.requests) && !s.lockHeld && x in Fds(s.clients) && x !in s.requests
    ensures x in Fds(TrySchedule(s, dead).s.clients)
  {
    SI.TryScheduleResult(s, dead);
    var i := SI.FirstAlive(s.requests, dead);
    assert x !in s.requests[..i];
    SR.WithoutClientsSets(s.clients, SI.Members(s.requests[..i]));
  }

  /** A holder that gives back the lock stays connected. */
  lemma ReleaseSurvives(s: P.Sys, e: P.Event)
    requires Linked(s) && P.Enabled(s, e) && e.Recv? && s.conns[e.fd].c2s[0].LockReleased?
    requires View(s.w, e.fd).holder
    ensures e.fd in P.Next(s, e).conns
  {
    var s0 := s.w.s;
    assert e.fd in s0.requests;
    SI.RemoveReqLists(s0, e.fd);
    SR.WithoutFacts(s0.requests, {e.fd});
    ScheduleSpares(RemoveReq(s0, e.fd), e.dead, e.fd);
    assert e.fd in Fds(P.Next(s, e).w.s.clients);
  }

  // ----------------------------------------------------------------- whole runs

  lemma {:induction false} RunBasic(ss: seq<P.Sys>, es: seq<P.Event>, i: nat)
    requires P.IsRun(ss, es) && i < |ss|
    ensures Basic(ss[i])
  {
    if i == 0 {
    } else {
      RunBasic(ss, es, i - 1);
      BasicKept(ss[i - 1], es[i - 1]);
    }
  }

  /** No stale release is read before state `i`. */
  ghost predicate NoStale(ss: seq<P.Sys>, es: seq<P.Event>, i: nat)
    requires P.IsRun(ss, es) && i < |ss|
  {
    forall k :: 0 <= k < i ==> !StaleAt(ss[k], es[k])
  }

  lemma {:induction false} RunSafe(ss: seq<P.Sys>, es: seq<P.Event>, i: nat)
    requires P.IsRun(ss, es) && i < |ss| && NoStale(ss, es, i)
    ensures Basic(ss[i]) && Conserving(ss[i]) && Singular(ss[i])
  {
    if i == 0 {
    } else {
      RunSafe(ss, es, i - 1);
      SafeStep(ss[i - 1], es[i - 1]);
    }
  }

  lemma {:induction false} OnsGrow(ss: seq<P.Sys>, es: seq<P.Event>, i: nat, j: nat)
    requires P.IsRun(ss, es) && i <= j < |ss|
    ensures ss[i].w.h.ons <= ss[j].w.h.ons
  {
    if i == j {
    } else {
      OnsGrow(ss, es, i, j - 1);
      assert ss[j] == P.Next(ss[j - 1], es[j - 1]);
    }
  }

  lemma {:induction false} NotStaleYet(ss: seq<P.Sys>, es: seq<P.Event>, k: nat)
    requires P.IsRun(ss, es) && k < |es| && ss[k].w.h.ons <= 1
    ensures !StaleAt(ss[k], es[k])
  {
    forall j | 0 <= j < k ensures !StaleAt(ss[j], es[j]) {
      OnsGrow(ss, es, j, k);
      NotStaleYet(ss, es, j);
    }
    RunSafe(ss, es, k);
    NoStaleStep(ss[k], es[k]);
  }

  /** One OFF-then-ON toggle, at whatever moment, never makes a release stale. */
  lemma OneToggleIsSafe(ss: seq<P.Sys>, es: seq<P.Event>, i: nat)
    requires P.IsRun(ss, es) && i < |ss| && ss[i].w.h.ons <= 1
    ensures NoStale(ss, es, i)
  {
    forall k | 0 <= k < i ensures !StaleAt(ss[k], es[k]) {
      OnsGrow(ss, es, k, i);
      NotStaleYet(ss, es, k);
    }
  }

  // --------------------------------------------------------------- the promises

  /**
    Mode agreement, in every run: the statuses that a client has yet to read lead
    it from its own mode to the scheduler's; grants and drops reach it only while
    it is on; while it is off it owns the lock; the first message of a client that
    has not joined yet is a status, so joining never aborts.
   */
  lemma ModeAgreement(ss: seq<P.Sys>, es: seq<P.Event>, i: nat, fd: Fd)
    requires P.IsRun(ss, es) && i < |ss| && fd in ss[i].conns
    ensures var c := ss[i].conns[fd];
      && (c.cl.phase == CS.Running ==> ModeOk(c.cl.on, c.s2c, ss[i].w.s.on) && (!c.cl.on ==> c.cl.own))
      && (c.cl.phase == CS.Joining && c.s2c != [] ==> IsStatus(c.s2c[0]))
      && c.cl.phase != CS.Aborted
  {
    RunBasic(ss, es, i);
  }

  /**
    No lost request, in every run: while an application thread sleeps, the client
    needs the lock and does not own it, and a request is in flight, or is queued,
    or the grant or the OFF that will wake the thread is already on its way.
   */
  lemma NoLostRequest(ss: seq<P.Sys>, es: seq<P.Event>, i: nat, fd: Fd)
    requires P.IsRun(ss, es) && i < |ss| && fd in ss[i].conns
    requires var cl := ss[i].conns[fd].cl; cl.phase == CS.Running && (cl.waiting || cl.need)
    ensures var c := ss[i].conns[fd];
      && c.cl.need && !c.cl.own
      && (ReqLock in c.c2s || fd in ss[i].w.s.requests || HasGrant(c.s2c) || StatusOff in c.s2c)
  {
    RunBasic(ss, es, i);
  }

  /**
    Stale-drop safety, in every run: when a client reads a DROP_LOCK and gives the
    lock back because of it, the drop was sent in the round of the very grant that
    the client owns the lock by; a drop for a round that the client gave back
    before changes nothing and sends nothing.
   */
  lemma StaleDropSafety(ss: seq<P.Sys>, es: seq<P.Event>, i: nat, fd: Fd, r: nat)
    requires P.IsRun(ss, es) && i < |ss| && fd in ss[i].conns
    requires var c := ss[i].conns[fd];
      c.cl.phase == CS.Running && c.s2c != [] && c.s2c[0] == DropLock(r)
    ensures var cl := ss[i].conns[fd].cl;
      && (CS.Consume(cl, DropLock(r)).sent != [] ==> cl.giver == Some(r))
      && (r in cl.returned ==> CS.Consume(cl, DropLock(r)) == CS.ClientEffect(cl, []))
  {
    RunBasic(ss, es, i);
    DropIsNeverStale(View(ss[i].w, fd), ss[i].conns[fd], r);
  }

  /**
    A DROP_LOCK is obeyed, in every run: a client that reads one does not own the lock
    afterwards, and if it owned it before, it gives back exactly the round that the drop
    is about, behind everything it has sent so far.
   */
  lemma DropIsObeyed(ss: seq<P.Sys>, es: seq<P.Event>, i: nat, fd: Fd, r: nat)
    requires P.IsRun(ss, es) && i < |es| && es[i] == P.AtClient(fd, C.Receive(DropLock(r)))
    ensures var c, c' := ss[i].conns[fd], ss[i + 1].conns[fd];
      && !c'.cl.own && c'.cl.on == c.cl.on && c'.cl.need == c.cl.need
      && c'.c2s == if c.cl.own then c.c2s + [LockReleased(r)] else c.c2s
  {
    RunBasic(ss, es, i);
    assert ss[i + 1] == P.Next(ss[i], es[i]);
    DropIsNeverStale(View(ss[i].w, fd), ss[i].conns[fd], r);
    assert ss[i].conns[fd].c2s + [] == ss[i].conns[fd].c2s;
  }

  /**
    A LOCK_OK is taken, in every run: the client that reads one is on, owns the lock and
    needs it no longer, none of its threads goes on sleeping, and it sends nothing.
   */
  lemma GrantIsTaken(ss: seq<P.Sys>, es: seq<P.Event>, i: nat, fd: Fd, r: nat)
    requires P.IsRun(ss, es) && i < |es| && es[i] == P.AtClient(fd, C.Receive(LockOk(r)))
    ensures var c, c' := ss[i].conns[fd], ss[i + 1].conns[fd];
      && c'.cl.phase == CS.Running && c'.cl.on && c'.cl.own && !c'.cl.need && !c'.cl.waiting && c'.cl.didWork
      && c'.c2s == c.c2s
  {
    RunBasic(ss, es, i);
    assert ss[i + 1] == P.Next(ss[i], es[i]);
    assert ss[i].conns[fd].c2s + [] == ss[i].conns[fd].c2s;
  }

  /**
    A mode change is followed, in every run: OFF gives a client the lock and wakes its
    threads, ON takes it away; neither makes it send anything.
   */
  lemma ModeIsFollowed(ss: seq<P.Sys>, es: seq<P.Event>, i: nat, fd: Fd, m: ToClient)
    requires P.IsRun(ss, es) && i < |es| && es[i] == P.AtClient(fd, C.Receive(m)) && IsStatus(m)
    ensures var c, c' := ss[i].conns[fd], ss[i + 1].conns[fd];
      && c'.cl.phase == CS.Running && c'.cl.on == m.StatusOn? && c'.cl.own == m.StatusOff? && !c'.cl.need
      && (m.StatusOff? ==> !c'.cl.waiting)
      && c'.c2s == c.c2s
  {
    RunBasic(ss, es, i);
    assert ss[i + 1] == P.Next(ss[i], es[i]);
    assert ss[i].conns[fd].c2s + [] == ss[i].conns[fd].c2s;
  }

  /**
    The gate, in every run: a thread passes if and only if the client owns the lock, which
    it does whenever it is locally off; otherwise it sleeps, and a request is sent
    exactly when the client was not waiting for an answer to one.
   */
  lemma GateIsKept(ss: seq<P.Sys>, es: seq<P.Event>, i: nat, fd: Fd)
    requires P.IsRun(ss, es) && i < |es| && es[i] == P.AtClient(fd, C.Ask)
    ensures var c, c' := ss[i].conns[fd], ss[i + 1].conns[fd];
      && c'.cl.own == c.cl.own && (!c.cl.on ==> c.cl.own)
      && (if c.cl.own then c'.cl.didWork && c'.cl.need == c.cl.need && c'.cl.waiting == c.cl.waiting
          else c'.cl.need && c'.cl.waiting)
      && c'.c2s == if !c.cl.own && !c.cl.need then c.c2s + [ReqLock] else c.c2s
  {
    RunBasic(ss, es, i);
    assert ss[i + 1] == P.Next(ss[i], es[i]);
    assert ss[i].conns[fd].c2s + [] == ss[i].conns[fd].c2s;
  }

  /**
    Token conservation: up to the first stale release, the holder's connection
    carries exactly one token of this epoch, and it is of the current round; all
    other connections carry none, and none at all exist while the lock is free.
   */
  lemma TokenConservation(ss: seq<P.Sys>, es: seq<P.Event>, i: nat, fd: Fd)
    requires P.IsRun(ss, es) && i < |ss| && NoStale(ss, es, i) && fd in ss[i].conns
    ensures TokenCount(ss[i].conns[fd], ss[i].w.h.epoch) ==
      if ST.Holds(ss[i].w.s, fd) then 1 else 0
    ensures RoundsBounded(View(ss[i].w, fd), ss[i].conns[fd])
  {
    RunSafe(ss, es, i);
  }

  /** LOCK_OK in flight, plus 1 for an owner, plus LOCK_RELEASED in flight: no history involved. */
  function PlainTokens(c: P.Conn): nat {
    Oks(c.s2c) + (if c.cl.own then 1 else 0) + Releases(c.c2s)
  }

  /** Before the first toggle every token is of this epoch, and whoever owns the lock owns it by a grant. */
  lemma PlainTokensCount(v: Env, c: P.Conn)
    requires Shape(v, c) && RoundsOk(v, c) && RoundsBounded(v, c) && Single(v, c) && v.on && v.ons == 0
    ensures PlainTokens(c) == TokenCount(c, 0)
  {
    LiveOksAll(c.s2c);
    LiveReleasesAll(c.c2s);
    if c.cl.phase == CS.Running { OnFromTheStart(v, c); }
  }

  /**
    While the scheduler was never turned off: on the holder's connection, LOCK_OK in
    flight, ownership and LOCK_RELEASED in flight add up to one; on every other
    connection there is none of them.
   */
  lemma TokensWithoutToggle(ss: seq<P.Sys>, es: seq<P.Event>, i: nat, fd: Fd)
    requires P.IsRun(ss, es) && i < |ss| && ss[i].w.s.on && ss[i].w.h.ons == 0 && fd in ss[i].conns
    ensures PlainTokens(ss[i].conns[fd]) == if ST.Holds(ss[i].w.s, fd) then 1 else 0
  {
    OneToggleIsSafe(ss, es, i);
    RunSafe(ss, es, i);
    TokenConservation(ss, es, i, fd);
    SchedulerRunInv(ss, es, i);
    InvGivesViewOk(ss[i].w, fd);
    PlainTokensCount(View(ss[i].w, fd), ss[i].conns[fd]);
  }

  lemma SchedulerRunInv(ss: seq<P.Sys>, es: seq<P.Event>, i: nat)
    requires P.IsRun(ss, es) && i < |ss|
    ensures SR.Inv(ss[i].w)
  {
    RunBasic(ss, es, i);
  }

  /** The client owns the lock, is locally on, and has no unread OFF. */
  predicate OwnsUpToDate(c: P.Conn) {
    c.cl.phase == CS.Running && c.cl.on && c.cl.own && StatusOff !in c.s2c
  }

  /**
    Mutual exclusion: up to the first stale release, at most one connected client
    that has read the latest mode change owns the lock; it is the head of the queue
    and owns the lock by the current round's grant.
   */
  lemma MutualExclusion(ss: seq<P.Sys>, es: seq<P.Event>, i: nat, a: Fd, b: Fd)
    requires P.IsRun(ss, es) && i < |ss| && NoStale(ss, es, i)
    requires a in ss[i].conns && b in ss[i].conns
    requires OwnsUpToDate(ss[i].conns[a]) && OwnsUpToDate(ss[i].conns[b])
    ensures a == b && ss[i].w.s.lockHeld && ST.Holds(ss[i].w.s, a)
    ensures ss[i].conns[a].cl.giver == Some(ss[i].w.s.round)
  {
    RunSafe(ss, es, i);
    OwnerIsHolder(View(ss[i].w, a), ss[i].conns[a]);
    OwnerIsHolder(View(ss[i].w, b), ss[i].conns[b]);
  }

  /** And with at most one OFF-then-ON toggle it needs no further hypothesis. */
  lemma MutualExclusionOneToggle(ss: seq<P.Sys>, es: seq<P.Event>, i: nat, a: Fd, b: Fd)
    requires P.IsRun(ss, es) && i < |ss| && ss[i].w.h.ons <= 1
    requires a in ss[i].conns && b in ss[i].conns
    requires OwnsUpToDate(ss[i].conns[a]) && OwnsUpToDate(ss[i].conns[b])
    ensures a == b
  {
    OneToggleIsSafe(ss, es, i);
    MutualExclusion(ss, es, i, a, b);
  }

  /** A step keeps the tokens conserved exactly when it does not read a stale release. */
  lemma ConservingExactly(s: P.Sys, e: P.Event)
    requires Basic(s) && Conserving(s) && P.Enabled(s, e)
    ensures Conserving(P.Next(s, e)) <==> !StaleAt(s, e)
  {
    if StaleAt(s, e) {
      ReleaseSurvives(s, e);
      var input, out := SurvivorSteps(s, e, e.fd);
      StaleReleaseBreaks(View(s.w, e.fd), View(P.Next(s, e).w, e.fd), s.conns[e.fd], input, out);
    } else {
      forall fd | fd in P.Next(s, e).conns
        ensures TokensOk(View(P.Next(s, e).w, fd), P.Next(s, e).conns[fd])
      {
        TokensAt(s, e, fd);
      }
    }
  }
}
