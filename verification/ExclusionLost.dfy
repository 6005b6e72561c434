/**
  From a harmful release to two owners: the client that lost the lock without
  knowing takes it, and so does the next one in the queue, or a newcomer.
 */
module ExclusionLost {
  import opened Messages
  import opened SchedulerSpec
  import SR = SchedulerRuns
  import ST = SchedulerTheorems
  import CS = ClientSpec
  import C = Client
  import P = Protocol
  import opened SchedulerViews
  import opened Owners
  import opened ProtocolTheorems
  import opened Exclusion

  // -------------------------------------------------------- somebody else is queued

  /** The holder after a scheduler step other than an accept was connected before it. */
  lemma HolderWasThere(s: P.Sys, e: P.Event, b: Fd)
    requires Linked(s) && P.Enabled(s, e) && e.Recv? && ST.Holds(P.Next(s, e).w.s, b)
    ensures b in s.conns && b in P.Next(s, e).conns
  {
    LinkedKept(s, e);
    assert b in RegisteredFds(P.Next(s, e).w.s.clients);
    assert b in Fds(P.Next(s, e).w.s.clients);
    ListedShrinks(s.w, P.SchedulerEvent(s, e));
  }

  /** Whoever holds the lock after a harmful release was granted it in that step. */
  lemma NextInLineIsPromised(s: P.Sys, e: P.Event, b: Fd)
    requires Basic(s) && Owning(s) && P.Enabled(s, e) && HarmfulAt(s, e)
    requires ST.Holds(P.Next(s, e).w.s, b) && b != e.fd
    ensures Promised(P.Next(s, e), b)
  {
    HolderWasThere(s, e, b);
    OwnersAt(s, e, b);
    var input, out := SurvivorSteps(s, e, b);
    GrantIsSent(View(s.w, b), View(P.Next(s, e).w, b), s.conns[b], input, out);
  }

  // -------------------------------------------------------------- nobody is queued

  /** `a` owns the lock, up to date, while the scheduler takes it to be free. */
  ghost predicate Stage(s: P.Sys, t: P.Sys, a: Fd, b: Fd) {
    && OnWay(s, t) && a != b
    && a in t.conns && OwnsUpToDate(t.conns[a])
    && t.w.s.on && t.w.s.requests == [] && !t.w.s.lockHeld
  }

  /** A scheduler step that leaves it on and `a` connected leaves `a` an up-to-date owner. */
  lemma OwnerStays(t: P.Sys, e: P.Event, a: Fd)
    requires Linked(t) && P.Enabled(t, e) && !e.AtClient? && !(e.Recv? && e.fd == a)
    requires a in t.conns && OwnsUpToDate(t.conns[a]) && t.w.s.on
    requires a in P.Next(t, e).conns && P.Next(t, e).w.s.on
    ensures OwnsUpToDate(P.Next(t, e).conns[a])
  {
    var input, out := SurvivorSteps(t, e, a);
  }

  /** Who is still listed is still connected. */
  lemma StillConnected(t: P.Sys, e: P.Event, who: set<Fd>)
    requires Linked(t) && P.Enabled(t, e) && !e.AtClient? && who <= t.conns.Keys
    requires Fds(t.w.s.clients) <= Fds(P.Next(t, e).w.s.clients)
    ensures who <= P.Next(t, e).conns.Keys
  {
    LinkedKept(t, e);
  }

  lemma {:induction false} FreshNumber(q: seq<nat>) returns (n: nat)
    ensures forall x :: x in q ==> x < n
  {
    if q == [] {
      n := 0;
    } else {
      var m := FreshNumber(q[1..]);
      n := if m <= q[0] then q[0] + 1 else m;
      assert q == [q[0]] + q[1..];
    }
  }

  lemma FreshFd(cs: seq<Listed>) returns (fd: Fd)
    ensures fd !in Fds(cs)
  {
    var q := seq(|cs|, i requires 0 <= i < |cs| => cs[i].fd);
    fd := FreshNumber(q);
    forall c | c in cs ensures c.fd != fd {
      var i :| 0 <= i < |cs| && cs[i] == c;
      assert q[i] in q;
    }
  }

  lemma FreshId(cs: seq<Listed>) returns (id: Id)
    ensures Acceptable(cs, id)
  {
    var q := [UNREGISTERED_ID] + seq(|cs|, i requires 0 <= i < |cs| => cs[i].id);
    id := FreshNumber(q);
    assert q[0] in q;
    forall c | c in cs ensures c.id != id {
      var i :| 0 <= i < |cs| && cs[i] == c;
      assert q[i + 1] in q;
    }
  }

  const KNOCKING: P.Conn := P.Conn(CS.Fresh(CS.Joining), [Register], [])
  const WELCOME: P.Conn := P.Conn(CS.Fresh(CS.Joining), [], [StatusOn])
  const READY: P.Conn := P.Conn(CS.Fresh(CS.Running).(on := true), [], [])

  lemma Connects(s: P.Sys, t: P.Sys, a: Fd, b: Fd) returns (t': P.Sys)
    requires Stage(s, t, a, b) && b !in Fds(t.w.s.clients)
    ensures Stage(s, t', a, b) && b in t'.conns && t'.conns[b] == KNOCKING
    ensures b in Fds(t'.w.s.clients) && b !in RegisteredFds(t'.w.s.clients)
  {
    var e := P.ConnectApp(b);
    WayOn(s, t, e);
    t' := P.Next(t, e);
    AcceptNewcomer(t.w, b);
    OwnerStays(t, e, a);
  }

  lemma RegistersOnList(cs: seq<Listed>, b: Fd, id: Id)
    requires b in Fds(cs) && b !in RegisteredFds(cs) && Acceptable(cs, id)
    ensures FirstAcceptable(cs, [id]) == id
    ensures Fds(WithId(cs, b, id)) == Fds(cs) && b in RegisteredFds(WithId(cs, b, id))
  {
    assert [id][0] in [id] && Acceptable(cs, [id][0]);
    SR.WithIdFds(cs, b, id);
    SR.WithIdRegistered(cs, b, id);
  }

  lemma RegisterWorld(w: SR.World, b: Fd, id: Id)
    requires w.s.on && b in Fds(w.s.clients) && b !in RegisteredFds(w.s.clients) && Acceptable(w.s.clients, id)
    ensures var e := SR.Recv(b, Register, {}, [id]);
      && SR.Enabled(w, e)
      && SR.Act(w, e).out == map[b := StatusOn]
      && SR.Act(w, e).s == w.s.(clients := WithId(w.s.clients, b, id))
  {
    assert [id][0] in [id] && Acceptable(w.s.clients, [id][0]);
    RegistersOnList(w.s.clients, b, id);
  }

  lemma Registers(s: P.Sys, t: P.Sys, a: Fd, b: Fd) returns (t': P.Sys)
    requires Stage(s, t, a, b) && b in t.conns && t.conns[b] == KNOCKING
    requires b in Fds(t.w.s.clients) && b !in RegisteredFds(t.w.s.clients)
    ensures Stage(s, t', a, b) && b in t'.conns && t'.conns[b] == WELCOME
    ensures b in RegisteredFds(t'.w.s.clients)
  {
    var id := FreshId(t.w.s.clients);
    RegisterWorld(t.w, b, id);
    RegistersOnList(t.w.s.clients, b, id);
    var e := P.Recv(b, {}, [id]);
    WayOn(s, t, e);
    t' := P.Next(t, e);
    StillConnected(t, e, {a, b});
    OwnerStays(t, e, a);
    Welcomed(t, e, b);
  }

  lemma Welcomed(t: P.Sys, e: P.Event, b: Fd)
    requires Linked(t) && P.Enabled(t, e) && e.Recv? && e.fd == b && t.w.s.on
    requires t.conns[b] == KNOCKING && b in P.Next(t, e).conns
    ensures P.Next(t, e).conns[b] == WELCOME
  {
    var input, out := SurvivorSteps(t, e, b);
  }

  lemma Joins(s: P.Sys, t: P.Sys, a: Fd, b: Fd) returns (t': P.Sys)
    requires Stage(s, t, a, b) && b in t.conns && t.conns[b] == WELCOME
    ensures Stage(s, t', a, b) && t'.w == t.w && b in t'.conns && t'.conns[b] == READY
  {
    var e := P.AtClient(b, C.Receive(StatusOn));
    WayOn(s, t, e);
    t' := P.Next(t, e);
  }

  lemma Asks(s: P.Sys, t: P.Sys, a: Fd, b: Fd) returns (t': P.Sys)
    requires Stage(s, t, a, b) && b in t.conns && t.conns[b] == READY
    ensures Stage(s, t', a, b) && t'.w == t.w && b in t'.conns
    ensures t'.conns[b].c2s == [ReqLock] && t'.conns[b].s2c == []
  {
    var e := P.AtClient(b, C.Ask);
    WayOn(s, t, e);
    t' := P.Next(t, e);
  }

  /** An idle scheduler grants a request at once. */
  lemma RequestWorld(w: SR.World, b: Fd)
    requires w.s.on && w.s.requests == [] && !w.s.lockHeld && b in RegisteredFds(w.s.clients)
    ensures SR.Enabled(w, SR.Recv(b, ReqLock, {}, []))
    ensures var e := SR.Recv(b, ReqLock, {}, []);
      && SR.Act(w, e).out == map[b := LockOk(w.s.round + 1)]
      && SR.Act(w, e).s == w.s.(requests := [b], lockHeld := true, round := w.s.round + 1, mustReset := true)
      && SR.Next(w, e).h.epoch == w.h.epoch
  {
    assert b in Fds(w.s.clients);
    assert [] + [b] == [b];
  }

  lemma IsGranted(s: P.Sys, t: P.Sys, a: Fd, b: Fd) returns (t': P.Sys)
    requires Stage(s, t, a, b) && b in t.conns && b in RegisteredFds(t.w.s.clients)
    requires t.conns[b].c2s == [ReqLock] && t.conns[b].s2c == []
    ensures OnWay(s, t') && a in t'.conns && OwnsUpToDate(t'.conns[a]) && Promised(t', b)
  {
    var e := P.Recv(b, {}, []);
    RequestWorld(t.w, b);
    WayOn(s, t, e);
    t' := P.Next(t, e);
    StillConnected(t, e, {a, b});
    OwnerStays(t, e, a);
    var input, out := SurvivorSteps(t, e, b);
    GrantAlone(View(t.w, b), View(t'.w, b), t.conns[b], input, out);
  }

  lemma NewcomerIsPromised(s: P.Sys, t: P.Sys, a: Fd) returns (t': P.Sys, b: Fd)
    requires OnWay(s, t) && a in t.conns && OwnsUpToDate(t.conns[a])
    requires t.w.s.on && t.w.s.requests == [] && !t.w.s.lockHeld
    ensures OnWay(s, t') && a in t'.conns && OwnsUpToDate(t'.conns[a]) && Promised(t', b) && a != b
  {
    b := FreshFd(t.w.s.clients);
    var t1 := Connects(s, t, a, b);
    var t2 := Registers(s, t1, a, b);
    var t3 := Joins(s, t2, a, b);
    var t4 := Asks(s, t3, a, b);
    t' := IsGranted(s, t4, a, b);
  }

  // -------------------------------------------------------------------- two owners

  /** After a harmful release the lock is free only if nobody is queued. */
  lemma FreeMeansIdle(s: P.Sys, e: P.Event)
    requires Basic(s) && Owning(s) && P.Enabled(s, e) && HarmfulAt(s, e)
    ensures var s' := P.Next(s, e).w.s; s'.on && (s'.lockHeld <==> s'.requests != [])
  {
    HarmLeavesClaim(s, e);
    LinkedKept(s, e);
    ST.WorkConservingStep(s.w, P.SchedulerEvent(s, e));
  }

  /**
    Harm is real in every case: from the state after a harmful release the system can
    go on to one in which two up-to-date clients own the lock.
   */
  lemma HarmLeadsToTwoOwners(s: P.Sys, e: P.Event) returns (t: P.Sys, a: Fd, b: Fd)
    requires Basic(s) && Owning(s) && P.Enabled(s, e) && HarmfulAt(s, e)
    ensures LeadsTo(P.Next(s, e), t) && a != b
    ensures a in t.conns && b in t.conns && OwnsUpToDate(t.conns[a]) && OwnsUpToDate(t.conns[b])
  {
    var s' := P.Next(s, e);
    a := e.fd;
    BasicKept(s, e);
    LeadsToItself(s');
    HarmLeavesClaim(s, e);
    FreeMeansIdle(s, e);
    var t1 := ClaimBecomesOwner(s', s', a);
    if s'.w.s.lockHeld {
      b := s'.w.s.requests[0];
      assert ST.Holds(s'.w.s, b);
      NextInLineIsPromised(s, e, b);
      t := ReadsUntilOwner(s', t1, b);
    } else {
      var t2;
      t2, b := NewcomerIsPromised(s', t1, a);
      t := ReadsUntilOwner(s', t2, b);
    }
  }

  /** In a run, the first harmful release is where mutual exclusion is lost: before it none is, from it on it can be. */
  lemma FirstHarmIsFatal(ss: seq<P.Sys>, es: seq<P.Event>, k: nat) returns (t: P.Sys, a: Fd, b: Fd)
    requires P.IsRun(ss, es) && k < |es| && NoHarm(ss, es, k) && HarmfulAt(ss[k], es[k])
    ensures LeadsTo(ss[k + 1], t) && a != b
    ensures a in t.conns && b in t.conns && OwnsUpToDate(t.conns[a]) && OwnsUpToDate(t.conns[b])
  {
    RunOwning(ss, es, k);
    t, a, b := HarmLeadsToTwoOwners(ss[k], es[k]);
  }
}
