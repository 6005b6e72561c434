/**
  Demand for the lock, as long as the scheduler is never turned off: a client that needs
  the lock has exactly one thing under way that will get it, and no other client has any.
 */
module Demand {
  import opened Messages
  import opened SchedulerViews
  import CS = ClientSpec
  import opened Channels
  import P = Protocol
  import opened Connections
  import opened Tokens
  import opened SingleToggle
  import opened ProtocolTheorems
  import C = Client

  /** REQ_LOCK in flight, plus a request queued and not granted, plus LOCK_OK in flight. */
  function DemandCount(v: Env, c: P.Conn): nat {
    Requests(c.c2s) + (if v.queued && !v.holder then 1 else 0) + Oks(c.s2c)
  }

  /** Before the first toggle. */
  predicate Untouched(v: Env, c: P.Conn) {
    c.cl.phase == CS.Running && v.on && v.ons == 0
  }

  predicate DemandOk(v: Env, c: P.Conn) {
    Untouched(v, c) ==> DemandCount(v, c) == if c.cl.need then 1 else 0
  }

  ghost predicate Settled(v: Env, c: P.Conn) {
    ViewOk(v) && Shape(v, c) && NotLost(v, c) && RoundsOk(v, c) && TokensOk(v, c) && Single(v, c) && DemandOk(v, c)
  }

  lemma {:induction false} LastIsCounted(chan: seq<ToScheduler>)
    requires chan != [] && chan[|chan| - 1].ReqLock?
    ensures Requests(chan) >= 1
    ensures |chan| > 1 && chan[0].ReqLock? ==> Requests(chan) >= 2
  {
    if |chan| == 1 {
    } else {
      LastIsCounted(chan[1..]);
    }
  }

  /** A request is never read from the client that holds the lock. */
  lemma RequesterIsNotHolder(v: Env, c: P.Conn)
    requires Settled(v, c) && Untouched(v, c) && c.c2s != [] && c.c2s[0].ReqLock?
    ensures !v.holder && !v.queued
  {
    LastIsCounted(c.c2s);
    assert c.c2s == [ReqLock];
    LiveOksAll(c.s2c);
    assert LiveReleases(c.c2s, v.epoch) == 0;
  }

  /** A release is read only from the client that holds the lock. */
  lemma ReleaserIsHolder(v: Env, c: P.Conn)
    requires Settled(v, c) && Untouched(v, c) && c.c2s != [] && c.c2s[0].LockReleased?
    ensures v.holder
  {
    assert c.c2s[0] in c.c2s;
    ReadTokens(c, v.epoch);
  }

  lemma DemandMoved(v: Env, v': Env, c: P.Conn, input: Option<ToScheduler>, out: Option<ToClient>)
    requires Steps(v, v', c, input, out) && Settled(v, c)
    ensures DemandOk(v', P.Moved(c, input, out))
  {
    if Untouched(v', P.Moved(c, input, out)) {
      if input.Some? {
        assert c.c2s[0] in c.c2s;
        if c.c2s[0].ReqLock? { RequesterIsNotHolder(v, c); } else { ReleaserIsHolder(v, c); }
      }
      if out.Some? { OksSnoc(c.s2c, out.value); }
    }
  }

  lemma ReceiveDemand(v: Env, c: P.Conn, m: ToClient)
    requires Settled(v, c) && ClientSteps(c, C.Receive(m))
    ensures DemandOk(v, P.ClientMoved(c, C.Receive(m)))
  {
    RequestsSnoc(c.c2s, LockReleased(CS.HeldRound(c.cl)));
    assert c.c2s + [] == c.c2s && c.s2c == [c.s2c[0]] + c.s2c[1..];
    if c.cl.phase == CS.Joining { NoOks(c.s2c); }
    if Untouched(v, c) { OnFromTheStart(v, c); }
  }

  lemma OtherDemand(v: Env, c: P.Conn, e: C.Event)
    requires Settled(v, c) && ClientSteps(c, e) && !e.Receive?
    ensures DemandOk(v, P.ClientMoved(c, e))
  {
    RequestsSnoc(c.c2s, ReqLock);
    RequestsSnoc(c.c2s, LockReleased(CS.HeldRound(c.cl)));
    assert c.c2s + [] == c.c2s;
  }

  lemma DemandClientMoved(v: Env, c: P.Conn, e: C.Event)
    requires Settled(v, c) && ClientSteps(c, e)
    ensures DemandOk(v, P.ClientMoved(c, e))
  {
    if e.Receive? { ReceiveDemand(v, c, e.m); } else { OtherDemand(v, c, e); }
  }

  lemma {:induction false} NoOks(chan: seq<ToClient>)
    requires forall m :: m in chan ==> !m.LockOk?
    ensures Oks(chan) == 0
  {
    if chan == [] {
    } else {
      assert chan[0] in chan;
      NoOks(chan[1..]);
    }
  }

  // ----------------------------------------------------------------- whole runs

  ghost predicate Demanding(s: P.Sys) {
    forall fd :: fd in s.conns ==> DemandOk(View(s.w, fd), s.conns[fd])
  }

  lemma SettledAt(s: P.Sys, fd: Fd)
    requires Basic(s) && Conserving(s) && Singular(s) && Demanding(s) && fd in s.conns
    ensures Settled(View(s.w, fd), s.conns[fd])
  {
    InvGivesViewOk(s.w, fd);
  }

  lemma DemandAt(s: P.Sys, e: P.Event, fd: Fd)
    requires Basic(s) && Conserving(s) && Singular(s) && Demanding(s) && P.Enabled(s, e) && fd in P.Next(s, e).conns
    ensures DemandOk(View(P.Next(s, e).w, fd), P.Next(s, e).conns[fd])
  {
    if e.AtClient? {
      SettledAt(s, fd);
      if fd == e.fd { DemandClientMoved(View(s.w, fd), s.conns[fd], e.e); }
    } else if fd in s.conns {
      SettledAt(s, fd);
      var input, out := SurvivorSteps(s, e, fd);
      DemandMoved(View(s.w, fd), View(P.Next(s, e).w, fd), s.conns[fd], input, out);
    } else {
      NewcomerFits(s, e, fd);
    }
  }

  lemma {:induction false} RunDemands(ss: seq<P.Sys>, es: seq<P.Event>, i: nat)
    requires P.IsRun(ss, es) && i < |ss| && NoStale(ss, es, i)
    ensures Demanding(ss[i])
  {
    if i == 0 {
    } else {
      RunDemands(ss, es, i - 1);
      RunSafe(ss, es, i - 1);
      assert ss[i] == P.Next(ss[i - 1], es[i - 1]);
      forall fd | fd in ss[i].conns ensures DemandOk(View(ss[i].w, fd), ss[i].conns[fd]) {
        DemandAt(ss[i - 1], es[i - 1], fd);
      }
    }
  }

  /**
    In every run in which the scheduler was never turned off: REQ_LOCK in flight, a queued request
    that is not granted, and LOCK_OK in flight add up to one for a client that needs the
    lock, and to zero for one that does not. No request is asked twice, none is forgotten.
   */
  lemma DemandConservation(ss: seq<P.Sys>, es: seq<P.Event>, i: nat, fd: Fd)
    requires P.IsRun(ss, es) && i < |ss| && ss[i].w.s.on && ss[i].w.h.ons == 0
    requires fd in ss[i].conns && ss[i].conns[fd].cl.phase == CS.Running
    ensures var c, s := ss[i].conns[fd], ss[i].w.s;
      var queued := fd in s.requests && !(s.lockHeld && s.requests[0] == fd);
      Requests(c.c2s) + (if queued then 1 else 0) + Oks(c.s2c) == if c.cl.need then 1 else 0
  {
    OneToggleIsSafe(ss, es, i);
    RunDemands(ss, es, i);
  }
}
