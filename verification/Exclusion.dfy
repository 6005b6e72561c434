/**
  When mutual exclusion holds, exactly: up to the first harmful release at most one
  up-to-date client owns the lock, and after a harmful release the system can always
  go on to a state with two.
 */
module Exclusion {
  import opened Messages
  import ST = SchedulerTheorems
  import C = Client
  import P = Protocol
  import opened SchedulerViews
  import opened Channels
  import opened Connections
  import opened Tokens
  import opened Owners
  import opened ProtocolTheorems

  // ---------------------------------------------------------------- up to the harm

  ghost predicate Owning(s: P.Sys) {
    forall fd :: fd in s.conns ==> OwnersOk(View(s.w, fd), s.conns[fd])
  }

  /** A release is read from a holder that owns the lock by a grant since the last OFF, or has one on its way. */
  predicate HarmfulAt(s: P.Sys, e: P.Event)
    requires P.Enabled(s, e)
  {
    e.Recv? && Harmful(View(s.w, e.fd), s.conns[e.fd], Some(s.conns[e.fd].c2s[0]))
  }

  lemma OwnersAt(s: P.Sys, e: P.Event, fd: Fd)
    requires Basic(s) && Owning(s) && P.Enabled(s, e) && fd in P.Next(s, e).conns
    requires !(e.Recv? && e.fd == fd && HarmfulAt(s, e))
    ensures OwnersOk(View(P.Next(s, e).w, fd), P.Next(s, e).conns[fd])
  {
    var v, v' := View(s.w, fd), View(P.Next(s, e).w, fd);
    if e.AtClient? {
      if fd == e.fd { OwnersClientMoved(v, s.conns[fd], e.e); }
    } else if fd in s.conns {
      var input, out := SurvivorSteps(s, e, fd);
      OwnersMoved(v, v', s.conns[fd], input, out);
    } else {
      NewcomerFits(s, e, fd);
      ConservedIsExclusive(v', P.Next(s, e).conns[fd]);
    }
  }

  /** The sender of a harmful release stays connected, and its claim with it. */
  lemma HarmLeavesClaim(s: P.Sys, e: P.Event)
    requires Basic(s) && Owning(s) && P.Enabled(s, e) && HarmfulAt(s, e)
    ensures e.fd in P.Next(s, e).conns
    ensures var v, c := View(P.Next(s, e).w, e.fd), P.Next(s, e).conns[e.fd];
      v.on && !v.holder && !v.queued && !Exclusive(v, c) && AgesOk(v, c)
  {
    ReleaseSurvives(s, e);
    var input, out := SurvivorSteps(s, e, e.fd);
    HarmBreaks(View(s.w, e.fd), View(P.Next(s, e).w, e.fd), s.conns[e.fd], input, out);
  }

  /** A step keeps ownership exclusive exactly when it does not read a harmful release. */
  lemma ExclusiveExactly(s: P.Sys, e: P.Event)
    requires Basic(s) && Owning(s) && P.Enabled(s, e)
    ensures Owning(P.Next(s, e)) <==> !HarmfulAt(s, e)
  {
    if HarmfulAt(s, e) {
      HarmLeavesClaim(s, e);
    } else {
      forall fd | fd in P.Next(s, e).conns
        ensures OwnersOk(View(P.Next(s, e).w, fd), P.Next(s, e).conns[fd])
      {
        OwnersAt(s, e, fd);
      }
    }
  }

  /** No harmful release is read before state `i`. */
  ghost predicate NoHarm(ss: seq<P.Sys>, es: seq<P.Event>, i: nat)
    requires P.IsRun(ss, es) && i < |ss|
  {
    forall k :: 0 <= k < i ==> !HarmfulAt(ss[k], es[k])
  }

  lemma {:induction false} RunOwning(ss: seq<P.Sys>, es: seq<P.Event>, i: nat)
    requires P.IsRun(ss, es) && i < |ss| && NoHarm(ss, es, i)
    ensures Basic(ss[i]) && Owning(ss[i])
  {
    RunBasic(ss, es, i);
    if i == 0 {
    } else {
      RunOwning(ss, es, i - 1);
      assert ss[i] == P.Next(ss[i - 1], es[i - 1]);
      ExclusiveExactly(ss[i - 1], es[i - 1]);
    }
  }

  /** Only stale releases do harm: a run without them has none. */
  lemma HarmNeedsStale(ss: seq<P.Sys>, es: seq<P.Event>, i: nat)
    requires P.IsRun(ss, es) && i < |ss| && NoStale(ss, es, i)
    ensures NoHarm(ss, es, i)
  {
    forall k | 0 <= k < i ensures !HarmfulAt(ss[k], es[k]) {
      RunSafe(ss, es, k);
      if es[k].Recv? && HarmfulAt(ss[k], es[k]) {
        InvGivesViewOk(ss[k].w, es[k].fd);
        HarmIsStale(View(ss[k].w, es[k].fd), ss[k].conns[es[k].fd]);
      }
    }
  }

  /**
    Mutual exclusion up to the first harmful release, however many stale ones are
    read before it: two up-to-date owners are one and the same client, the queue
    head, and own the lock by the current grant.
   */
  lemma ExclusionWithoutHarm(ss: seq<P.Sys>, es: seq<P.Event>, i: nat, a: Fd, b: Fd)
    requires P.IsRun(ss, es) && i < |ss| && NoHarm(ss, es, i)
    requires a in ss[i].conns && b in ss[i].conns
    requires OwnsUpToDate(ss[i].conns[a]) && OwnsUpToDate(ss[i].conns[b])
    ensures a == b && ST.Holds(ss[i].w.s, a)
    ensures ss[i].conns[a].cl.giver == Some(ss[i].w.s.round)
  {
    RunOwning(ss, es, i);
    ExclusiveOwner(View(ss[i].w, a), ss[i].conns[a]);
    ExclusiveOwner(View(ss[i].w, b), ss[i].conns[b]);
  }

  // ------------------------------------------------------------- and after the harm

  ghost predicate Path(ss: seq<P.Sys>, es: seq<P.Event>, s: P.Sys, t: P.Sys) {
    && |ss| == |es| + 1 && ss[0] == s && ss[|es|] == t
    && forall i :: 0 <= i < |es| ==> P.Enabled(ss[i], es[i]) && ss[i + 1] == P.Next(ss[i], es[i])
  }

  ghost predicate LeadsTo(s: P.Sys, t: P.Sys) {
    exists ss, es :: Path(ss, es, s, t)
  }

  lemma LeadsToItself(s: P.Sys)
    ensures LeadsTo(s, s)
  {
    assert Path([s], [], s, s);
  }

  lemma LeadsOn(s: P.Sys, t: P.Sys, e: P.Event)
    requires LeadsTo(s, t) && P.Enabled(t, e)
    ensures LeadsTo(s, P.Next(t, e))
  {
    var ss, es :| Path(ss, es, s, t);
    var ss', es' := ss + [P.Next(t, e)], es + [e];
    forall i | 0 <= i < |es'| ensures P.Enabled(ss'[i], es'[i]) && ss'[i + 1] == P.Next(ss'[i], es'[i]) {
      if i < |es| { assert ss'[i] == ss[i] && es'[i] == es[i] && ss'[i + 1] == ss[i + 1]; }
    }
    assert Path(ss', es', s, P.Next(t, e));
  }

  /** A state on the way, from which the invariants still hold. */
  ghost predicate OnWay(s: P.Sys, t: P.Sys) {
    LeadsTo(s, t) && Basic(t)
  }

  lemma WayOn(s: P.Sys, t: P.Sys, e: P.Event)
    requires OnWay(s, t) && P.Enabled(t, e)
    ensures OnWay(s, P.Next(t, e))
  {
    LeadsOn(s, t, e);
    BasicKept(t, e);
  }

  /** A grant of this epoch is on its way to the client. */
  predicate Promised(t: P.Sys, fd: Fd) {
    fd in t.conns && Aged(t.conns[fd].s2c, t.w.h.epoch) && LiveOks(t.conns[fd].s2c, t.w.h.epoch) > 0
  }

  /** Reading the next message brings the client closer to the grant, or gives it the lock. */
  lemma ReadsOn(v: Env, c: P.Conn)
    requires Shape(v, c) && Aged(c.s2c, v.epoch) && LiveOks(c.s2c, v.epoch) > 0
    ensures c.s2c != [] && ClientSteps(c, C.Receive(c.s2c[0]))
    ensures var c' := P.ClientMoved(c, C.Receive(c.s2c[0]));
      OwnsUpToDate(c') || (Aged(c'.s2c, v.epoch) && LiveOks(c'.s2c, v.epoch) > 0)
  {
    if c.s2c[0].LockOk? && c.s2c[0].round > v.epoch {
      assert StatusOff !in c.s2c[1..];
    }
  }

  /** A client that is promised the lock reads its messages until it owns it; nobody else moves. */
  lemma {:induction false} ReadsUntilOwner(s: P.Sys, t: P.Sys, fd: Fd) returns (t': P.Sys)
    requires OnWay(s, t) && Promised(t, fd)
    ensures OnWay(s, t') && t'.w == t.w
    ensures fd in t'.conns && OwnsUpToDate(t'.conns[fd])
    ensures t'.conns.Keys == t.conns.Keys && forall x :: x in t.conns && x != fd ==> t'.conns[x] == t.conns[x]
    decreases |t.conns[fd].s2c|
  {
    var c := t.conns[fd];
    ReadsOn(View(t.w, fd), c);
    var e := P.AtClient(fd, C.Receive(c.s2c[0]));
    WayOn(s, t, e);
    t' := P.Next(t, e);
    if !OwnsUpToDate(t'.conns[fd]) {
      t' := ReadsUntilOwner(s, t', fd);
    }
  }

  /** A client with a claim owns the lock already, or is promised it. */
  lemma ClaimIsOwner(v: Env, c: P.Conn)
    requires Shape(v, c) && AgesOk(v, c) && ClaimCount(c, v.epoch) > 0 && LiveOks(c.s2c, v.epoch) == 0
    ensures OwnsUpToDate(c)
  {
  }

  lemma ClaimBecomesOwner(s: P.Sys, t: P.Sys, fd: Fd) returns (t': P.Sys)
    requires OnWay(s, t) && fd in t.conns
    requires AgesOk(View(t.w, fd), t.conns[fd]) && ClaimCount(t.conns[fd], t.w.h.epoch) > 0
    ensures OnWay(s, t') && t'.w == t.w
    ensures fd in t'.conns && OwnsUpToDate(t'.conns[fd])
    ensures t'.conns.Keys == t.conns.Keys && forall x :: x in t.conns && x != fd ==> t'.conns[x] == t.conns[x]
  {
    if LiveOks(t.conns[fd].s2c, t.w.h.epoch) > 0 {
      t' := ReadsUntilOwner(s, t, fd);
    } else {
      ClaimIsOwner(View(t.w, fd), t.conns[fd]);
      t' := t;
    }
  }
}
