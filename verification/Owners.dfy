/**
  Ownership of the lock on one connection: a LOCK_OK of the current epoch in flight,
  or a client that owns the lock by one. Only the holder's connection may carry such
  a claim, and at most one.

  This survives every step but one: a LOCK_RELEASED that is read from the holder
  while its claim is still there.
 */
module Owners {
  import opened Messages
  import opened SchedulerViews
  import opened ClientSpec
  import opened Channels
  import opened Protocol
  import opened Connections
  import opened Tokens
  import C = Client

  /** LOCK_OK in flight, plus ownership. */
  function ClaimCount(c: Conn, epoch: nat): nat {
    LiveOks(c.s2c, epoch) + LiveHold(c.cl, epoch)
  }

  predicate Exclusive(v: Env, c: Conn) {
    ClaimCount(c, v.epoch) <= if v.holder then 1 else 0
  }

  /** No grant is from the future, and those of this epoch are of the current round. */
  predicate GrantsBounded(v: Env, c: Conn) {
    && (forall m :: m in c.s2c && m.LockOk? ==>
          0 < m.round <= v.round && (m.round > v.epoch ==> m.round == v.round))
    && (c.cl.giver.Some? ==>
          c.cl.giver.value <= v.round && (c.cl.giver.value > v.epoch ==> c.cl.giver.value == v.round))
  }

  predicate OwnersOk(v: Env, c: Conn) {
    Exclusive(v, c) && GrantsBounded(v, c) && AgesOk(v, c)
  }

  /** The release that is read takes the lock from a client that owns it or is about to. */
  predicate Harmful(v: Env, c: Conn, input: Option<ToScheduler>) {
    v.holder && input.Some? && input.value.LockReleased? && ClaimCount(c, v.epoch) == 1
  }

  /** While tokens are conserved, only a stale release does harm. */
  lemma HarmIsStale(v: Env, c: Conn)
    requires ViewOk(v) && TokensOk(v, c) && c.c2s != [] && Harmful(v, c, Some(c.c2s[0]))
    ensures StaleRelease(v, Some(c.c2s[0]))
  {
    LiveReleasesNone(c.c2s, v.epoch);
    assert c.c2s[0] in c.c2s;
  }

  lemma ConservedIsExclusive(v: Env, c: Conn)
    requires TokensOk(v, c)
    ensures OwnersOk(v, c)
  {
  }

  // ------------------------------------------------------------- scheduler steps

  lemma NoClaims(v: Env, c: Conn)
    requires GrantsBounded(v, c)
    ensures ClaimCount(c, v.round) == 0
    ensures ClaimCount(c, v.epoch) == 0 <==>
      && (forall m :: m in c.s2c && m.LockOk? ==> m.round <= v.epoch)
      && (c.cl.giver.Some? ==> c.cl.giver.value <= v.epoch)
  {
    LiveOksNone(c.s2c, v.round);
    LiveOksNone(c.s2c, v.epoch);
  }

  lemma TurnedOffOwners(v: Env, v': Env, c: Conn, input: Option<ToScheduler>, out: Option<ToClient>)
    requires Steps(v, v', c, input, out) && TurnedOff(v, v', input, out)
    requires Shape(v, c) && OwnersOk(v, c)
    ensures OwnersOk(v', Moved(c, input, out))
  {
    NoClaims(v, c);
    if v.registered {
      LiveOksSnoc(c.s2c, v'.epoch, StatusOff);
      AgedOff(c.s2c, v'.epoch);
    }
  }

  lemma StatusOwners(v: Env, v': Env, c: Conn, input: Option<ToScheduler>, out: Option<ToClient>)
    requires Steps(v, v', c, input, out) && (TurnedOn(v, v', input, out) || Joined(v, v', input, out))
    requires Shape(v, c) && OwnersOk(v, c) && !v'.holder
    requires out.Some? ==> IsStatus(out.value) && (out.value.StatusOn? || c.s2c == [])
    ensures OwnersOk(v', Moved(c, input, out))
  {
    if out.Some? {
      LiveOksSnoc(c.s2c, v.epoch, out.value);
      if out.value.StatusOn? { AgedSnoc(c.s2c, v.epoch, out.value); }
    }
  }

  lemma OrdinaryOwners(v: Env, v': Env, c: Conn, input: Option<ToScheduler>, out: Option<ToClient>)
    requires Steps(v, v', c, input, out) && Ordinary(v, v', input, out)
    requires Shape(v, c) && OwnersOk(v, c) && !Harmful(v, c, input)
    ensures OwnersOk(v', Moved(c, input, out))
  {
    NoClaims(v, c);
    if out.Some? {
      LiveOksSnoc(c.s2c, v.epoch, out.value);
      AgedSnoc(c.s2c, v.epoch, out.value);
    }
  }

  lemma OwnersMoved(v: Env, v': Env, c: Conn, input: Option<ToScheduler>, out: Option<ToClient>)
    requires Steps(v, v', c, input, out) && Shape(v, c) && OwnersOk(v, c) && !Harmful(v, c, input)
    ensures OwnersOk(v', Moved(c, input, out))
  {
    if TurnedOff(v, v', input, out) {
      TurnedOffOwners(v, v', c, input, out);
    } else if TurnedOn(v, v', input, out) || Joined(v, v', input, out) {
      StatusOwners(v, v', c, input, out);
    } else {
      OrdinaryOwners(v, v', c, input, out);
    }
  }

  /** A harmful release leaves a claim, and a client that does not hold the lock. */
  lemma HarmBreaks(v: Env, v': Env, c: Conn, input: Option<ToScheduler>, out: Option<ToClient>)
    requires Steps(v, v', c, input, out) && Shape(v, c) && Harmful(v, c, input)
    ensures out == None && v'.on && !v'.holder && !v'.queued && v'.epoch == v.epoch
    ensures !Exclusive(v', Moved(c, input, out))
  {
  }

  /** A client that comes to hold the lock has a LOCK_OK on its way. */
  lemma GrantIsSent(v: Env, v': Env, c: Conn, input: Option<ToScheduler>, out: Option<ToClient>)
    requires Steps(v, v', c, input, out) && !v.holder && v'.holder
    ensures out == Some(LockOk(v'.round)) && LiveOks(Moved(c, input, out).s2c, v'.epoch) > 0
  {
    LiveOksSnoc(c.s2c, v'.epoch, LockOk(v'.round));
  }

  /** On an empty stream that LOCK_OK is all there is, and it is of this epoch. */
  lemma GrantAlone(v: Env, v': Env, c: Conn, input: Option<ToScheduler>, out: Option<ToClient>)
    requires Steps(v, v', c, input, out) && !v.holder && v'.holder && c.s2c == []
    ensures Aged(Moved(c, input, out).s2c, v'.epoch) && LiveOks(Moved(c, input, out).s2c, v'.epoch) > 0
  {
    GrantIsSent(v, v', c, input, out);
    AgedSnoc([], v'.epoch, LockOk(v'.round));
  }

  // ---------------------------------------------------------------- client steps

  lemma OwnersClientMoved(v: Env, c: Conn, e: C.Event)
    requires Shape(v, c) && RoundsOk(v, c) && OwnersOk(v, c) && ClientSteps(c, e)
    ensures OwnersOk(v, ClientMoved(c, e))
  {
    if e.Receive? { assert c.s2c == [c.s2c[0]] + c.s2c[1..]; }
  }

  /** A client that owns the lock and has read everything about the mode is the holder. */
  lemma ExclusiveOwner(v: Env, c: Conn)
    requires Shape(v, c) && OwnersOk(v, c)
    requires c.cl.phase == Running && c.cl.on && c.cl.own && StatusOff !in c.s2c
    ensures v.holder && c.cl.giver == Some(v.round)
  {
  }
}
