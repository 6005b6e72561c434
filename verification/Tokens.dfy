/**
  Token conservation. A grant of the current epoch is a token: first a LOCK_OK in
  flight, then a client that owns the lock by it, then a LOCK_RELEASED in flight.
  The holder's connection has exactly one, every other connection none.

  This survives every step but one: a LOCK_RELEASED from before a toggle that is
  read while its sender holds the lock under a newer grant.
 */
module Tokens {
  import opened Messages
  import opened SchedulerViews
  import opened ClientSpec
  import opened Channels
  import opened Protocol
  import opened Connections
  import C = Client

  function LiveHold(cl: ClientSpec.Client, epoch: nat): nat {
    if cl.giver.Some? && cl.giver.value > epoch then 1 else 0
  }

  /** LOCK_OK in flight, plus ownership, plus LOCK_RELEASED in flight. */
  function TokenCount(c: Conn, epoch: nat): nat {
    LiveOks(c.s2c, epoch) + LiveHold(c.cl, epoch) + LiveReleases(c.c2s, epoch)
  }

  predicate Conserved(v: Env, c: Conn) {
    TokenCount(c, v.epoch) == if v.holder then 1 else 0
  }

  /** No token is from the future, and those of this epoch are of the current round. */
  predicate RoundsBounded(v: Env, c: Conn) {
    && (forall m :: m in c.s2c && m.LockOk? ==>
          0 < m.round <= v.round && (m.round > v.epoch ==> m.round == v.round))
    && (forall m :: m in c.c2s && m.LockReleased? ==>
          0 < m.round <= v.round && (m.round > v.epoch ==> m.round == v.round))
    && (c.cl.giver.Some? ==>
          c.cl.giver.value <= v.round && (c.cl.giver.value > v.epoch ==> c.cl.giver.value == v.round))
  }

  /** A grant is of an earlier epoch exactly when the OFF that ended it is still unread. */
  predicate AgesOk(v: Env, c: Conn) {
    && Aged(c.s2c, v.epoch)
    && (c.cl.giver.Some? ==> (c.cl.giver.value <= v.epoch <==> StatusOff in c.s2c))
  }

  predicate TokensOk(v: Env, c: Conn) {
    Conserved(v, c) && RoundsBounded(v, c) && AgesOk(v, c)
  }

  /** The release that is read gives back an old grant, and would cancel a new one. */
  predicate StaleRelease(v: Env, input: Option<ToScheduler>) {
    v.holder && input.Some? && input.value.LockReleased? && input.value.round != v.round
  }

  // ------------------------------------------------------------- scheduler steps

  lemma NoLiveTokens(v: Env, c: Conn)
    requires RoundsBounded(v, c)
    ensures TokenCount(c, v.round) == 0
    ensures TokenCount(c, v.epoch) == 0 <==>
      && (forall m :: m in c.s2c && m.LockOk? ==> m.round <= v.epoch)
      && (forall m :: m in c.c2s && m.LockReleased? ==> m.round <= v.epoch)
      && (c.cl.giver.Some? ==> c.cl.giver.value <= v.epoch)
  {
    LiveOksNone(c.s2c, v.round);
    LiveReleasesNone(c.c2s, v.round);
    LiveOksNone(c.s2c, v.epoch);
    LiveReleasesNone(c.c2s, v.epoch);
  }

  lemma TurnedOffTokens(v: Env, v': Env, c: Conn, input: Option<ToScheduler>, out: Option<ToClient>)
    requires Steps(v, v', c, input, out) && TurnedOff(v, v', input, out)
    requires Shape(v, c) && TokensOk(v, c)
    ensures TokensOk(v', Moved(c, input, out))
  {
    NoLiveTokens(v, c);
    if input.Some? { assert c.c2s == [c.c2s[0]] + c.c2s[1..]; }
    if v.registered {
      LiveOksSnoc(c.s2c, v'.epoch, StatusOff);
      AgedOff(c.s2c, v'.epoch);
    }
  }

  lemma StatusTokens(v: Env, v': Env, c: Conn, input: Option<ToScheduler>, out: Option<ToClient>)
    requires Steps(v, v', c, input, out) && (TurnedOn(v, v', input, out) || Joined(v, v', input, out))
    requires Shape(v, c) && TokensOk(v, c) && !v'.holder
    requires out.Some? ==> IsStatus(out.value) && (out.value.StatusOn? || c.s2c == [])
    ensures TokensOk(v', Moved(c, input, out))
  {
    if input.Some? { assert c.c2s == [c.c2s[0]] + c.c2s[1..]; }
    if out.Some? {
      LiveOksSnoc(c.s2c, v.epoch, out.value);
      if out.value.StatusOn? { AgedSnoc(c.s2c, v.epoch, out.value); }
    }
  }

  /** Reading a message can only take a release out of the stream. */
  lemma ReadTokens(c: Conn, epoch: nat)
    requires c.c2s != []
    ensures TokenCount(c, epoch) == TokenCount(Moved(c, Some(c.c2s[0]), None), epoch)
      + if c.c2s[0].LockReleased? && c.c2s[0].round > epoch then 1 else 0
  {
  }

  lemma OrdinaryBounds(v: Env, v': Env, c: Conn, input: Option<ToScheduler>, out: Option<ToClient>)
    requires Steps(v, v', c, input, out) && Ordinary(v, v', input, out)
    requires Shape(v, c) && TokensOk(v, c) && !StaleRelease(v, input)
    ensures RoundsBounded(v', Moved(c, input, out))
  {
    NoLiveTokens(v, c);
    if input.Some? {
      assert c.c2s == [c.c2s[0]] + c.c2s[1..];
      ReadTokens(c, v.epoch);
      NoLiveTokens(v, Moved(c, input, None));
    }
  }

  lemma OrdinaryTokens(v: Env, v': Env, c: Conn, input: Option<ToScheduler>, out: Option<ToClient>)
    requires Steps(v, v', c, input, out) && Ordinary(v, v', input, out)
    requires Shape(v, c) && TokensOk(v, c) && !StaleRelease(v, input)
    ensures TokensOk(v', Moved(c, input, out))
  {
    OrdinaryBounds(v, v', c, input, out);
    if input.Some? {
      assert c.c2s[0] in c.c2s;
      ReadTokens(c, v.epoch);
    }
    if out.Some? {
      LiveOksSnoc(c.s2c, v.epoch, out.value);
      AgedSnoc(c.s2c, v.epoch, out.value);
    }
  }

  lemma TokensMoved(v: Env, v': Env, c: Conn, input: Option<ToScheduler>, out: Option<ToClient>)
    requires Steps(v, v', c, input, out) && Shape(v, c) && TokensOk(v, c) && !StaleRelease(v, input)
    ensures TokensOk(v', Moved(c, input, out))
  {
    if TurnedOff(v, v', input, out) {
      TurnedOffTokens(v, v', c, input, out);
    } else if TurnedOn(v, v', input, out) || Joined(v, v', input, out) {
      StatusTokens(v, v', c, input, out);
    } else {
      OrdinaryTokens(v, v', c, input, out);
    }
  }

  /** The exception is real: such a release leaves a token that nobody holds the lock for. */
  lemma StaleReleaseBreaks(v: Env, v': Env, c: Conn, input: Option<ToScheduler>, out: Option<ToClient>)
    requires Steps(v, v', c, input, out) && Shape(v, c) && TokensOk(v, c) && StaleRelease(v, input)
    ensures !Conserved(v', Moved(c, input, out))
  {
    assert c.c2s[0] in c.c2s;
    ReadTokens(c, v.epoch);
  }

  // ---------------------------------------------------------------- client steps

  lemma ReceiveTokens(v: Env, c: Conn, m: ToClient)
    requires Shape(v, c) && RoundsOk(v, c) && TokensOk(v, c) && ClientSteps(c, C.Receive(m))
    ensures TokensOk(v, ClientMoved(c, C.Receive(m)))
  {
    assert c.s2c == [c.s2c[0]] + c.s2c[1..];
    LiveReleasesSnoc(c.c2s, v.epoch, LockReleased(HeldRound(c.cl)));
    assert c.c2s + [] == c.c2s;
  }

  lemma OtherTokens(v: Env, c: Conn, e: C.Event)
    requires Shape(v, c) && RoundsOk(v, c) && TokensOk(v, c) && ClientSteps(c, e) && !e.Receive?
    ensures TokensOk(v, ClientMoved(c, e))
  {
    LiveReleasesSnoc(c.c2s, v.epoch, LockReleased(HeldRound(c.cl)));
    LiveReleasesSnoc(c.c2s, v.epoch, ReqLock);
    assert c.c2s + [] == c.c2s;
  }

  lemma TokensClientMoved(v: Env, c: Conn, e: C.Event)
    requires Shape(v, c) && RoundsOk(v, c) && TokensOk(v, c) && ClientSteps(c, e)
    ensures TokensOk(v, ClientMoved(c, e))
  {
    if e.Receive? { ReceiveTokens(v, c, e.m); } else { OtherTokens(v, c, e); }
  }

  /** A client that owns the lock and has read everything about the mode is the holder. */
  lemma OwnerIsHolder(v: Env, c: Conn)
    requires Shape(v, c) && TokensOk(v, c)
    requires c.cl.phase == Running && c.cl.on && c.cl.own && StatusOff !in c.s2c
    ensures v.holder && c.cl.giver == Some(v.round)
  {
  }
}
