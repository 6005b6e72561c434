/**
  What holds of every connection in every run, whatever the toggles: the modes
  agree, no request is lost, and drops are never stale. Each invariant relates one
  connection to the scheduler's standing towards it, and is shown to survive every
  scheduler step as that connection sees it and every step of its client.
 */
module Connections {
  import opened Messages
  import opened SchedulerViews
  import opened ClientSpec
  import opened Channels
  import opened Protocol
  import C = Client

  // --------------------------------------------------------------- shape and mode

  predicate AppMsgs(ms: seq<ToScheduler>) {
    forall m :: m in ms ==> m.ReqLock? || m.LockReleased?
  }

  /** A client that is locally off owns the lock; one that needs it does not. */
  predicate FlagsOk(cl: ClientSpec.Client) {
    && (!cl.on ==> cl.own)
    && (cl.need ==> !cl.own)
    && (cl.giver.Some? <==> cl.on && cl.own)
    && (cl.waiting ==> cl.need)
  }

  predicate Blank(cl: ClientSpec.Client) {
    cl == Fresh(cl.phase)
  }

  /** Where the connection stands, and that the pending statuses lead to the scheduler's mode. */
  predicate Shape(v: Env, c: Conn) {
    match c.cl.phase
    case Ctl =>
      !v.registered && c.s2c == [] && Blank(c.cl) && forall m :: m in c.c2s ==> CtlMsg(m)
    case Joining =>
      && Blank(c.cl)
      && if v.registered then
           c.c2s == [] && c.s2c != [] && IsStatus(c.s2c[0]) && ModeOk(c.s2c[0].StatusOn?, c.s2c[1..], v.on)
         else c.c2s == [Register] && c.s2c == []
    case Running =>
      v.registered && AppMsgs(c.c2s) && ModeOk(c.cl.on, c.s2c, v.on) && FlagsOk(c.cl)
    case Aborted => false
  }

  /** The scheduler takes `input` off the connection and puts `out` on it. */
  predicate Steps(v: Env, v': Env, c: Conn, input: Option<ToScheduler>, out: Option<ToClient>) {
    && ViewOk(v) && ViewOk(v')
    && Seen(v, v', input, out)
    && (input.Some? ==> c.c2s != [] && c.c2s[0] == input.value)
  }

  lemma ShapeMoved(v: Env, v': Env, c: Conn, input: Option<ToScheduler>, out: Option<ToClient>)
    requires Steps(v, v', c, input, out) && Shape(v, c)
    ensures Shape(v', Moved(c, input, out))
  {
    if input.Some? { assert c.c2s[0] in c.c2s; }
    match c.cl.phase {
      case Ctl =>
      case Joining =>
        if v.registered && out.Some? {
          ModeSnoc(c.s2c[0].StatusOn?, c.s2c[1..], v.on, out.value);
          assert (c.s2c + [out.value])[1..] == c.s2c[1..] + [out.value];
        }
      case Running =>
        if out.Some? { ModeSnoc(c.cl.on, c.s2c, v.on, out.value); }
    }
  }

  /** The client may take the step. */
  predicate ClientSteps(c: Conn, e: C.Event) {
    C.Enabled(c.cl, e) && (e.Receive? ==> c.s2c != [] && c.s2c[0] == e.m)
  }

  lemma ShapeClientMoved(v: Env, c: Conn, e: C.Event)
    requires Shape(v, c) && ClientSteps(c, e)
    ensures Shape(v, ClientMoved(c, e))
  {
  }

  // ------------------------------------------------------------- no lost request

  predicate HasGrant(chan: seq<ToClient>) {
    exists m :: m in chan && m.LockOk?
  }

  /** Something is on its way that will wake the threads or make them ask again. */
  predicate Answered(v: Env, c: Conn) {
    || (c.c2s != [] && c.c2s[|c.c2s| - 1].ReqLock?)
    || (c.c2s == [] && (v.queued || HasGrant(c.s2c) || StatusOff in c.s2c))
  }

  predicate NotLost(v: Env, c: Conn) {
    c.cl.phase == Running && c.cl.need ==> Answered(v, c)
  }

  lemma NotLostMoved(v: Env, v': Env, c: Conn, input: Option<ToScheduler>, out: Option<ToClient>)
    requires Steps(v, v', c, input, out) && Shape(v, c) && NotLost(v, c)
    ensures NotLost(v', Moved(c, input, out))
  {
    if c.cl.phase == Running && c.cl.need {
      if input.Some? { assert c.c2s[0] in c.c2s; }
      if !v.on { OffIsComing(c.s2c); }
      var c' := Moved(c, input, out);
      assert forall m :: m in c.s2c ==> m in c'.s2c;
      if out.Some? { assert out.value in c'.s2c; }
    }
  }

  lemma NotLostClientMoved(v: Env, c: Conn, e: C.Event)
    requires Shape(v, c) && NotLost(v, c) && ClientSteps(c, e)
    ensures NotLost(v, ClientMoved(c, e))
  {
    if e.Receive? { assert c.s2c == [c.s2c[0]] + c.s2c[1..]; }
  }

  // ------------------------------------------------------------ rounds and drops

  /** Streams carry grants in order and drops for the grant before them. */
  predicate RoundsOk(v: Env, c: Conn) {
    && Chain(c.cl.grant, c.s2c)
    && LastGrant(c.cl.grant, c.s2c) <= v.round
    && (v.holder ==> LastGrant(c.cl.grant, c.s2c) == v.round)
    && (c.cl.giver.Some? ==> c.cl.giver.value == c.cl.grant && c.cl.grant > 0 && c.cl.grant !in c.cl.returned)
    && forall r :: r in c.cl.returned ==> r <= c.cl.grant
  }

  lemma RoundsMoved(v: Env, v': Env, c: Conn, input: Option<ToScheduler>, out: Option<ToClient>)
    requires Steps(v, v', c, input, out) && RoundsOk(v, c)
    ensures RoundsOk(v', Moved(c, input, out))
  {
    if out.Some? { ChainSnoc(c.cl.grant, c.s2c, out.value); }
  }

  lemma RoundsClientMoved(v: Env, c: Conn, e: C.Event)
    requires Shape(v, c) && RoundsOk(v, c) && ClientSteps(c, e)
    ensures RoundsOk(v, ClientMoved(c, e))
  {
  }

  /**
    A DROP_LOCK that reaches an owner is about the very grant it owns the lock by,
    and about a round it has not given back; a drop for a round already given back
    finds the client not owning and has no effect.
   */
  lemma DropIsNeverStale(v: Env, c: Conn, r: nat)
    requires Shape(v, c) && RoundsOk(v, c) && c.cl.phase == Running
    requires c.s2c != [] && c.s2c[0] == DropLock(r)
    ensures c.cl.own ==> c.cl.giver == Some(r) && r !in c.cl.returned
    ensures r in c.cl.returned ==> !c.cl.own && Consume(c.cl, DropLock(r)) == ClientEffect(c.cl, [])
  {
  }
}
