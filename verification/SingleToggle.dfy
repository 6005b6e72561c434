/**
  With at most one OFF-then-ON toggle, no stale release ever meets a fresh grant:
  a release of an old grant never has a request before it in its stream, and its
  sender is not queued until it has been read.
 */
module SingleToggle {
  import opened Messages
  import opened SchedulerViews
  import opened ClientSpec
  import opened Channels
  import opened Protocol
  import opened Connections
  import C = Client
  import opened Tokens

  /** Before the first ON toggle every grant counts as old, afterwards those of earlier epochs. */
  predicate Old(v: Env, r: nat) {
    v.ons == 0 || r <= v.epoch
  }

  /** The scheduler has been turned on again at most once, and not off since. */
  predicate Covered(v: Env) {
    v.ons == 0 || (v.ons == 1 && v.on)
  }

  /** Nothing asked for after the old grant can be overtaken by its release. */
  predicate Settled(v: Env, c: Conn) {
    ReqLock !in c.c2s && (v.ons == 1 ==> !v.queued)
  }

  predicate OneOldGrant(v: Env, chan: seq<ToClient>) {
    forall i, j :: 0 <= i < j < |chan| && chan[i].LockOk? && chan[j].LockOk? ==>
      !Old(v, chan[i].round) || !Old(v, chan[j].round)
  }

  predicate OldGrantsOk(v: Env, c: Conn) {
    && OneOldGrant(v, c.s2c)
    && (forall m :: m in c.s2c && m.LockOk? && Old(v, m.round) ==> c.cl.need && Settled(v, c))
    && (c.cl.giver.Some? && Old(v, c.cl.giver.value) ==> Settled(v, c))
  }

  predicate OldReleasesOk(v: Env, c: Conn) {
    forall i :: 0 <= i < |c.c2s| && c.c2s[i].LockReleased? && Old(v, c.c2s[i].round) ==>
      ReqLock !in c.c2s[..i] && (v.ons == 1 ==> !v.queued)
  }

  /** Before the first ON toggle: one request at a time, and it is wanted. */
  predicate FirstPhaseOk(v: Env, c: Conn) {
    v.ons == 0 ==>
      && (forall i :: 0 <= i < |c.c2s| - 1 ==> !c.c2s[i].ReqLock?)
      && (c.cl.on && ReqLock in c.c2s ==> c.cl.need)
      && (v.queued && !v.holder ==> c.cl.need && ReqLock !in c.c2s)
  }

  /** A joining client's first status is not a toggle. */
  function Toggles(c: Conn): seq<ToClient> {
    if c.cl.phase == Joining && c.s2c != [] then c.s2c[1..] else c.s2c
  }

  /** A client that has not joined yet has not asked for anything. */
  predicate NotAsked(v: Env, c: Conn) {
    !v.queued && forall m :: m in c.s2c ==> !m.LockOk?
  }

  predicate Single(v: Env, c: Conn) {
    && (c.cl.phase == Joining ==> NotAsked(v, c))
    && OnCount(Toggles(c)) <= v.ons
    && (c.cl.phase == Running && Covered(v) ==> OldGrantsOk(v, c) && OldReleasesOk(v, c) && FirstPhaseOk(v, c))
  }

  // ----------------------------------------------------------------- the counts

  lemma TogglesMoved(v: Env, v': Env, c: Conn, input: Option<ToScheduler>, out: Option<ToClient>)
    requires Steps(v, v', c, input, out) && Shape(v, c) && OnCount(Toggles(c)) <= v.ons
    ensures OnCount(Toggles(Moved(c, input, out))) <= v'.ons
  {
    if input.Some? { assert c.c2s[0] in c.c2s; }
    if out.Some? {
      OnCountSnoc(Toggles(c), out.value);
      if c.cl.phase == Joining && c.s2c != [] {
        assert (c.s2c + [out.value])[1..] == c.s2c[1..] + [out.value];
      } else if c.cl.phase == Joining {
        assert ([] + [out.value])[1..] == [];
      }
    }
  }

  /** Before the first ON toggle, a client of a scheduler that is on is on. */
  lemma OnFromTheStart(v: Env, c: Conn)
    requires Shape(v, c) && Single(v, c) && c.cl.phase == Running && v.ons == 0
    ensures v.on ==> c.cl.on && StatusOff !in c.s2c
    ensures !c.cl.on ==> c.s2c == [] && !v.on
  {
    StatusBalance(c.cl.on, c.s2c, v.on);
    OffCountMember(c.s2c);
  }

  // ------------------------------------------------------------- scheduler steps

  lemma OneOldGrantMoved(v: Env, v': Env, c: Conn, input: Option<ToScheduler>, out: Option<ToClient>)
    requires Steps(v, v', c, input, out) && TokensOk(v, c) && OneOldGrant(v, c.s2c)
    requires Covered(v) && Covered(v')
    ensures OneOldGrant(v', Moved(c, input, out).s2c)
  {
    if out.Some? && out.value.LockOk? {
      NoLiveTokens(v, c);
      assert forall i :: 0 <= i < |c.s2c| ==> c.s2c[i] in c.s2c;
    }
  }

  lemma OldGrantsMoved(v: Env, v': Env, c: Conn, input: Option<ToScheduler>, out: Option<ToClient>)
    requires Steps(v, v', c, input, out) && Shape(v, c) && TokensOk(v, c) && Single(v, c)
    requires c.cl.phase == Running && Covered(v) && Covered(v')
    ensures OldGrantsOk(v', Moved(c, input, out))
  {
    OneOldGrantMoved(v, v', c, input, out);
    if input.Some? { assert c.c2s == [c.c2s[0]] + c.c2s[1..]; }
    if v.ons == 0 && input == Some(ReqLock) {
      OnFromTheStart(v, c);
      OnlyRequest(c);
    }
  }

  lemma OnlyRequest(c: Conn)
    requires c.c2s != [] && c.c2s[0].ReqLock? && forall i :: 0 <= i < |c.c2s| - 1 ==> !c.c2s[i].ReqLock?
    ensures c.c2s == [ReqLock]
  {
  }

  lemma OldReleasesMoved(v: Env, v': Env, c: Conn, input: Option<ToScheduler>, out: Option<ToClient>)
    requires Steps(v, v', c, input, out) && Shape(v, c) && Single(v, c)
    requires c.cl.phase == Running && Covered(v) && Covered(v')
    ensures OldReleasesOk(v', Moved(c, input, out))
  {
    if input.Some? {
      assert c.c2s[0] in c.c2s;
      var rest := c.c2s[1..];
      forall i | 0 <= i < |rest| && rest[i].LockReleased? && Old(v', rest[i].round)
        ensures ReqLock !in rest[..i] && (v'.ons == 1 ==> !v'.queued)
      {
        assert c.c2s[i + 1] == rest[i];
        assert c.c2s[..i + 1] == [c.c2s[0]] + rest[..i];
      }
    }
  }

  lemma FirstPhaseMoved(v: Env, v': Env, c: Conn, input: Option<ToScheduler>, out: Option<ToClient>)
    requires Steps(v, v', c, input, out) && Shape(v, c) && Single(v, c)
    requires c.cl.phase == Running && Covered(v)
    ensures FirstPhaseOk(v', Moved(c, input, out))
  {
    if input.Some? { assert c.c2s == [c.c2s[0]] + c.c2s[1..]; }
    if v.ons == 0 && input == Some(ReqLock) {
      OnFromTheStart(v, c);
      OnlyRequest(c);
    }
  }

  lemma CoveredBefore(v: Env, v': Env, c: Conn, input: Option<ToScheduler>, out: Option<ToClient>)
    requires Steps(v, v', c, input, out) && Covered(v')
    ensures Covered(v)
  {
  }

  lemma SingleMoved(v: Env, v': Env, c: Conn, input: Option<ToScheduler>, out: Option<ToClient>)
    requires Steps(v, v', c, input, out) && Shape(v, c) && TokensOk(v, c) && Single(v, c)
    ensures Single(v', Moved(c, input, out))
  {
    TogglesMoved(v, v', c, input, out);
    if c.cl.phase == Running && Covered(v') {
      CoveredBefore(v, v', c, input, out);
      OldGrantsMoved(v, v', c, input, out);
      OldReleasesMoved(v, v', c, input, out);
      FirstPhaseMoved(v, v', c, input, out);
    }
  }

  // ---------------------------------------------------------------- client steps

  /** The client has just read a message in `Covered` circumstances. */
  predicate Reads(v: Env, c: Conn, m: ToClient) {
    && ViewOk(v) && Shape(v, c) && RoundsOk(v, c) && TokensOk(v, c) && Single(v, c) && Covered(v)
    && c.cl.phase == Running && ClientSteps(c, C.Receive(m))
  }

  lemma NoOldGrantsLeft(v: Env, c: Conn)
    requires Shape(v, c) && Single(v, c) && TokensOk(v, c) && c.cl.phase == Running && Covered(v)
    requires c.s2c != [] && IsStatus(c.s2c[0])
    ensures forall m :: m in c.s2c[1..] && m.LockOk? ==> !Old(v, m.round)
    ensures v.ons == 0 ==> c.s2c[0].StatusOff? && !v.on
  {
    StatusBalance(c.cl.on, c.s2c, v.on);
    OffCountMember(c.s2c[1..]);
    if v.ons == 0 {
      OnFromTheStart(v, c);
      var rest := c.s2c[1..];
      assert ModeOk(false, rest, v.on) && OnCount(rest) == 0;
      assert rest == [];
    } else {
      AgedFresh(c.s2c[1..], v.epoch);
    }
  }

  lemma ReadStatus(v: Env, c: Conn, m: ToClient)
    requires Reads(v, c, m) && IsStatus(m)
    ensures Single(v, ClientMoved(c, C.Receive(m)))
  {
    NoOldGrantsLeft(v, c);
    var c' := ClientMoved(c, C.Receive(m));
    assert c'.c2s == c.c2s && c'.s2c == c.s2c[1..];
    assert forall i :: 0 <= i < |c'.s2c| ==> c'.s2c[i] in c'.s2c;
  }

  lemma ReadGrant(v: Env, c: Conn, r: nat)
    requires Reads(v, c, LockOk(r))
    ensures Single(v, ClientMoved(c, C.Receive(LockOk(r))))
  {
    var c' := ClientMoved(c, C.Receive(LockOk(r)));
    assert c'.c2s == c.c2s && c'.s2c == c.s2c[1..];
    assert c.s2c[0] in c.s2c;
    forall m | m in c'.s2c && m.LockOk? ensures !Old(v, m.round) {
      if Old(v, r) {
        var j :| 0 <= j < |c'.s2c| && c'.s2c[j] == m;
        assert c.s2c[j + 1] == m;
      } else {
        AgedFresh(c'.s2c, v.epoch);
      }
    }
    assert forall i :: 0 <= i < |c'.s2c| ==> c'.s2c[i] in c'.s2c;
  }

  /** The lock is given back, by a drop or early. */
  lemma ReleaseSingle(v: Env, c: Conn, c': Conn)
    requires Shape(v, c) && Single(v, c) && c.cl.phase == Running && c.cl.on && c.cl.own
    requires c'.cl.phase == Running && c'.cl.on && c'.cl.need == c.cl.need && c'.cl.giver.None?
    requires c'.c2s == c.c2s + [LockReleased(HeldRound(c.cl))]
    requires c'.s2c == c.s2c || (c.s2c != [] && c.s2c[0].DropLock? && c'.s2c == c.s2c[1..])
    ensures Single(v, c')
  {
    if Covered(v) {
      SameOldGrants(v, c, c');
      forall i | 0 <= i < |c'.c2s| && c'.c2s[i].LockReleased? && Old(v, c'.c2s[i].round)
        ensures ReqLock !in c'.c2s[..i] && (v.ons == 1 ==> !v.queued)
      {
        assert c'.c2s[..i] == c.c2s[..i];
        if i == |c.c2s| { assert c.c2s[..i] == c.c2s; }
      }
    }
  }

  lemma SameOldGrants(v: Env, c: Conn, c': Conn)
    requires OldGrantsOk(v, c) && c'.cl.need == c.cl.need && c'.cl.giver.None?
    requires c'.c2s == c.c2s + [LockReleased(HeldRound(c.cl))]
    requires c'.s2c == c.s2c || (c.s2c != [] && c'.s2c == c.s2c[1..])
    ensures OldGrantsOk(v, c')
  {
    assert forall m :: m in c'.s2c ==> m in c.s2c;
  }

  lemma ReadDrop(v: Env, c: Conn, r: nat)
    requires Reads(v, c, DropLock(r))
    ensures Single(v, ClientMoved(c, C.Receive(DropLock(r))))
  {
    var c' := ClientMoved(c, C.Receive(DropLock(r)));
    if c.cl.own {
      ReleaseSingle(v, c, c');
    } else {
      assert c'.c2s == c.c2s && c'.s2c == c.s2c[1..];
      assert forall m :: m in c'.s2c ==> m in c.s2c;
    }
  }

  lemma JoinSingle(v: Env, c: Conn, m: ToClient)
    requires Shape(v, c) && Single(v, c) && c.cl.phase == Joining && ClientSteps(c, C.Receive(m))
    ensures Single(v, ClientMoved(c, C.Receive(m)))
  {
    var c' := ClientMoved(c, C.Receive(m));
    assert c'.c2s == [] && c'.s2c == Toggles(c);
    assert forall i :: 0 <= i < |c'.s2c| ==> c'.s2c[i] in c.s2c;
  }

  lemma AskSingle(v: Env, c: Conn)
    requires Shape(v, c) && Single(v, c) && c.cl.phase == Running
    ensures Single(v, ClientMoved(c, C.Ask))
  {
    var c' := ClientMoved(c, C.Ask);
    if c.cl.own || c.cl.need {
      assert c'.c2s == c.c2s;
    } else if Covered(v) {
      assert c'.c2s == c.c2s + [ReqLock];
      forall i | 0 <= i < |c'.c2s| && c'.c2s[i].LockReleased? ensures i < |c.c2s| && c'.c2s[..i] == c.c2s[..i] {
      }
    }
  }

  lemma EarlySingle(v: Env, c: Conn, e: C.Event)
    requires Shape(v, c) && Single(v, c) && ClientSteps(c, e) && !e.Receive? && !e.Ask?
    ensures Single(v, ClientMoved(c, e))
  {
    var c' := ClientMoved(c, e);
    if C.Next(c.cl, e).sent != [] {
      ReleaseSingle(v, c, c');
    } else {
      assert c'.c2s == c.c2s;
    }
  }

  lemma UncoveredReceive(v: Env, c: Conn, m: ToClient)
    requires Shape(v, c) && Single(v, c) && ClientSteps(c, C.Receive(m)) && c.cl.phase == Running && !Covered(v)
    ensures Single(v, ClientMoved(c, C.Receive(m)))
  {
  }

  lemma SingleClientMoved(v: Env, c: Conn, e: C.Event)
    requires ViewOk(v) && Shape(v, c) && RoundsOk(v, c) && TokensOk(v, c) && Single(v, c) && ClientSteps(c, e)
    ensures Single(v, ClientMoved(c, e))
  {
    match e {
      case Receive(m) =>
        if c.cl.phase == Joining { JoinSingle(v, c, m); }
        else if !Covered(v) { UncoveredReceive(v, c, m); }
        else if m.LockOk? { ReadGrant(v, c, m.round); }
        else if m.DropLock? { ReadDrop(v, c, m.round); }
        else { ReadStatus(v, c, m); }
      case Ask => AskSingle(v, c);
      case _ => EarlySingle(v, c, e);
    }
  }

  /** The point of it all: with at most one ON toggle a release is never stale. */
  lemma NoStaleRelease(v: Env, v': Env, c: Conn, input: Option<ToScheduler>, out: Option<ToClient>)
    requires Steps(v, v', c, input, out) && Shape(v, c) && TokensOk(v, c) && Single(v, c) && v.ons <= 1
    ensures !StaleRelease(v, input)
  {
    if input.Some? { assert c.c2s[0] in c.c2s; }
  }
}
