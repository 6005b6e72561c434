/**
  Runs of the scheduler alone, against peers that may send anything: every
  interleaving of connections, messages, failures and timer returns.

  A `World` is the scheduler's state, the timer thread's locals, and a history
  that the operations never read: it only records what happened.
 */
module SchedulerRuns {
  import opened Messages
  import opened SchedulerSpec

  /**
    `granted` is whoever got a LOCK_OK the last time one was sent. `epoch` is
    the round counter when the scheduler was last turned off, `ons` how often it
    was turned on. `told` is the last round in which a DROP_LOCK was sent.
    `heldThroughout` says that one and the same grant has been in force ever
    since the timer's current interval began.
   */
  datatype History = History(
    granted: set<Fd>,
    epoch: nat,
    ons: nat,
    told: nat,
    heldThroughout: bool)

  datatype World = World(s: Sched, t: Timer, h: History)

  const START: World := World(INITIAL, Timer(0, false), History({}, 0, 0, 0, false))

  datatype Event =
    | Accept(fd: Fd)
    | Recv(fd: Fd, m: ToScheduler, dead: set<Fd>, draws: seq<Id>)
    | Drop(fd: Fd, dead: set<Fd>)
    | Timeout(dead: set<Fd>)
    | Wake

  /** New descriptors are not in use; an event names a client that is still listed. */
  predicate Enabled(w: World, e: Event) {
    match e
    case Accept(fd) => fd !in Fds(w.s.clients)
    case Recv(fd, m, _, draws) =>
      fd in Fds(w.s.clients) && (m.Register? ==> CanRegister(w.s, fd, draws))
    case Drop(fd, _) => fd in Fds(w.s.clients)
    case Timeout(_) => w.s.lockHeld ==> w.s.requests != []
    case Wake => true
  }

  /** The event's effect on the scheduler and the timer thread. */
  function Act(w: World, e: Event): TimerEffect
    requires Enabled(w, e)
  {
    match e
    case Accept(fd) => TimerEffect(AcceptClient(w.s, fd), w.t, map[])
    case Recv(fd, m, dead, draws) =>
      var r := ProcessMsg(w.s, fd, m, dead, draws);
      TimerEffect(r.s, w.t, r.out)
    case Drop(fd, dead) =>
      var r := Hangup(w.s, fd, dead);
      TimerEffect(r.s, w.t, r.out)
    case Timeout(dead) => TimerTimeout(w.s, w.t, dead)
    case Wake => TimerWake(w.s, w.t)
  }

  function Grantees(out: Out): set<Fd> {
    set fd | fd in out && out[fd].LockOk?
  }

  function ToldToDrop(out: Out): set<Fd> {
    set fd | fd in out && out[fd].DropLock?
  }

  predicate RestartsInterval(w: World, e: Event) {
    e.Timeout? || (e.Wake? && w.s.mustReset)
  }

  function Record(w: World, e: Event, a: TimerEffect): History {
    History(
      if Grantees(a.out) != {} then Grantees(a.out) else w.h.granted,
      if w.s.on && !a.s.on then a.s.round else w.h.epoch,
      if !w.s.on && a.s.on then w.h.ons + 1 else w.h.ons,
      if ToldToDrop(a.out) != {} then w.s.round else w.h.told,
      if RestartsInterval(w, e) then a.s.lockHeld
      else w.h.heldThroughout && a.s.lockHeld && a.s.round == w.s.round)
  }

  function Next(w: World, e: Event): World
    requires Enabled(w, e)
  {
    var a := Act(w, e);
    World(a.s, a.t, Record(w, e, a))
  }

  // ---------------------------------------------------------------- list facts

  predicate DistinctFds(clients: seq<Listed>) {
    forall i, j :: 0 <= i < j < |clients| ==> clients[i].fd != clients[j].fd
  }

  predicate DistinctIds(clients: seq<Listed>) {
    forall i, j :: 0 <= i < j < |clients| ==>
      clients[i].id != clients[j].id || clients[i].id == UNREGISTERED_ID
  }

  lemma {:induction false} WithoutFacts(q: seq<Fd>, gone: set<Fd>)
    ensures forall x :: x in Without(q, gone) <==> x in q && x !in gone
    ensures Distinct(q) ==> Distinct(Without(q, gone))
    ensures q != [] && q[0] !in gone ==> Without(q, gone) != [] && Without(q, gone)[0] == q[0]
  {
    if q == [] {
    } else {
      WithoutFacts(q[1..], gone);
      assert q == [q[0]] + q[1..];
    }
  }

  lemma {:induction false} WithoutClientsMembers(cs: seq<Listed>, gone: set<Fd>)
    ensures forall c :: c in WithoutClients(cs, gone) <==> c in cs && c.fd !in gone
  {
    if cs == [] {
    } else {
      WithoutClientsMembers(cs[1..], gone);
      assert cs == [cs[0]] + cs[1..];
    }
  }

  lemma WithoutClientsSets(cs: seq<Listed>, gone: set<Fd>)
    ensures Fds(WithoutClients(cs, gone)) == Fds(cs) - gone
    ensures RegisteredFds(WithoutClients(cs, gone)) == RegisteredFds(cs) - gone
  {
    WithoutClientsMembers(cs, gone);
  }

  ghost predicate Compatible(a: Listed, b: Listed) {
    a.fd != b.fd && (a.id != b.id || a.id == UNREGISTERED_ID)
  }

  lemma DistinctCons(a: Listed, cs: seq<Listed>)
    requires DistinctFds(cs) && DistinctIds(cs) && forall c :: c in cs ==> Compatible(a, c)
    ensures DistinctFds([a] + cs) && DistinctIds([a] + cs)
  {
    assert forall i :: 0 <= i < |cs| ==> cs[i] in cs;
  }

  lemma {:induction false} WithoutClientsDistinct(cs: seq<Listed>, gone: set<Fd>)
    requires DistinctFds(cs) && DistinctIds(cs)
    ensures DistinctFds(WithoutClients(cs, gone)) && DistinctIds(WithoutClients(cs, gone))
  {
    if cs == [] {
    } else {
      WithoutClientsDistinct(cs[1..], gone);
      WithoutClientsMembers(cs[1..], gone);
      if cs[0].fd !in gone {
        forall c | c in WithoutClients(cs[1..], gone) ensures Compatible(cs[0], c) {
          var i :| 0 <= i < |cs[1..]| && cs[1..][i] == c;
          assert cs[i + 1] == c;
        }
        DistinctCons(cs[0], WithoutClients(cs[1..], gone));
      }
    }
  }

  lemma WithIdDistinct(cs: seq<Listed>, fd: Fd, id: Id)
    requires DistinctFds(cs) && DistinctIds(cs) && Acceptable(cs, id)
    ensures DistinctFds(WithId(cs, fd, id)) && DistinctIds(WithId(cs, fd, id))
  {
    forall i | 0 <= i < |cs| ensures cs[i] in cs && cs[i].id != id {
    }
  }

  lemma {:induction false} WithIdFds(cs: seq<Listed>, fd: Fd, id: Id)
    ensures Fds(WithId(cs, fd, id)) == Fds(cs)
  {
    if cs == [] {
    } else {
      WithIdFds(cs[1..], fd, id);
      ConsSets(cs);
      ConsSets(WithId(cs, fd, id));
    }
  }

  lemma {:induction false} WithIdRegistered(cs: seq<Listed>, fd: Fd, id: Id)
    requires fd in Fds(cs) && id != UNREGISTERED_ID
    ensures RegisteredFds(WithId(cs, fd, id)) == RegisteredFds(cs) + {fd}
    decreases |cs|
  {
    ConsSets(cs);
    WithIdCons(cs, fd, id);
    if fd in Fds(cs[1..]) {
      WithIdRegistered(cs[1..], fd, id);
    } else {
      WithIdAbsent(cs[1..], fd, id);
    }
  }

  lemma WithIdCons(cs: seq<Listed>, fd: Fd, id: Id)
    requires cs != [] && id != UNREGISTERED_ID
    ensures RegisteredFds(WithId(cs, fd, id)) ==
      (if cs[0].fd == fd || cs[0].id != UNREGISTERED_ID then {cs[0].fd} else {}) +
      RegisteredFds(WithId(cs[1..], fd, id))
  {
    ConsSets(WithId(cs, fd, id));
    assert WithId(cs, fd, id)[1..] == WithId(cs[1..], fd, id);
  }

  lemma {:induction false} WithIdAbsent(cs: seq<Listed>, fd: Fd, id: Id)
    requires fd !in Fds(cs)
    ensures WithId(cs, fd, id) == cs
  {
    if cs == [] {
    } else {
      ConsSets(cs);
      WithIdAbsent(cs[1..], fd, id);
    }
  }

  lemma ConsSets(cs: seq<Listed>)
    requires cs != []
    ensures Fds(cs) == {cs[0].fd} + Fds(cs[1..])
    ensures RegisteredFds(cs) ==
      (if cs[0].id != UNREGISTERED_ID then {cs[0].fd} else {}) + RegisteredFds(cs[1..])
  {
    assert cs == [cs[0]] + cs[1..];
  }

  // ------------------------------------------------------------ the invariant

  /** Queued clients are listed, registered and distinct; descriptors and ids are distinct. */
  predicate ListsOk(s: Sched) {
    && DistinctFds(s.clients)
    && DistinctIds(s.clients)
    && Distinct(s.requests)
    && forall x :: x in s.requests ==> x in RegisteredFds(s.clients)
  }

  predicate LockOkFor(s: Sched, granted: set<Fd>, epoch: nat) {
    && (s.lockHeld ==> s.requests != [] && granted == {s.requests[0]} && epoch < s.round)
    && (!s.on ==> s.requests == [] && !s.lockHeld)
    && epoch <= s.round
  }

  predicate TimerOk(w: World) {
    && w.t.roundAtStart <= w.s.round
    && (w.t.roundAtStart != w.s.round ==> w.s.mustReset)
    && (w.s.lockHeld && w.t.roundAtStart == w.s.round ==> w.h.heldThroughout)
    && w.h.told <= w.s.round
  }

  predicate Inv(w: World) {
    && ListsOk(w.s)
    && LockOkFor(w.s, w.h.granted, w.h.epoch)
    && TimerOk(w)
    && (w.h.ons == 0 && w.s.on ==> w.h.epoch == 0)
  }
}
