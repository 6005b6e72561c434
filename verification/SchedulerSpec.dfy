/**
  The scheduler as a function of its state: what each operation of
  `src/scheduler.c` does to the client list, the request queue and the flags,
  and which messages it puts on the wire.

  Every operation takes the set `dead` of descriptors on which a send fails
  during this event. No operation sends twice on one descriptor, so a set is as
  general as a per-send outcome, and a map holds everything that was sent.
 */
module SchedulerSpec {
  import opened Messages

  datatype Listed = Listed(fd: Fd, id: Id)

  /**
    `requests` holds descriptors, oldest request first: the source compares
    requests by descriptor only.
   */
  datatype Sched = Sched(
    clients: seq<Listed>,
    requests: seq<Fd>,
    lockHeld: bool,
    on: bool,
    tq: int,
    round: nat,
    mustReset: bool)

  type Out = map<Fd, ToClient>

  datatype Effect = Effect(s: Sched, out: Out)

  const DEFAULT_TQ := 30

  const INITIAL: Sched := Sched([], [], false, true, DEFAULT_TQ, 0, false)

  predicate Distinct<T(==)>(q: seq<T>) {
    forall i, j :: 0 <= i < j < |q| ==> q[i] != q[j]
  }

  function Fds(clients: seq<Listed>): set<Fd> {
    set c | c in clients :: c.fd
  }

  function RegisteredFds(clients: seq<Listed>): set<Fd> {
    set c | c in clients && c.id != UNREGISTERED_ID :: c.fd
  }

  function Without(q: seq<Fd>, gone: set<Fd>): seq<Fd> {
    if q == [] then []
    else if q[0] in gone then Without(q[1..], gone)
    else [q[0]] + Without(q[1..], gone)
  }

  function WithoutClients(clients: seq<Listed>, gone: set<Fd>): seq<Listed> {
    if clients == [] then []
    else if clients[0].fd in gone then WithoutClients(clients[1..], gone)
    else [clients[0]] + WithoutClients(clients[1..], gone)
  }

  /** `insert_req`: one request per client, appended. */
  function InsertReq(s: Sched, fd: Fd): Sched {
    if fd in s.requests then s else s.(requests := s.requests + [fd])
  }

  predicate IsHead(s: Sched, fd: Fd) {
    s.requests != [] && s.requests[0] == fd
  }

  /** `remove_req`: withdrawing the head frees the lock. */
  function RemoveReq(s: Sched, fd: Fd): Sched {
    s.(lockHeld := s.lockHeld && !IsHead(s, fd),
       requests := Without(s.requests, {fd}))
  }

  function DeleteClient(s: Sched, fd: Fd): Sched {
    RemoveReq(s, fd).(clients := WithoutClients(s.clients, {fd}))
  }

  /** Deleting a set of clients; the order in which they go makes no difference. */
  function DeleteClients(s: Sched, gone: set<Fd>): Sched {
    s.(lockHeld := s.lockHeld && !(s.requests != [] && s.requests[0] in gone),
       requests := Without(s.requests, gone),
       clients := WithoutClients(s.clients, gone))
  }

  /** `bcast_status`: every registered client is told the mode, or deleted. */
  function BcastStatus(s: Sched, dead: set<Fd>): Effect {
    var told := RegisteredFds(s.clients);
    Effect(DeleteClients(s, told * dead), map fd | fd in told - dead :: Status(s.on))
  }

  /** `try_schedule`: grant to the first request whose client can be reached. */
  function TrySchedule(s: Sched, dead: set<Fd>): Effect
    decreases |s.requests|
  {
    if s.requests == [] then Effect(s, map[])
    else
      var head := s.requests[0];
      if head in dead then
        WithoutShortens(s.requests, head);
        TrySchedule(DeleteClient(s, head), dead)
      else
        Effect(s.(round := s.round + 1, lockHeld := true, mustReset := true),
               map[head := LockOk(s.round + 1)])
  }

  lemma {:induction false} WithoutClientsTwice(cs: seq<Listed>, a: set<Fd>, b: set<Fd>)
    ensures WithoutClients(WithoutClients(cs, a), b) == WithoutClients(cs, a + b)
  {
    if cs == [] {
    } else {
      WithoutClientsTwice(cs[1..], a, b);
    }
  }

  lemma {:induction false} WithoutNoClients(cs: seq<Listed>)
    ensures WithoutClients(cs, {}) == cs
  {
    if cs == [] {
    } else {
      WithoutNoClients(cs[1..]);
    }
  }

  lemma {:induction false} WithoutNoLonger(q: seq<Fd>, gone: set<Fd>)
    ensures |Without(q, gone)| <= |q|
  {
    if q == [] {
    } else {
      WithoutNoLonger(q[1..], gone);
    }
  }

  lemma WithoutShortens(q: seq<Fd>, fd: Fd)
    requires q != [] && q[0] == fd
    ensures |Without(q, {fd})| < |q|
  {
    WithoutNoLonger(q[1..], {fd});
  }

  predicate Acceptable(clients: seq<Listed>, id: Id) {
    id != UNREGISTERED_ID && forall c :: c in clients ==> c.id != id
  }

  /** The id drawn by the retry loop of `register_client`. */
  function FirstAcceptable(clients: seq<Listed>, draws: seq<Id>): (id: Id)
    requires exists d :: d in draws && Acceptable(clients, d)
    ensures Acceptable(clients, id) && id in draws
  {
    if Acceptable(clients, draws[0]) then draws[0] else FirstAcceptable(clients, draws[1..])
  }

  function WithId(clients: seq<Listed>, fd: Fd, id: Id): (r: seq<Listed>)
    ensures |r| == |clients|
    ensures forall i :: 0 <= i < |clients| ==>
      r[i] == if clients[i].fd == fd then Listed(fd, id) else clients[i]
  {
    if clients == [] then []
    else [if clients[0].fd == fd then Listed(fd, id) else clients[0]] + WithId(clients[1..], fd, id)
  }

  /** A descriptor can register when its retry loop gets past its draws. */
  predicate CanRegister(s: Sched, fd: Fd, draws: seq<Id>) {
    fd in RegisteredFds(s.clients) || exists d :: d in draws && Acceptable(s.clients, d)
  }

  /** REGISTER: `register_client`, and `delete_client` when that fails. */
  function RegisterClient(s: Sched, fd: Fd, dead: set<Fd>, draws: seq<Id>): Effect
    requires CanRegister(s, fd, draws)
  {
    if fd in RegisteredFds(s.clients) then Effect(DeleteClient(s, fd), map[])
    else
      var s1 := s.(clients := WithId(s.clients, fd, FirstAcceptable(s.clients, draws)));
      if fd in dead then Effect(DeleteClient(s1, fd), map[])
      else Effect(s1, map[fd := Status(s.on)])
  }

  function TurnOn(s: Sched, dead: set<Fd>): Effect {
    if s.on then Effect(s, map[]) else BcastStatus(s.(on := true), dead)
  }

  function TurnOff(s: Sched, dead: set<Fd>): Effect {
    if !s.on then Effect(s, map[])
    else
      var b := BcastStatus(s.(on := false), dead);
      b.(s := b.s.(requests := [], lockHeld := false))
  }

  function ScheduleIfFree(s: Sched, dead: set<Fd>): Effect {
    if s.lockHeld then Effect(s, map[]) else TrySchedule(s, dead)
  }

  /** `process_msg` */
  function ProcessMsg(s: Sched, fd: Fd, m: ToScheduler, dead: set<Fd>, draws: seq<Id>): Effect
    requires m.Register? ==> CanRegister(s, fd, draws)
  {
    match m
    case Register => RegisterClient(s, fd, dead, draws)
    case SchedOn => TurnOn(s, dead)
    case SchedOff => TurnOff(s, dead)
    case SetTq(parsed) =>
      Effect(if parsed.Some? then s.(tq := parsed.value, mustReset := true) else s, map[])
    case ReqLock =>
      if fd !in RegisteredFds(s.clients) then Effect(DeleteClient(s, fd), map[])
      else if !s.on then Effect(s, map[])
      else ScheduleIfFree(InsertReq(s, fd), dead)
    case LockReleased(_) =>
      if fd !in RegisteredFds(s.clients) then Effect(DeleteClient(s, fd), map[])
      else if !s.on then Effect(s, map[])
      else ScheduleIfFree(RemoveReq(s, fd), dead)
    case Unknown => Effect(s, map[])
  }

  /** A failed receive, or an error or hang-up event on the descriptor. */
  function Hangup(s: Sched, fd: Fd, dead: set<Fd>): Effect {
    var s1 := DeleteClient(s, fd);
    if s1.on then ScheduleIfFree(s1, dead) else Effect(s1, map[])
  }

  function AcceptClient(s: Sched, fd: Fd): Sched {
    s.(clients := s.clients + [Listed(fd, UNREGISTERED_ID)])
  }

  /** The locals of `timer_thr_fn` that survive from one wait to the next. */
  datatype Timer = Timer(roundAtStart: nat, dropSent: bool)

  datatype TimerEffect = TimerEffect(s: Sched, t: Timer, out: Out)

  /** The top of the timer loop: a new interval begins. */
  function Restart(s: Sched, dropSent: bool, out: Out): TimerEffect {
    TimerEffect(s.(mustReset := false), Timer(s.round, dropSent), out)
  }

  /** The timed wait returned ETIMEDOUT. */
  function TimerTimeout(s: Sched, t: Timer, dead: set<Fd>): TimerEffect
    requires s.lockHeld ==> s.requests != []
  {
    if !s.lockHeld || t.dropSent then Restart(s, t.dropSent, map[])
    else if t.roundAtStart != s.round then Restart(s, false, map[])
    else
      var head := s.requests[0];
      if head in dead then
        var e := TrySchedule(DeleteClient(s, head), dead);
        Restart(e.s, false, e.out)
      else Restart(s, true, map[head := DropLock(s.round)])
  }

  /** The timed wait returned 0. */
  function TimerWake(s: Sched, t: Timer): TimerEffect {
    if s.mustReset then Restart(s, false, map[]) else TimerEffect(s, t, map[])
  }
}
