/**
  The whole system: one scheduler, its timer thread, and any number of
  connections, each with a client and two FIFO streams. Every section under a
  mutex is one step.
 */
module Protocol {
  import opened Messages
  import opened SchedulerSpec
  import SR = SchedulerRuns
  import SV = SchedulerViews
  import CS = ClientSpec
  import Client

  /** `c2s` and `s2c` hold what was sent and not yet read, oldest first. */
  datatype Conn = Conn(cl: CS.Client, c2s: seq<ToScheduler>, s2c: seq<ToClient>)

  datatype Sys = Sys(w: SR.World, conns: map<Fd, Conn>)

  const START: Sys := Sys(SR.START, map[])

  datatype Event =
    | ConnectApp(fd: Fd)
    | ConnectCtl(fd: Fd, wants: seq<ToScheduler>)
    | Recv(fd: Fd, dead: set<Fd>, draws: seq<Id>)
    | Drop(fd: Fd, dead: set<Fd>)
    | Timeout(dead: set<Fd>)
    | Wake
    | AtClient(fd: Fd, e: Client.Event)

  predicate CtlMsg(m: ToScheduler) {
    m.SchedOn? || m.SchedOff? || m.SetTq?
  }

  /** The scheduler's side of the event. */
  function SchedulerEvent(s: Sys, e: Event): SR.Event
    requires !e.AtClient?
    requires e.Recv? ==> e.fd in s.conns && s.conns[e.fd].c2s != []
  {
    match e
    case ConnectApp(fd) => SR.Accept(fd)
    case ConnectCtl(fd, _) => SR.Accept(fd)
    case Recv(fd, dead, draws) => SR.Recv(fd, s.conns[fd].c2s[0], dead, draws)
    case Drop(fd, dead) => SR.Drop(fd, dead)
    case Timeout(dead) => SR.Timeout(dead)
    case Wake => SR.Wake
  }

  predicate Enabled(s: Sys, e: Event) {
    if e.AtClient? then
      && e.fd in s.conns
      && Client.Enabled(s.conns[e.fd].cl, e.e)
      && (e.e.Receive? ==> s.conns[e.fd].s2c != [] && s.conns[e.fd].s2c[0] == e.e.m)
    else
      && (e.Recv? ==> e.fd in s.conns && s.conns[e.fd].c2s != [])
      && (e.ConnectCtl? ==> forall m :: m in e.wants ==> CtlMsg(m))
      && SR.Enabled(s.w, SchedulerEvent(s, e))
  }

  /** One connection after the scheduler read `input` from it and sent it `out`. */
  function Moved(c: Conn, input: Option<ToScheduler>, out: Option<ToClient>): Conn
    requires input.Some? ==> c.c2s != []
  {
    Conn(c.cl,
         if input.Some? then c.c2s[1..] else c.c2s,
         if out.Some? then c.s2c + [out.value] else c.s2c)
  }

  /** One connection after a step of its client. */
  function ClientMoved(c: Conn, e: Client.Event): Conn
    requires e.Receive? ==> c.s2c != []
  {
    var r := Client.Next(c.cl, e);
    Conn(r.c, c.c2s + r.sent, if e.Receive? then c.s2c[1..] else c.s2c)
  }

  function Newcomer(e: Event): Conn
    requires e.ConnectApp? || e.ConnectCtl?
  {
    if e.ConnectApp? then Conn(CS.Fresh(CS.Joining), [Register], [])
    else Conn(CS.Fresh(CS.Ctl), e.wants, [])
  }

  /** Connections that the scheduler still lists read on; the others are closed. */
  function Deliver(conns: map<Fd, Conn>, se: SR.Event, listed: set<Fd>, out: Out): map<Fd, Conn>
    requires se.Recv? && se.fd in conns ==> conns[se.fd].c2s != []
  {
    map fd | fd in conns && fd in listed :: Moved(conns[fd], SV.Input(se, fd), SV.Sent(out, fd))
  }

  function Next(s: Sys, e: Event): Sys
    requires Enabled(s, e)
  {
    if e.AtClient? then s.(conns := s.conns[e.fd := ClientMoved(s.conns[e.fd], e.e)])
    else
      var se := SchedulerEvent(s, e);
      var a := SR.Act(s.w, se);
      var kept := Deliver(s.conns, se, Fds(a.s.clients), a.out);
      Sys(SR.Next(s.w, se), if se.Accept? then kept[se.fd := Newcomer(e)] else kept)
  }

  ghost predicate IsRun(ss: seq<Sys>, es: seq<Event>) {
    && |ss| == |es| + 1
    && ss[0] == START
    && forall i :: 0 <= i < |es| ==> Enabled(ss[i], es[i]) && ss[i + 1] == Next(ss[i], es[i])
  }
}
