/**
  The scheduler process: the globals of `src/scheduler.c` as fields, and its
  operations as methods that change them in place. Each method is proved to do
  what the function of the same name in `SchedulerSpec` says.
 */
module Scheduler {
  import opened Messages
  import Spec = SchedulerSpec

  class Server {
    var clients: seq<Spec.Listed>
    var requests: seq<Fd>
    var lockHeld: bool
    var on: bool
    var tq: int
    var round: nat
    var mustReset: bool

    /** The part of the state that the rest of the project reasons about. */
    ghost function State(): Spec.Sched
      reads this
    {
      Spec.Sched(clients, requests, lockHeld, on, tq, round, mustReset)
    }

    constructor ()
      ensures State() == Spec.INITIAL
    {
      clients, requests := [], [];
      lockHeld, on, mustReset := false, true, false;
      tq, round := Spec.DEFAULT_TQ, 0;
    }

    /** The duplicate check walks the queue; the append walks to its end. */
    method InsertReq(fd: Fd)
      modifies this`requests
      ensures State() == Spec.InsertReq(old(State()), fd)
    {
      var i := 0;
      while i < |requests|
        invariant 0 <= i <= |requests|
        invariant fd !in requests[..i]
        invariant requests == old(requests)
      {
        if requests[i] == fd { return; }
        i := i + 1;
      }
      requests := requests + [fd];
    }

    method RemoveReq(fd: Fd)
      modifies this`requests, this`lockHeld
      ensures State() == Spec.RemoveReq(old(State()), fd)
    {
      if requests != [] && requests[0] == fd { lockHeld := false; }
      var before, held := requests, lockHeld;
      var kept := [];
      for i := 0 to |before|
        invariant lockHeld == held
        invariant requests == kept + before[i..]
        invariant kept + Spec.Without(before[i..], {fd}) == Spec.Without(before, {fd})
      {
        if before[i] == fd {
          requests := kept + before[i + 1..];
        } else {
          kept := kept + [before[i]];
        }
      }
    }

    method Unlist(fd: Fd)
      modifies this`clients
      ensures clients == Spec.WithoutClients(old(clients), {fd})
    {
      var before, kept := clients, [];
      for i := 0 to |before|
        invariant clients == kept + before[i..]
        invariant kept + Spec.WithoutClients(before[i..], {fd}) == Spec.WithoutClients(before, {fd})
      {
        if before[i].fd == fd {
          clients := kept + before[i + 1..];
        } else {
          kept := kept + [before[i]];
        }
      }
    }

    method DeleteClient(fd: Fd)
      modifies this`requests, this`lockHeld, this`clients
      ensures State() == Spec.DeleteClient(old(State()), fd)
    {
      RemoveReq(fd);
      Unlist(fd);
    }

    /** Tells one client the mode, or deletes it. */
    method TellStatus(c: Spec.Listed, dead: set<Fd>, out: Spec.Out) returns (out': Spec.Out)
      modifies this`requests, this`lockHeld, this`clients
      ensures State() == if c.id != UNREGISTERED_ID && c.fd in dead
                         then Spec.DeleteClient(old(State()), c.fd) else old(State())
      ensures out' == if c.id != UNREGISTERED_ID && c.fd !in dead
                      then out[c.fd := Status(on)] else out
    {
      out' := out;
      if c.id != UNREGISTERED_ID {
        if c.fd in dead { DeleteClient(c.fd); } else { out' := out[c.fd := Status(on)]; }
      }
    }

    /** Deletes while walking the list: the walk goes on over the old links. */
    method BcastStatus(dead: set<Fd>) returns (out: Spec.Out)
      modifies this`requests, this`lockHeld, this`clients
      ensures Spec.Effect(State(), out) == Spec.BcastStatus(old(State()), dead)
    {
      var before := clients;
      ghost var s0 := State();
      out := map[];
      DeleteNone(s0);
      assert Spec.RegisteredFds(before[..0]) * dead == {};
      for i := 0 to |before|
        invariant State() == Spec.DeleteClients(s0, Spec.RegisteredFds(before[..i]) * dead)
        invariant out == Announced(before[..i], dead, s0.on)
      {
        BcastOneMore(s0, before[..i], before[i], dead);
        assert before[..i + 1] == before[..i] + [before[i]];
        out := TellStatus(before[i], dead, out);
      }
      assert before[..|before|] == before;
    }

    method TrySchedule(dead: set<Fd>) returns (out: Spec.Out)
      modifies this`requests, this`lockHeld, this`clients, this`round, this`mustReset
      ensures Spec.Effect(State(), out) == Spec.TrySchedule(old(State()), dead)
    {
      out := map[];
      while requests != []
        invariant out == map[]
        invariant Spec.TrySchedule(State(), dead) == Spec.TrySchedule(old(State()), dead)
        decreases |requests|
      {
        var head := requests[0];
        if head in dead {
          Spec.WithoutShortens(requests, head);
          DeleteClient(head);
        } else {
          out := map[head := LockOk(round + 1)];
          round := round + 1;
          lockHeld, mustReset := true, true;
          return;
        }
      }
    }

    /** The retry loop draws until the id is neither reserved nor taken. */
    method RegisterClient(fd: Fd, dead: set<Fd>, draws: seq<Id>) returns (out: Spec.Out)
      requires Spec.CanRegister(State(), fd, draws)
      modifies this`requests, this`lockHeld, this`clients
      ensures Spec.Effect(State(), out) == Spec.RegisterClient(old(State()), fd, dead, draws)
    {
      out := map[];
      if fd in Spec.RegisteredFds(clients) {
        DeleteClient(fd);
        return;
      }
      var k := 0;
      while !Spec.Acceptable(clients, draws[k])
        invariant k < |draws|
        invariant exists d :: d in draws[k..] && Spec.Acceptable(clients, d)
        invariant Spec.FirstAcceptable(clients, draws[k..]) == Spec.FirstAcceptable(clients, draws)
        decreases |draws| - k
      {
        assert draws[k..] == [draws[k]] + draws[k + 1..];
        k := k + 1;
      }
      clients := Spec.WithId(clients, fd, draws[k]);
      if fd in dead { DeleteClient(fd); } else { out := map[fd := Status(on)]; }
    }

    /** `process_msg` */
    method ProcessMsg(fd: Fd, m: ToScheduler, dead: set<Fd>, draws: seq<Id>) returns (out: Spec.Out)
      requires m.Register? ==> Spec.CanRegister(State(), fd, draws)
      modifies this
      ensures Spec.Effect(State(), out) == Spec.ProcessMsg(old(State()), fd, m, dead, draws)
    {
      out := map[];
      match m {
        case Register =>
          out := RegisterClient(fd, dead, draws);
        case SchedOn =>
          if !on {
            on := true;
            out := BcastStatus(dead);
          }
        case SchedOff =>
          if on {
            on := false;
            out := BcastStatus(dead);
            while requests != []
              invariant State() == Spec.BcastStatus(old(State()).(on := false), dead).s.(requests := requests)
            {
              requests := requests[1..];
            }
            lockHeld := false;
          }
        case SetTq(parsed) =>
          if parsed.Some? {
            tq := parsed.value;
            mustReset := true;
          }
        case ReqLock =>
          if fd in Spec.RegisteredFds(clients) {
            if on {
              InsertReq(fd);
              if !lockHeld { out := TrySchedule(dead); }
            }
          } else {
            DeleteClient(fd);
          }
        case LockReleased(_) =>
          if fd in Spec.RegisteredFds(clients) {
            if on {
              RemoveReq(fd);
              if !lockHeld { out := TrySchedule(dead); }
            }
          } else {
            DeleteClient(fd);
          }
        case Unknown =>
      }
    }

    method Hangup(fd: Fd, dead: set<Fd>) returns (out: Spec.Out)
      modifies this
      ensures Spec.Effect(State(), out) == Spec.Hangup(old(State()), fd, dead)
    {
      out := map[];
      DeleteClient(fd);
      if !lockHeld && on { out := TrySchedule(dead); }
    }
  }

  /** The timer thread: its locals, and one return of its timed wait. */
  class TimerThread {
    var roundAtStart: nat
    var dropSent: bool

    ghost function Locals(): Spec.Timer
      reads this
    {
      Spec.Timer(roundAtStart, dropSent)
    }

    constructor (server: Server)
      ensures Locals() == Spec.Timer(server.round, false)
    {
      roundAtStart, dropSent := server.round, false;
    }

    method BeginInterval(server: Server)
      modifies this`roundAtStart, server`mustReset
      ensures server.State() == old(server.State()).(mustReset := false)
      ensures Locals() == Spec.Timer(server.round, old(dropSent))
    {
      server.mustReset := false;
      roundAtStart := server.round;
    }

    /** One iteration of the loop, from the return of the wait to the next wait. */
    method Step(server: Server, timedOut: bool, dead: set<Fd>) returns (out: Spec.Out)
      requires server.lockHeld ==> server.requests != []
      modifies this, server
      ensures Spec.TimerEffect(server.State(), Locals(), out) ==
        if timedOut then Spec.TimerTimeout(old(server.State()), old(Locals()), dead)
        else Spec.TimerWake(old(server.State()), old(Locals()))
    {
      out := map[];
      if timedOut {
        if !server.lockHeld || dropSent {
        } else if roundAtStart != server.round {
          dropSent := false;
        } else {
          var head := server.requests[0];
          if head in dead {
            server.DeleteClient(head);
            out := server.TrySchedule(dead);
            dropSent := false;
          } else {
            out := map[head := DropLock(server.round)];
            dropSent := true;
          }
        }
        BeginInterval(server);
      } else if server.mustReset {
        dropSent := false;
        BeginInterval(server);
      }
    }
  }

  /** What a broadcast has sent once it has passed over `cs`. */
  function Announced(cs: seq<Spec.Listed>, dead: set<Fd>, on: bool): Spec.Out {
    map fd | fd in Spec.RegisteredFds(cs) - dead :: Status(on)
  }

  lemma BcastOneMore(s: Spec.Sched, cs: seq<Spec.Listed>, c: Spec.Listed, dead: set<Fd>)
    ensures
      var done := Spec.DeleteClients(s, Spec.RegisteredFds(cs) * dead);
      Spec.DeleteClients(s, Spec.RegisteredFds(cs + [c]) * dead) ==
      if c.id != UNREGISTERED_ID && c.fd in dead then Spec.DeleteClient(done, c.fd) else done
    ensures Announced(cs + [c], dead, s.on) ==
      if c.id != UNREGISTERED_ID && c.fd !in dead
      then Announced(cs, dead, s.on)[c.fd := Status(s.on)] else Announced(cs, dead, s.on)
  {
    var told := Spec.RegisteredFds(cs);
    RegisteredSnoc(cs, c);
    assert told + {} == told;
    DeleteOneMore(s, told * dead, c.fd);
    if c.fd in dead {
      assert told * dead + {c.fd} == (told + {c.fd}) * dead;
    } else {
      assert told * dead == (told + {c.fd}) * dead;
    }
  }

  lemma RegisteredSnoc(cs: seq<Spec.Listed>, c: Spec.Listed)
    ensures Spec.RegisteredFds(cs + [c]) ==
      Spec.RegisteredFds(cs) + (if c.id != UNREGISTERED_ID then {c.fd} else {})
  {
  }

  lemma {:induction false} WithoutNothing(q: seq<Fd>)
    ensures Spec.Without(q, {}) == q
  {
    if q == [] {
    } else {
      WithoutNothing(q[1..]);
    }
  }

  lemma DeleteNone(s: Spec.Sched)
    ensures Spec.DeleteClients(s, {}) == s
  {
    WithoutNothing(s.requests);
    Spec.WithoutNoClients(s.clients);
  }

  lemma {:induction false} WithoutTwice(q: seq<Fd>, a: set<Fd>, b: set<Fd>)
    ensures Spec.Without(Spec.Without(q, a), b) == Spec.Without(q, a + b)
  {
    if q == [] {
    } else {
      WithoutTwice(q[1..], a, b);
    }
  }

  /** If the first request survives a deletion it stays first; if not, the lock is already free. */
  lemma DeleteOneMore(s: Spec.Sched, gone: set<Fd>, fd: Fd)
    ensures Spec.DeleteClient(Spec.DeleteClients(s, gone), fd) == Spec.DeleteClients(s, gone + {fd})
  {
    WithoutTwice(s.requests, gone, {fd});
    Spec.WithoutClientsTwice(s.clients, gone, {fd});
  }
}
