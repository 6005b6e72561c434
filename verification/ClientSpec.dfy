/**
  The client as a function of its state: what the application threads, the
  message thread and the early-release thread of `src/client.c` do in one
  section under the client's mutex, and what they send.
 */
module ClientSpec {
  import opened Messages

  /**
    `Ctl` is a configuration tool's connection, not an application. `Joining`
    has sent REGISTER and waits for its first message. `Aborted` stands for the
    fatal exit on a first message that is not a status.
   */
  datatype Phase = Ctl | Joining | Running | Aborted

  /**
    `on`, `own`, `need` and `didWork` are the source's flags. `waiting` says that
    some application thread sleeps on the condition variable and has not been
    signalled; `ticking`, that the early-release loop has begun.

    The rest is history that nothing branches on: `giver` is the round of the
    LOCK_OK that `own` is due to, if it is due to one; `grant` the round of the
    last LOCK_OK received; `returned` the rounds given back so far.
   */
  datatype Client = Client(
    phase: Phase,
    on: bool,
    own: bool,
    need: bool,
    didWork: bool,
    waiting: bool,
    ticking: bool,
    giver: Option<nat>,
    grant: nat,
    returned: set<nat>)

  function Fresh(phase: Phase): Client {
    Client(phase, false, false, false, false, false, false, None, 0, {})
  }

  datatype ClientEffect = ClientEffect(c: Client, sent: seq<ToScheduler>)

  function HeldRound(c: Client): nat {
    if c.giver.Some? then c.giver.value else 0
  }

  /** Block work submission, then give the lock back. */
  function Release(c: Client): ClientEffect {
    ClientEffect(
      c.(own := false, giver := None,
         returned := if c.giver.Some? then c.returned + {c.giver.value} else c.returned),
      [LockReleased(HeldRound(c))])
  }

  /** One turn of an application thread around the loop of `continue_with_lock`. */
  function Ask(c: Client): ClientEffect {
    if c.own then ClientEffect(c.(didWork := true), [])
    else ClientEffect(c.(need := true, waiting := true), if c.need then [] else [ReqLock])
  }

  /** The first message: the scheduler's status, or a fatal error. */
  function ConsumeFirst(c: Client, m: ToClient): Client {
    match m
    case StatusOn => c.(phase := Running, on := true, own := false, need := false)
    case StatusOff => c.(phase := Running, on := false, own := true, need := false)
    case _ => c.(phase := Aborted)
  }

  /** One turn of the message loop. */
  function Consume(c: Client, m: ToClient): ClientEffect {
    match m
    case LockOk(r) =>
      ClientEffect(c.(need := false, own := true, didWork := true, waiting := false,
                      giver := Some(r), grant := r), [])
    case DropLock(_) => if c.own then Release(c) else ClientEffect(c, [])
    case StatusOn =>
      ClientEffect(if c.on then c else c.(on := true, need := false, own := false, giver := None), [])
    case StatusOff =>
      ClientEffect(if !c.on then c
                   else c.(on := false, own := true, need := false, waiting := false, giver := None), [])
  }

  function Receive(c: Client, m: ToClient): ClientEffect {
    match c.phase
    case Joining => ClientEffect(ConsumeFirst(c, m), [])
    case Running => Consume(c, m)
    case _ => ClientEffect(c, [])
  }

  /** The top of the early-release loop: a new interval begins. */
  function NewInterval(c: Client): Client {
    c.(didWork := false, ticking := true)
  }

  /** The wait timed out; `idle` is what the utilisation probe finds. */
  function EarlyTimeout(c: Client, idle: bool): ClientEffect {
    if !c.on || !c.own || c.didWork || !idle then ClientEffect(NewInterval(c), [])
    else
      var r := Release(c);
      r.(c := NewInterval(r.c))
  }

  /** The condition variable was signalled, or the wake-up was spurious. */
  function EarlySignal(c: Client): Client {
    if c.didWork then NewInterval(c) else c
  }
}
