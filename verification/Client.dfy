/**
  The client inside an application: the globals of `src/client.c` as fields,
  updated in place by its three kinds of thread, and the early-release rule over
  every interleaving of them.
 */
module Client {
  import opened Messages
  import Spec = ClientSpec

  class App {
    var phase: Spec.Phase
    var on: bool
    var own: bool
    var need: bool
    var didWork: bool
    var waiting: bool
    var ticking: bool
    var giver: Option<nat>
    var grant: nat
    var returned: set<nat>
    var sent: seq<ToScheduler>

    ghost function State(): Spec.Client
      reads this
    {
      Spec.Client(phase, on, own, need, didWork, waiting, ticking, giver, grant, returned)
    }

    /** The new state and what was added to the outgoing stream. */
    twostate predicate Did(e: Spec.ClientEffect)
      reads this
    {
      State() == e.c && sent == old(sent) + e.sent
    }

    constructor ()
      ensures State() == Spec.Fresh(Spec.Joining) && sent == [Register]
    {
      phase := Spec.Joining;
      on, own, need, didWork, waiting, ticking := false, false, false, false, false, false;
      giver, grant, returned := None, 0, {};
      sent := [Register];
    }

    /** One turn around the loop of `continue_with_lock`; `through` if the thread may go on. */
    method Ask() returns (through: bool)
      modifies this
      ensures Did(Spec.Ask(old(State()))) && through == old(own)
    {
      through := own;
      if own {
        didWork := true;
      } else {
        if !need {
          need := true;
          sent := sent + [ReqLock];
        }
        waiting := true;
      }
    }

    method Receive(m: ToClient)
      modifies this
      ensures Did(Spec.Receive(old(State()), m))
    {
      if phase == Spec.Joining {
        match m {
          case StatusOn => phase, on, own, need := Spec.Running, true, false, false;
          case StatusOff => phase, on, own, need := Spec.Running, false, true, false;
          case _ => phase := Spec.Aborted;
        }
      } else if phase == Spec.Running {
        match m {
          case LockOk(r) =>
            need, own, didWork, waiting := false, true, true, false;
            giver, grant := Some(r), r;
          case DropLock(_) =>
            if own { GiveBack(); }
          case StatusOn =>
            if !on {
              on, need, own := true, false, false;
              giver := None;
            }
          case StatusOff =>
            if on {
              on, own, need, waiting := false, true, false, false;
              giver := None;
            }
        }
      }
    }

    method GiveBack()
      modifies this`own, this`giver, this`returned, this`sent
      ensures Did(Spec.Release(old(State())))
    {
      own := false;
      sent := sent + [LockReleased(if giver.Some? then giver.value else 0)];
      returned := if giver.Some? then returned + {giver.value} else returned;
      giver := None;
    }

    /** One return of the early-release thread's timed wait. */
    method EarlyStep(timedOut: bool, idle: bool)
      modifies this
      ensures Did(if timedOut then Spec.EarlyTimeout(old(State()), idle)
                  else Spec.ClientEffect(Spec.EarlySignal(old(State())), []))
    {
      if timedOut {
        if on && own && !didWork && idle { GiveBack(); }
        didWork, ticking := false, true;
      } else if didWork {
        didWork, ticking := false, true;
      }
    }
  }

  // -------------------------------------------------- early release is justified

  datatype Event =
    | Ask
    | Receive(m: ToClient)
    | EarlyBegin
    | EarlyTimeout(idle: bool)
    | EarlySignal

  function Next(c: Spec.Client, e: Event): Spec.ClientEffect {
    match e
    case Ask => Spec.Ask(c)
    case Receive(m) => Spec.Receive(c, m)
    case EarlyBegin => Spec.ClientEffect(Spec.NewInterval(c), [])
    case EarlyTimeout(idle) => Spec.EarlyTimeout(c, idle)
    case EarlySignal => Spec.ClientEffect(Spec.EarlySignal(c), [])
  }

  /**
    Application threads and the early-release loop get going only after the first
    status is in; the loop begins once, before its first wait returns.
   */
  predicate Enabled(c: Spec.Client, e: Event) {
    match e
    case Ask => c.phase == Spec.Running
    case Receive(_) => c.phase == Spec.Joining || c.phase == Spec.Running
    case EarlyBegin => c.phase == Spec.Running && !c.ticking
    case EarlyTimeout(_) => c.phase == Spec.Running && c.ticking
    case EarlySignal => c.phase == Spec.Running && c.ticking
  }

  /** Any interleaving of the client's threads. */
  ghost predicate IsRun(cs: seq<Spec.Client>, es: seq<Event>) {
    && |cs| == |es| + 1
    && cs[0] == Spec.Fresh(Spec.Joining)
    && forall i :: 0 <= i < |es| ==>
         Enabled(cs[i], es[i]) && cs[i + 1] == Next(cs[i], es[i]).c
  }

  predicate BeginsInterval(c: Spec.Client, e: Event) {
    e.EarlyBegin? || e.EarlyTimeout? || (e.EarlySignal? && c.didWork)
  }

  /** A thread passes the gate, or the lock arrives. */
  predicate Activity(c: Spec.Client, e: Event) {
    (e.Ask? && c.own) || (e.Receive? && e.m.LockOk? && c.phase == Spec.Running)
  }

  predicate ReleasesEarly(c: Spec.Client, e: Event) {
    e.EarlyTimeout? && Next(c, e).sent != []
  }

  /** The last step before `j` that began an interval. */
  ghost predicate IntervalBegan(cs: seq<Spec.Client>, es: seq<Event>, i: nat, j: nat)
    requires |cs| == |es| + 1
  {
    && i < j <= |es|
    && BeginsInterval(cs[i], es[i])
    && forall k :: i < k < j ==> !BeginsInterval(cs[k], es[k])
  }

  lemma WorkFlagStep(c: Spec.Client, e: Event)
    ensures var c' := Next(c, e).c;
      if BeginsInterval(c, e) then !c'.didWork && c'.ticking
      else c'.ticking == c.ticking && c'.didWork == (c.didWork || Activity(c, e))
  {
  }

  lemma {:induction false} WorkFlagIsActivity(cs: seq<Spec.Client>, es: seq<Event>, j: nat) returns (i: nat)
    requires IsRun(cs, es) && j <= |es| && cs[j].ticking
    ensures IntervalBegan(cs, es, i, j)
    ensures cs[j].didWork <==> exists k :: i < k < j && Activity(cs[k], es[k])
  {
    var c, e := cs[j - 1], es[j - 1];
    assert cs[j] == Next(c, e).c;
    WorkFlagStep(c, e);
    if BeginsInterval(c, e) {
      i := j - 1;
    } else {
      i := WorkFlagIsActivity(cs, es, j - 1);
      assert cs[j].didWork <==> c.didWork || Activity(cs[j - 1], es[j - 1]);
    }
  }

  /**
    A timeout releases the lock early exactly when the client is locally on, owns
    the lock and probes idle, and no thread passed the gate and no LOCK_OK came
    in during the whole interval that just ended.
   */
  lemma EarlyReleaseJustified(cs: seq<Spec.Client>, es: seq<Event>, j: nat) returns (i: nat)
    requires IsRun(cs, es) && j < |es| && es[j].EarlyTimeout?
    ensures IntervalBegan(cs, es, i, j)
    ensures ReleasesEarly(cs[j], es[j]) <==>
      && cs[j].on && cs[j].own && es[j].idle
      && forall k :: i < k < j ==> !Activity(cs[k], es[k])
  {
    i := WorkFlagIsActivity(cs, es, j);
  }
}
