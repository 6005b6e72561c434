/** The time quantum: who is told to drop the lock, when, and how often. */
module SchedulerTimer {
  import opened Messages
  import opened SchedulerSpec
  import opened SchedulerRuns
  import opened SchedulerInvariant
  import opened SchedulerTheorems

  /** Whoever the event tells to drop the lock. */
  function Told(w: World, e: Event): set<Fd>
    requires Enabled(w, e)
  {
    ToldToDrop(Act(w, e).out)
  }

  /** Exactly when a timeout tells somebody, and whom. */
  lemma ToldExactly(w: World, e: Event)
    requires Inv(w) && Enabled(w, e)
    ensures
      if e.Timeout? && w.s.lockHeld && !w.t.dropSent && w.t.roundAtStart == w.s.round
         && w.s.requests[0] !in e.dead
      then Told(w, e) == {w.s.requests[0]} && Act(w, e).out[w.s.requests[0]] == DropLock(w.s.round)
      else Told(w, e) == {}
  {
    match e {
      case Accept(fd) => AcceptGood(w.s, fd);
      case Recv(fd, m, dead, draws) => ProcessMsgGood(w.s, fd, m, dead, draws);
      case Drop(fd, dead) => HangupGood(w.s, fd, dead);
      case Timeout(dead) =>
        if w.s.lockHeld {
          DeleteGood(w.s, w.s.requests[0]);
          TryScheduleMove(DeleteClient(w.s, w.s.requests[0]), dead);
        }
      case Wake =>
    }
  }

  // --------------------------------------------------- only after a full interval

  /** Index of the state in which the timer's interval, current in state `i`, began. */
  ghost function IntervalStart(ws: seq<World>, es: seq<Event>, i: nat): (a: nat)
    requires |ws| == |es| + 1 && i < |ws|
    ensures a <= i
  {
    if i == 0 || RestartsInterval(ws[i - 1], es[i - 1]) then i
    else IntervalStart(ws, es, i - 1)
  }

  lemma SameRoundSameGrantee(w: World, e: Event)
    requires Inv(w) && Enabled(w, e) && Next(w, e).s.round == w.s.round
    ensures Next(w, e).h.granted == w.h.granted
  {
    RoundsAreGrants(w, e);
  }

  lemma {:induction false} HeldSinceStart(ws: seq<World>, es: seq<Event>, i: nat, k: nat)
    requires IsRun(ws, es) && i < |ws| && ws[i].h.heldThroughout
    requires IntervalStart(ws, es, i) <= k <= i
    ensures ws[k].s.lockHeld && ws[k].s.round == ws[i].s.round && ws[k].h.granted == ws[i].h.granted
    decreases i
  {
    if i == 0 {
    } else {
      assert ws[i] == Next(ws[i - 1], es[i - 1]);
      if k < i {
        HeldSinceStart(ws, es, i - 1, k);
        RunKeepsInv(ws, es, i - 1);
        SameRoundSameGrantee(ws[i - 1], es[i - 1]);
      } else if !RestartsInterval(ws[i - 1], es[i - 1]) {
        assert ws[i].s.lockHeld;
      }
    }
  }

  /**
    A DROP_LOCK goes only to the last client granted, and only if it was holding
    the lock, under the same grant, in every state since the interval began.
   */
  lemma DropAfterFullInterval(ws: seq<World>, es: seq<Event>, i: nat, fd: Fd)
    requires IsRun(ws, es) && i < |es| && fd in Told(ws[i], es[i])
    ensures ws[i].h.granted == {fd} && Act(ws[i], es[i]).out[fd] == DropLock(ws[i].s.round)
    ensures forall k :: IntervalStart(ws, es, i) <= k <= i ==>
      Holds(ws[k].s, fd) && ws[k].s.round == ws[i].s.round
  {
    RunKeepsInv(ws, es, i);
    ToldExactly(ws[i], es[i]);
    forall k | IntervalStart(ws, es, i) <= k <= i
      ensures Holds(ws[k].s, fd) && ws[k].s.round == ws[i].s.round
    {
      HeldSinceStart(ws, es, i, k);
      RunKeepsInv(ws, es, k);
      assert ws[k].s.requests[0] in {fd};
    }
  }

  // ------------------------------------------------------------ once per round

  predicate SetsTq(e: Event) {
    e.Recv? && e.m.SetTq? && e.m.parsed.Some?
  }

  /** In runs without SET_TQ: a round once told stays told. */
  predicate OnceOk(w: World) {
    && (0 < w.h.told == w.s.round ==> w.t.dropSent && w.t.roundAtStart == w.s.round)
    && (w.s.mustReset ==> w.t.roundAtStart != w.s.round)
  }

  /** Outside the timer thread, only a grant or SET_TQ arms the reset. */
  lemma ResetOnlyByGrant(w: World, e: Event)
    requires Inv(w) && Enabled(w, e) && !e.Timeout? && !e.Wake? && !SetsTq(e)
    requires Act(w, e).s.round == w.s.round
    ensures Act(w, e).s.mustReset == w.s.mustReset && Act(w, e).t == w.t
  {
    match e {
      case Recv(fd, m, dead, draws) =>
        RemoveReqLists(w.s, fd);
        if m.ReqLock? && fd in RegisteredFds(w.s.clients) && w.s.on && !InsertReq(w.s, fd).lockHeld {
          RequestGood(w.s, fd, dead);
          TryScheduleResult(InsertReq(w.s, fd), dead);
        }
        if m.LockReleased? && w.s.on && !RemoveReq(w.s, fd).lockHeld {
          TryScheduleResult(RemoveReq(w.s, fd), dead);
        }
      case Drop(fd, dead) =>
        DeleteGood(w.s, fd);
        if !DeleteClient(w.s, fd).lockHeld { TryScheduleResult(DeleteClient(w.s, fd), dead); }
      case Accept(_) =>
    }
  }

  lemma OnceStep(w: World, e: Event)
    requires Inv(w) && OnceOk(w) && Enabled(w, e) && !SetsTq(e)
    ensures OnceOk(Next(w, e))
  {
    RoundsAreGrants(w, e);
    ToldExactly(w, e);
    if !e.Timeout? && !e.Wake? && Act(w, e).s.round == w.s.round {
      ResetOnlyByGrant(w, e);
    } else if e.Timeout? && w.s.lockHeld {
      DeleteGood(w.s, w.s.requests[0]);
      TryScheduleResult(DeleteClient(w.s, w.s.requests[0]), e.dead);
    }
  }

  lemma {:induction false} RunOnce(ws: seq<World>, es: seq<Event>, i: nat)
    requires IsRun(ws, es) && i < |ws| && forall k :: 0 <= k < i ==> !SetsTq(es[k])
    ensures OnceOk(ws[i])
  {
    if i == 0 {
    } else {
      RunOnce(ws, es, i - 1);
      RunKeepsInv(ws, es, i - 1);
      OnceStep(ws[i - 1], es[i - 1]);
    }
  }

  lemma {:induction false} ToldGrows(ws: seq<World>, es: seq<Event>, i: nat, j: nat)
    requires IsRun(ws, es) && i <= j < |ws|
    ensures ws[i].h.told <= ws[j].h.told
  {
    if i == j {
    } else {
      ToldGrows(ws, es, i, j - 1);
      RunKeepsInv(ws, es, j - 1);
      assert ws[j] == Next(ws[j - 1], es[j - 1]);
    }
  }

  /** Without SET_TQ, two DROP_LOCK messages are never sent in one scheduling round. */
  lemma OneDropPerRound(ws: seq<World>, es: seq<Event>, i: nat, j: nat)
    requires IsRun(ws, es) && i < j < |es| && forall k :: 0 <= k < j ==> !SetsTq(es[k])
    requires Told(ws[i], es[i]) != {} && Told(ws[j], es[j]) != {}
    ensures ws[i].s.round < ws[j].s.round
  {
    RunKeepsInv(ws, es, i);
    RunKeepsInv(ws, es, j);
    ToldExactly(ws[i], es[i]);
    ToldExactly(ws[j], es[j]);
    RunOnce(ws, es, j);
    assert ws[i + 1] == Next(ws[i], es[i]);
    ToldGrows(ws, es, i + 1, j);
  }

  // ---------------------------------------------------------- no drop forgotten

  /** A timeout with the lock held has done its duty. */
  predicate ToldOrGone(w: World, w': World)
    requires w.s.lockHeld && w.s.requests != []
  {
    w'.h.told == w.s.round || w.s.requests[0] !in Fds(w'.s.clients)
  }

  /**
    A timeout with the lock held gets its message across, or deletes the holder,
    exactly when the round was told before or the two tests on lines 352 and 363
    both let it through.
   */
  lemma TimeoutTells(w: World, dead: set<Fd>)
    requires Inv(w) && w.s.lockHeld
    ensures ToldOrGone(w, Next(w, Timeout(dead))) <==>
      w.h.told == w.s.round || (!w.t.dropSent && w.t.roundAtStart == w.s.round)
  {
    var head := w.s.requests[0];
    ToldExactly(w, Timeout(dead));
    assert head in Fds(w.s.clients) by { assert head in RegisteredFds(w.s.clients); }
    DeleteGood(w.s, head);
    WithoutClientsSets(w.s.clients, {head});
    var s1 := DeleteClient(w.s, head);
    TryScheduleResult(s1, dead);
    WithoutClientsSets(s1.clients, Members(s1.requests[..FirstAlive(s1.requests, dead)]));
  }

  /** Without coinciding timeouts: `drop_lock_sent` is about this round, or a reset is due. */
  predicate SentOk(w: World) {
    w.t.dropSent && w.h.told != w.s.round ==> w.s.mustReset
  }

  lemma SentStep(w: World, e: Event)
    requires Inv(w) && SentOk(w) && Enabled(w, e) && (e.Timeout? ==> !w.s.mustReset)
    ensures SentOk(Next(w, e))
  {
    ToldExactly(w, e);
    match e {
      case Accept(fd) => AcceptGood(w.s, fd);
      case Recv(fd, m, dead, draws) => ProcessMsgGood(w.s, fd, m, dead, draws);
      case Drop(fd, dead) => HangupGood(w.s, fd, dead);
      case Timeout(dead) =>
        if w.s.lockHeld {
          DeleteGood(w.s, w.s.requests[0]);
          TryScheduleMove(DeleteClient(w.s, w.s.requests[0]), dead);
        }
      case Wake =>
    }
  }

  /** No timeout is returned while a reset is pending. */
  ghost predicate NoCoincidence(ws: seq<World>, es: seq<Event>)
    requires |ws| == |es| + 1
  {
    forall k :: 0 <= k < |es| && es[k].Timeout? ==> !ws[k].s.mustReset
  }

  lemma {:induction false} RunSent(ws: seq<World>, es: seq<Event>, i: nat)
    requires IsRun(ws, es) && i < |ws| && NoCoincidence(ws, es)
    ensures SentOk(ws[i])
  {
    if i == 0 {
    } else {
      RunSent(ws, es, i - 1);
      RunKeepsInv(ws, es, i - 1);
      SentStep(ws[i - 1], es[i - 1]);
    }
  }

  /**
    In a run where no timeout coincides with a pending reset, every timeout that
    finds the lock held leaves the round told to drop, or its holder deleted.
   */
  lemma EveryTimeoutTells(ws: seq<World>, es: seq<Event>, i: nat)
    requires IsRun(ws, es) && i < |es| && NoCoincidence(ws, es)
    requires es[i].Timeout? && ws[i].s.lockHeld
    ensures ws[i].s.requests != [] && ToldOrGone(ws[i], ws[i + 1])
  {
    RunKeepsInv(ws, es, i);
    RunSent(ws, es, i);
    TimeoutTells(ws[i], es[i].dead);
  }

  // --------------------------------------- and what a coincidence costs the waiters

  /** The flag still says "sent", but it is about an earlier round, and no reset is due. */
  predicate Forgotten(w: World) {
    w.s.lockHeld && w.t.dropSent && w.h.told != w.s.round && !w.s.mustReset
  }

  /** A timeout that coincides with the reset for a new grant forgets that grant. */
  lemma CoincidenceForgets(w: World, dead: set<Fd>)
    requires Inv(w) && w.s.lockHeld && w.t.dropSent && w.h.told != w.s.round
    ensures Forgotten(Next(w, Timeout(dead)))
  {
    ToldExactly(w, Timeout(dead));
  }

  lemma ForgottenStep(w: World, e: Event)
    requires Inv(w) && Forgotten(w) && Enabled(w, e) && !SetsTq(e)
    requires Next(w, e).s.lockHeld && Next(w, e).s.round == w.s.round
    ensures Forgotten(Next(w, e)) && Told(w, e) == {}
  {
    ToldExactly(w, e);
    if !e.Timeout? && !e.Wake? { ResetOnlyByGrant(w, e); }
  }

  /**
    From then on, as long as the holder keeps the lock and nobody sends SET_TQ, no
    number of timeouts gets it a DROP_LOCK: the quantum is not enforced.
   */
  lemma {:induction false} ForgottenForGood(ws: seq<World>, es: seq<Event>, i: nat, j: nat)
    requires IsRun(ws, es) && i <= j < |ws| && Forgotten(ws[i])
    requires forall k :: i <= k < j ==> !SetsTq(es[k])
    requires forall k :: i <= k <= j ==> ws[k].s.lockHeld && ws[k].s.round == ws[i].s.round
    ensures Forgotten(ws[j]) && forall k :: i <= k < j ==> Told(ws[k], es[k]) == {}
  {
    if i == j {
    } else {
      ForgottenForGood(ws, es, i, j - 1);
      assert Told(ws[j - 1], es[j - 1]) == {} && Forgotten(ws[j]) by {
        RunKeepsInv(ws, es, j - 1);
        assert ws[j] == Next(ws[j - 1], es[j - 1]);
        ForgottenStep(ws[j - 1], es[j - 1]);
      }
    }
  }
}
