/**
  The adaptive limit on pending kernels: how many launches may pass between two
  context synchronisations.
 */
module KernelWindow {

  const WINDOW_MAX := 2048
  const BIG_SECONDS := 10
  const STEPDOWN_SECONDS := 1

  /** `since` launches have been made since the last sync; the next sync is due at `window`. */
  datatype Window = Window(since: nat, window: nat)

  const FRESH: Window := Window(0, 1)

  /** The window after a sync that took `seconds` whole seconds. */
  function Adapted(window: nat, seconds: nat): nat {
    if seconds >= BIG_SECONDS then 1
    else if seconds >= STEPDOWN_SECONDS then Max(window / 2, 1)
    else Min(window * 2, WINDOW_MAX)
  }

  function Max(a: nat, b: nat): nat { if a > b then a else b }

  function Min(a: nat, b: nat): nat { if a < b then a else b }

  predicate SyncDue(w: Window) {
    w.since + 1 >= w.window
  }

  function Launched(w: Window, seconds: nat): Window {
    if SyncDue(w) then Window(0, Adapted(w.window, seconds)) else w.(since := w.since + 1)
  }

  /** `cuda_sync_context` resets the window and leaves the count alone. */
  function Reset(w: Window): Window {
    w.(window := 1)
  }

  /** The two globals, as hooked launches and context syncs change them. */
  class Limiter {
    var kernSinceSync: nat
    var pendingKernelWindow: nat

    ghost function State(): Window
      reads this
    {
      Window(kernSinceSync, pendingKernelWindow)
    }

    constructor ()
      ensures State() == FRESH
    {
      kernSinceSync, pendingKernelWindow := 0, 1;
    }

    /** `seconds` is what a sync takes, if there is one. */
    method Launch(seconds: nat) returns (synced: bool)
      modifies this
      ensures State() == Launched(old(State()), seconds) && synced == SyncDue(old(State()))
    {
      kernSinceSync := kernSinceSync + 1;
      synced := kernSinceSync >= pendingKernelWindow;
      if synced {
        if seconds >= BIG_SECONDS {
          pendingKernelWindow := 1;
        } else if seconds >= STEPDOWN_SECONDS {
          pendingKernelWindow := Max(pendingKernelWindow / 2, 1);
        } else {
          pendingKernelWindow := Min(pendingKernelWindow * 2, WINDOW_MAX);
        }
        kernSinceSync := 0;
      }
    }

    method SyncContext()
      modifies this`pendingKernelWindow
      ensures State() == Reset(old(State()))
    {
      pendingKernelWindow := 1;
    }
  }

  // ----------------------------------------------------------- any launch sequence

  datatype Event = Launch(seconds: nat) | SyncContext

  function After(es: seq<Event>): Window {
    if es == [] then FRESH
    else
      var w, e := After(es[..|es| - 1]), es[|es| - 1];
      if e.Launch? then Launched(w, e.seconds) else Reset(w)
  }

  predicate SyncsAtEnd(es: seq<Event>) {
    es != [] && es[|es| - 1].Launch? && SyncDue(After(es[..|es| - 1]))
  }

  /** Launches made after the last one that synchronised. */
  function LaunchesSinceSync(es: seq<Event>): nat {
    if es == [] || SyncsAtEnd(es) then 0
    else LaunchesSinceSync(es[..|es| - 1]) + if es[|es| - 1].Launch? then 1 else 0
  }

  const POWERS: set<nat> := {1, 2, 4, 8, 16, 32, 64, 128, 256, 512, 1024, 2048}

  /**
    Whatever the sync durations and resets: the window is a power of two between 1
    and 2048, the counter is the number of launches since the last sync, and there
    are never as many as 2048 of them without one.
   */
  lemma {:induction false} WindowBounds(es: seq<Event>)
    ensures After(es).window in POWERS
    ensures After(es).since == LaunchesSinceSync(es) < 2048
  {
    if es == [] {
    } else {
      WindowBounds(es[..|es| - 1]);
    }
  }

  // ------------------------------------------------------------- short syncs only

  function Pow2(k: nat): nat {
    if k == 0 then 1 else 2 * Pow2(k - 1)
  }

  /** floor(log2(n)) */
  function Log2(n: nat): (k: nat)
    requires n > 0
    ensures Pow2(k) <= n < Pow2(k + 1)
  {
    if n == 1 then 0 else 1 + Log2(n / 2)
  }

  /** `n` launches, every sync under a second. */
  function Smooth(n: nat): seq<Event> {
    seq(n, _ => Launch(0))
  }

  function Syncs(es: seq<Event>): nat {
    if es == [] then 0
    else Syncs(es[..|es| - 1]) + if SyncsAtEnd(es) then 1 else 0
  }

  function SmoothSyncs(n: nat): nat {
    if n <= 4095 then Log2(n + 1) else 12 + (n - 4095) / 2048
  }

  function SmoothWindow(n: nat): Window {
    if n < 4095 then Window(n + 1 - Pow2(Log2(n + 1)), Pow2(Log2(n + 1)))
    else Window((n - 4095) % 2048, 2048)
  }

  lemma {:induction false} Pow2Monotone(i: nat, j: nat)
    requires i <= j
    ensures Pow2(i) <= Pow2(j)
  {
    if i == j {
    } else {
      Pow2Monotone(i, j - 1);
    }
  }

  lemma Log2Unique(n: nat, k: nat)
    requires n > 0 && Pow2(k) <= n < Pow2(k + 1)
    ensures Log2(n) == k
  {
    if Log2(n) < k { Pow2Monotone(Log2(n) + 1, k); }
    if k < Log2(n) { Pow2Monotone(k + 1, Log2(n)); }
  }

  lemma Pow2Values()
    ensures Pow2(11) == 2048 && Pow2(12) == 4096
  {
    assert Pow2(4) == 16 && Pow2(8) == 256;
  }

  lemma LogSmall(n: nat)
    requires 0 < n < 4096
    ensures Log2(n) <= 11 && Pow2(Log2(n)) <= 2048
  {
    Pow2Values();
    if Log2(n) > 11 { Pow2Monotone(12, Log2(n)); }
    Pow2Monotone(Log2(n), 11);
  }

  /** Below 4096 launches: the window doubles whenever the count reaches it. */
  lemma SmoothStepSmall(n: nat)
    requires n < 4095
    ensures var k := Log2(n + 1);
      && k <= 11 && Pow2(k) <= 2048
      && (if n + 2 == Pow2(k + 1) then Log2(n + 2) == k + 1 else Log2(n + 2) == k)
  {
    var k := Log2(n + 1);
    LogSmall(n + 1);
    if n + 2 == Pow2(k + 1) { Log2Unique(n + 2, k + 1); } else { Log2Unique(n + 2, k); }
  }

  /** One more launch moves the closed form on by one. */
  predicate Moves(n: nat) {
    && Launched(SmoothWindow(n), 0) == SmoothWindow(n + 1)
    && SmoothSyncs(n + 1) == SmoothSyncs(n) + if SyncDue(SmoothWindow(n)) then 1 else 0
  }

  lemma LastDoubling()
    ensures Moves(4094)
  {
    Pow2Values();
    Log2Unique(4095, 11);
    Log2Unique(4096, 12);
  }

  lemma SmallMoves(n: nat)
    requires n < 4095
    ensures Moves(n)
  {
    SmoothStepSmall(n);
    var k := Log2(n + 1);
    if n == 4094 {
      LastDoubling();
    } else {
      SmallWindow(n, k, Pow2(k));
    }
  }

  /** The arithmetic of one step, with `w` for the window 2^k. */
  lemma SmallWindow(n: nat, k: nat, w: nat)
    requires n < 4094 && k == Log2(n + 1) && w == Pow2(k) <= 2048 && w <= n + 1 < 2 * w
    requires if n + 2 == 2 * w then Log2(n + 2) == k + 1 else Log2(n + 2) == k
    ensures Moves(n)
  {
    if n + 2 == 2 * w {
      DoubleFits(k, w, n);
    }
  }

  lemma DoubleFits(k: nat, w: nat, n: nat)
    requires w == Pow2(k) && n + 2 == 2 * w && n < 4094
    ensures 2 * w <= 2048 && Pow2(k + 1) == 2 * w
  {
    Pow2Values();
    if k >= 11 { Pow2Monotone(11, k); } else { Pow2Monotone(k, 10); }
  }

  lemma BigMoves(n: nat)
    requires n >= 4095
    ensures Moves(n)
  {
    Pow2Values();
    Log2Unique(4096, 12);
    var m := n - 4095;
    assert if m % 2048 == 2047 then (m + 1) % 2048 == 0 && (m + 1) / 2048 == m / 2048 + 1
           else (m + 1) % 2048 == m % 2048 + 1 && (m + 1) / 2048 == m / 2048;
  }

  lemma SmoothSnoc(n: nat)
    ensures Smooth(n + 1)[..n] == Smooth(n) && Smooth(n + 1)[n] == Launch(0)
    ensures After(Smooth(n + 1)) == Launched(After(Smooth(n)), 0)
    ensures Syncs(Smooth(n + 1)) == Syncs(Smooth(n)) + if SyncDue(After(Smooth(n))) then 1 else 0
  {
    assert Smooth(n + 1)[..n] == Smooth(n);
  }

  /**
    From a fresh window and with short syncs only, `n` launches cost exactly
    floor(log2(n + 1)) syncs up to 4095 launches, and one per 2048 beyond that.
   */
  lemma {:induction false} SmoothLaunchCost(n: nat)
    ensures Syncs(Smooth(n)) == SmoothSyncs(n) && After(Smooth(n)) == SmoothWindow(n)
  {
    if n == 0 {
    } else {
      SmoothLaunchCost(n - 1);
      SmoothSnoc(n - 1);
      if n - 1 < 4095 { SmallMoves(n - 1); } else { BigMoves(n - 1); }
    }
  }

  // ------------------------------------------------------------- any sync durations

  /**
    The limiter told from its syncs alone: the exponent of the window. A sync of ten
    seconds or more takes it to 0, one of at least a second down by one, a shorter one up
    by one but not beyond 11; a context sync takes it to 0.
   */
  function Level(es: seq<Event>): (k: nat)
    ensures k <= 11
  {
    if es == [] then 0
    else
      var before, e := Level(es[..|es| - 1]), es[|es| - 1];
      if e.SyncContext? then 0
      else if !SyncsAtEnd(es) then before
      else if e.seconds >= 10 then 0
      else if e.seconds >= 1 then if before == 0 then 0 else before - 1
      else if before == 11 then 11 else before + 1
  }

  lemma LevelStep(w: nat, k: nat, seconds: nat)
    requires k <= 11 && w == Pow2(k)
    ensures Adapted(w, seconds) == Pow2(
      if seconds >= 10 then 0
      else if seconds >= 1 then if k == 0 then 0 else k - 1
      else if k == 11 then 11 else k + 1)
  {
    Pow2Values();
    if k < 11 { Pow2Monotone(k + 1, 11); }
  }

  /**
    Whatever the durations and resets: the next launch synchronises if and only if it
    makes 2^level since the last sync.
   */
  lemma {:induction false} SyncsExactly(es: seq<Event>, seconds: nat)
    ensures After(es).window == Pow2(Level(es))
    ensures SyncsAtEnd(es + [Launch(seconds)]) <==> LaunchesSinceSync(es) + 1 >= Pow2(Level(es))
  {
    WindowBounds(es);
    assert (es + [Launch(seconds)])[..|es|] == es;
    if es == [] {
    } else {
      var front, e := es[..|es| - 1], es[|es| - 1];
      SyncsExactly(front, if e.Launch? then e.seconds else 0);
      if e.Launch? { LevelStep(After(front).window, Level(front), e.seconds); }
    }
  }

  ghost predicate Launches(ls: seq<Event>) {
    forall i :: 0 <= i < |ls| ==> ls[i].Launch?
  }

  /** After a sync, launches alone synchronise again exactly when there are as many as the window. */
  lemma {:induction false} NextSync(es: seq<Event>, ls: seq<Event>)
    requires Launches(ls) && After(es).since == 0 && 0 < |ls| <= After(es).window
    ensures SyncsAtEnd(es + ls) <==> |ls| == After(es).window
    ensures |ls| < After(es).window ==> After(es + ls) == Window(|ls|, After(es).window)
  {
    var front := ls[..|ls| - 1];
    assert (es + ls)[..|es + ls| - 1] == es + front;
    if front == [] {
      assert es + front == es;
    } else {
      NextSync(es, front);
    }
  }

  /**
    How far apart two syncs are: after a sync that took ten seconds or more, one launch; after
    one of at least a second, half as many as before it, but one at least; after a shorter
    one, twice as many, but 2048 at most.
   */
  lemma SpacingLaw(es: seq<Event>, seconds: nat, ls: seq<Event>)
    requires SyncsAtEnd(es + [Launch(seconds)]) && Launches(ls) && ls != []
    ensures var before := Pow2(Level(es));
      var gap := if seconds >= 10 then 1
                 else if seconds >= 1 then if before == 1 then 1 else before / 2
                 else if before >= 1024 then 2048 else 2 * before;
      |ls| <= gap ==> (SyncsAtEnd(es + [Launch(seconds)] + ls) <==> |ls| == gap)
  {
    var es' := es + [Launch(seconds)];
    assert es'[..|es'| - 1] == es;
    SyncsExactly(es, seconds);
    SyncsExactly(es', 0);
    Pow2Values();
    assert Pow2(10) == 1024;
    var k := Level(es);
    if k <= 9 { Pow2Monotone(k, 9); } else { Pow2Monotone(10, k); }
    if |ls| <= After(es').window { NextSync(es', ls); }
  }

  /** A context sync makes the very next launch synchronise. */
  lemma ResetLaw(es: seq<Event>, seconds: nat)
    ensures SyncsAtEnd(es + [SyncContext, Launch(seconds)])
  {
    var es' := es + [SyncContext];
    assert es + [SyncContext, Launch(seconds)] == es' + [Launch(seconds)];
    assert es'[..|es'| - 1] == es;
    SyncsExactly(es', seconds);
  }

  /** Slow syncs in a row bring a window of 2^j down to 2^max(0, j - k), quick ones up to 2^min(11, j + k). */
  lemma {:induction false} LevelMoves(es: seq<Event>, ls: seq<Event>, slow: bool)
    requires Launches(ls)
    requires forall i :: 0 <= i < |ls| ==> if slow then 1 <= ls[i].seconds < 10 else ls[i].seconds == 0
    ensures Syncs(es + ls) >= Syncs(es)
    ensures var j, k := Level(es), Syncs(es + ls) - Syncs(es);
      Level(es + ls) == if slow then if j <= k then 0 else j - k else if j + k <= 11 then j + k else 11
  {
    if ls == [] {
      assert es + ls == es;
    } else {
      var front := ls[..|ls| - 1];
      assert (es + ls)[..|es + ls| - 1] == es + front;
      LevelMoves(es, front, slow);
    }
  }
}
