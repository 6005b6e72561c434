/** What can be said about a stream of scheduler messages before it is read. */
module Channels {
  import opened Messages

  /**
    Reading `chan` from local mode `mode` ends in mode `final`; every status is a
    change, and no LOCK_OK or DROP_LOCK lies between an OFF and the next ON.
   */
  predicate ModeOk(mode: bool, chan: seq<ToClient>, final: bool)
    decreases |chan|
  {
    if chan == [] then mode == final
    else match chan[0]
      case StatusOn => !mode && ModeOk(true, chan[1..], final)
      case StatusOff => mode && ModeOk(false, chan[1..], final)
      case _ => mode && ModeOk(mode, chan[1..], final)
  }

  lemma {:induction false} ModeSnoc(mode: bool, chan: seq<ToClient>, final: bool, m: ToClient)
    requires ModeOk(mode, chan, final)
    requires if m.StatusOn? then !final else final
    decreases |chan|
    ensures ModeOk(mode, chan + [m], if m.StatusOn? then true else if m.StatusOff? then false else final)
  {
    if chan == [] {
    } else {
      assert (chan + [m])[1..] == chan[1..] + [m];
      match chan[0] {
        case StatusOn => ModeSnoc(true, chan[1..], final, m);
        case StatusOff => ModeSnoc(false, chan[1..], final, m);
        case _ => ModeSnoc(mode, chan[1..], final, m);
      }
    }
  }

  lemma {:induction false} OffIsComing(chan: seq<ToClient>)
    requires ModeOk(true, chan, false)
    ensures StatusOff in chan
  {
    if !chan[0].StatusOff? { OffIsComing(chan[1..]); }
  }

  function OnCount(chan: seq<ToClient>): nat {
    if chan == [] then 0 else (if chan[0].StatusOn? then 1 else 0) + OnCount(chan[1..])
  }

  lemma {:induction false} OnCountSnoc(chan: seq<ToClient>, m: ToClient)
    ensures OnCount(chan + [m]) == OnCount(chan) + if m.StatusOn? then 1 else 0
  {
    if chan == [] {
    } else {
      assert (chan + [m])[1..] == chan[1..] + [m];
      OnCountSnoc(chan[1..], m);
    }
  }

  function OffCount(chan: seq<ToClient>): nat {
    if chan == [] then 0 else (if chan[0].StatusOff? then 1 else 0) + OffCount(chan[1..])
  }

  lemma {:induction false} OffCountMember(chan: seq<ToClient>)
    ensures OffCount(chan) == 0 <==> StatusOff !in chan
  {
    if chan == [] {
    } else {
      OffCountMember(chan[1..]);
      assert chan == [chan[0]] + chan[1..];
    }
  }

  lemma {:induction false} StatusBalance(mode: bool, chan: seq<ToClient>, final: bool)
    requires ModeOk(mode, chan, final)
    decreases |chan|
    ensures OffCount(chan) + (if final then 1 else 0) == OnCount(chan) + (if mode then 1 else 0)
  {
    if chan == [] {
    } else {
      match chan[0] {
        case StatusOn => StatusBalance(true, chan[1..], final);
        case StatusOff => StatusBalance(false, chan[1..], final);
        case _ => StatusBalance(mode, chan[1..], final);
      }
    }
  }

  /** Grants come in increasing rounds, and each DROP_LOCK is about the last grant before it. */
  predicate Chain(last: nat, chan: seq<ToClient>)
    decreases |chan|
  {
    if chan == [] then true
    else match chan[0]
      case LockOk(r) => last < r && Chain(r, chan[1..])
      case DropLock(r) => r == last && Chain(last, chan[1..])
      case _ => Chain(last, chan[1..])
  }

  function LastGrant(last: nat, chan: seq<ToClient>): nat
    decreases |chan|
  {
    if chan == [] then last
    else LastGrant(if chan[0].LockOk? then chan[0].round else last, chan[1..])
  }

  lemma {:induction false} ChainSnoc(last: nat, chan: seq<ToClient>, m: ToClient)
    requires Chain(last, chan)
    requires m.LockOk? ==> LastGrant(last, chan) < m.round
    requires m.DropLock? ==> LastGrant(last, chan) == m.round
    decreases |chan|
    ensures Chain(last, chan + [m])
    ensures LastGrant(last, chan + [m]) == if m.LockOk? then m.round else LastGrant(last, chan)
  {
    if chan == [] {
    } else {
      assert (chan + [m])[1..] == chan[1..] + [m];
      ChainSnoc(if chan[0].LockOk? then chan[0].round else last, chan[1..], m);
    }
  }

  /** How many grants in the stream are of the current epoch. */
  function LiveOks(chan: seq<ToClient>, epoch: nat): nat {
    if chan == [] then 0
    else (if chan[0].LockOk? && chan[0].round > epoch then 1 else 0) + LiveOks(chan[1..], epoch)
  }

  lemma {:induction false} LiveOksSnoc(chan: seq<ToClient>, epoch: nat, m: ToClient)
    ensures LiveOks(chan + [m], epoch) ==
      LiveOks(chan, epoch) + if m.LockOk? && m.round > epoch then 1 else 0
  {
    if chan == [] {
    } else {
      assert (chan + [m])[1..] == chan[1..] + [m];
      LiveOksSnoc(chan[1..], epoch, m);
    }
  }

  lemma {:induction false} LiveOksNone(chan: seq<ToClient>, epoch: nat)
    ensures LiveOks(chan, epoch) == 0 <==> forall m :: m in chan && m.LockOk? ==> m.round <= epoch
  {
    if chan == [] {
    } else {
      LiveOksNone(chan[1..], epoch);
      assert chan == [chan[0]] + chan[1..];
    }
  }

  /** How many LOCK_OK are in the stream. */
  function Oks(chan: seq<ToClient>): nat {
    if chan == [] then 0 else (if chan[0].LockOk? then 1 else 0) + Oks(chan[1..])
  }

  /** Before the first toggle every grant is of the current epoch. */
  lemma {:induction false} LiveOksAll(chan: seq<ToClient>)
    requires forall m :: m in chan && m.LockOk? ==> m.round > 0
    ensures LiveOks(chan, 0) == Oks(chan)
  {
    if chan == [] {
    } else {
      assert chan[0] in chan;
      LiveOksAll(chan[1..]);
    }
  }

  lemma {:induction false} OksSnoc(chan: seq<ToClient>, m: ToClient)
    ensures Oks(chan + [m]) == Oks(chan) + if m.LockOk? then 1 else 0
  {
    if chan == [] {
    } else {
      assert (chan + [m])[1..] == chan[1..] + [m];
      OksSnoc(chan[1..], m);
    }
  }

  /** How many REQ_LOCK are in a client's stream. */
  function Requests(chan: seq<ToScheduler>): nat {
    if chan == [] then 0 else (if chan[0].ReqLock? then 1 else 0) + Requests(chan[1..])
  }

  lemma {:induction false} RequestsSnoc(chan: seq<ToScheduler>, m: ToScheduler)
    ensures Requests(chan + [m]) == Requests(chan) + if m.ReqLock? then 1 else 0
  {
    if chan == [] {
    } else {
      assert (chan + [m])[1..] == chan[1..] + [m];
      RequestsSnoc(chan[1..], m);
    }
  }

  /** How many LOCK_RELEASED are in a client's stream. */
  function Releases(chan: seq<ToScheduler>): nat {
    if chan == [] then 0 else (if chan[0].LockReleased? then 1 else 0) + Releases(chan[1..])
  }

  lemma {:induction false} LiveReleasesAll(chan: seq<ToScheduler>)
    requires forall m :: m in chan && m.LockReleased? ==> m.round > 0
    ensures LiveReleases(chan, 0) == Releases(chan)
  {
    if chan == [] {
    } else {
      assert chan[0] in chan;
      LiveReleasesAll(chan[1..]);
    }
  }

  /** How many releases in a client's stream are of the current epoch. */
  function LiveReleases(chan: seq<ToScheduler>, epoch: nat): nat {
    if chan == [] then 0
    else (if chan[0].LockReleased? && chan[0].round > epoch then 1 else 0) + LiveReleases(chan[1..], epoch)
  }

  lemma {:induction false} LiveReleasesSnoc(chan: seq<ToScheduler>, epoch: nat, m: ToScheduler)
    ensures LiveReleases(chan + [m], epoch) ==
      LiveReleases(chan, epoch) + if m.LockReleased? && m.round > epoch then 1 else 0
  {
    if chan == [] {
    } else {
      assert (chan + [m])[1..] == chan[1..] + [m];
      LiveReleasesSnoc(chan[1..], epoch, m);
    }
  }

  lemma {:induction false} LiveReleasesNone(chan: seq<ToScheduler>, epoch: nat)
    ensures LiveReleases(chan, epoch) == 0 <==> forall m :: m in chan && m.LockReleased? ==> m.round <= epoch
  {
    if chan == [] {
    } else {
      LiveReleasesNone(chan[1..], epoch);
      assert chan == [chan[0]] + chan[1..];
    }
  }

  /** A grant in the stream is of an earlier epoch exactly when an OFF follows it. */
  predicate Aged(chan: seq<ToClient>, epoch: nat) {
    chan == [] ||
    ((chan[0].LockOk? ==> (chan[0].round <= epoch <==> StatusOff in chan[1..])) && Aged(chan[1..], epoch))
  }

  lemma {:induction false} AgedSnoc(chan: seq<ToClient>, epoch: nat, m: ToClient)
    requires Aged(chan, epoch) && !m.StatusOff? && (m.LockOk? ==> m.round > epoch)
    ensures Aged(chan + [m], epoch)
  {
    if chan == [] {
    } else {
      assert (chan + [m])[1..] == chan[1..] + [m];
      AgedSnoc(chan[1..], epoch, m);
    }
  }

  lemma {:induction false} AgedOff(chan: seq<ToClient>, epoch: nat)
    requires forall m :: m in chan && m.LockOk? ==> m.round <= epoch
    ensures Aged(chan + [StatusOff], epoch)
  {
    if chan == [] {
    } else {
      assert (chan + [StatusOff])[1..] == chan[1..] + [StatusOff];
      AgedOff(chan[1..], epoch);
      assert StatusOff in chan[1..] + [StatusOff];
    }
  }

  /** With no OFF left in the stream, every grant in it is of the current epoch. */
  lemma {:induction false} AgedFresh(chan: seq<ToClient>, epoch: nat)
    requires Aged(chan, epoch) && StatusOff !in chan
    ensures forall m :: m in chan && m.LockOk? ==> m.round > epoch
  {
    if chan == [] {
    } else {
      AgedFresh(chan[1..], epoch);
    }
  }
}
