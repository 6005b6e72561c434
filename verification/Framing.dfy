/**
  Fixed-size messages over a byte stream that is written and read in pieces of any
  size. A piece size function stands for the kernel: the `i`-th call moves at most
  `piece(i)` bytes, or fails when that is negative.
 */
module Framing {

  /** sizeof(struct message), packed: type, pod name, pod namespace, id, data. */
  const MESSAGE_SIZE: nat := 1 + 254 + 254 + 8 + 20

  ghost predicate Pieces(piece: nat -> int) {
    forall i :: piece(i) != 0
  }

  ghost predicate NoErrors(piece: nat -> int) {
    forall i :: piece(i) > 0
  }

  function Min(a: int, b: int): int { if a < b then a else b }

  /** One direction of a connection: everything ever written, and how much of it was read. */
  class Stream {
    var sent: seq<bv8>
    var taken: nat

    ghost predicate Valid()
      reads this
    {
      taken <= |sent|
    }

    constructor ()
      ensures Valid() && sent == [] && taken == 0
    {
      sent, taken := [], 0;
    }
  }

  /** `write_whole`: on success the stream has grown by exactly the buffer, on an error by a part of it. */
  method WriteWhole(s: Stream, buf: seq<bv8>, piece: nat -> int) returns (ret: int)
    requires s.Valid() && Pieces(piece)
    modifies s`sent
    ensures s.Valid()
    ensures ret < 0 || (ret == |buf| && s.sent == old(s.sent) + buf)
    ensures 0 <= |s.sent| - |old(s.sent)| <= |buf|
    ensures s.sent == old(s.sent) + buf[..|s.sent| - |old(s.sent)|]
    ensures NoErrors(piece) ==> ret == |buf|
  {
    var cnt, call := |buf|, 0;
    assert s.sent == old(s.sent) + buf[..0];
    while cnt > 0
      invariant 0 <= cnt <= |buf| && s.Valid()
      invariant s.sent == old(s.sent) + buf[..|buf| - cnt]
    {
      ret := Min(piece(call), cnt);
      if ret < 0 { return; }
      var off := |buf| - cnt;
      assert buf[..off + ret] == buf[..off] + buf[off..off + ret];
      s.sent := s.sent + buf[off..off + ret];
      cnt := cnt - ret;
      call := call + 1;
    }
    assert buf[..|buf|] == buf;
    ret := |buf|;
  }

  /** `now` is `was` with its front replaced by `front`. */
  ghost predicate Filled(now: seq<bv8>, was: seq<bv8>, front: seq<bv8>) {
    |front| <= |was| && now == front + was[|front|..]
  }

  lemma FilledFurther(was: seq<bv8>, mid: seq<bv8>, now: seq<bv8>, p: seq<bv8>, off: nat, n: nat)
    requires off + n <= |p| && off + n <= |was| && Filled(mid, was, p[..off])
    requires now == mid[..off] + p[off..off + n] + mid[off + n..]
    ensures Filled(now, was, p[..off + n])
  {
    assert p[..off + n] == p[..off] + p[off..off + n];
    assert mid[..off] == p[..off] && mid[off + n..] == was[off + n..];
  }

  lemma SliceOfRest(sent: seq<bv8>, taken: nat, off: nat, n: nat)
    requires taken + off + n <= |sent|
    ensures sent[taken..][off..off + n] == sent[taken + off..taken + off + n]
  {
  }

  /**
    `read_whole`, while the other end goes on writing: `arrives(i)` comes in before the
    `i`-th read. However the bytes arrive, the buffer holds the next `cnt` bytes of
    the stream, or all there are of it when it ends; the rest of the buffer is untouched.
   */
  method ReadWhole(s: Stream, buf: array<bv8>, cnt: nat, piece: nat -> int, arrives: nat -> seq<bv8>)
      returns (ret: int)
    requires s.Valid() && cnt <= buf.Length && Pieces(piece)
    modifies s, buf
    ensures s.Valid() && old(s.sent) <= s.sent && old(s.taken) <= s.taken <= old(s.taken) + cnt
    ensures Filled(buf[..], old(buf[..]), s.sent[old(s.taken)..s.taken])
    ensures ret >= 0 ==> ret == s.taken - old(s.taken) && (ret < cnt ==> s.taken == |s.sent|)
    ensures NoErrors(piece) ==> ret >= 0
  {
    var readcnt, call := 0, 0;
    ghost var start, was, first := s.taken, buf[..], s.sent;
    while readcnt < cnt
      invariant readcnt <= cnt && Reading(s, buf, was, first, start, readcnt)
    {
      ret := ReadOnce(s, buf, readcnt, cnt - readcnt, piece(call), arrives(call), was, first, start);
      if ret < 0 { return; }
      if ret == 0 { ret := readcnt; return; }
      readcnt := readcnt + ret;
      call := call + 1;
    }
    ret := readcnt;
  }

  /** In the middle of `read_whole`, which began at `start` when `first` had been sent. */
  ghost predicate Reading(s: Stream, buf: array<bv8>, was: seq<bv8>, first: seq<bv8>, start: nat, readcnt: nat)
    reads s, buf
  {
    s.Valid() && first <= s.sent && s.taken == start + readcnt && Filled(buf[..], was, s.sent[start..s.taken])
  }

  /** One blocking `read` of at most `count` bytes, after `bytes` came in: 0 at the end of the stream. */
  method ReadOnce(s: Stream, buf: array<bv8>, off: nat, count: nat, piece: int, bytes: seq<bv8>,
                  ghost was: seq<bv8>, ghost first: seq<bv8>, ghost start: nat)
      returns (ret: int)
    requires Reading(s, buf, was, first, start, off) && 0 < count && off + count <= buf.Length && piece != 0
    modifies s, buf
    ensures Reading(s, buf, was, first, start, if ret < 0 then off else off + ret)
    ensures ret <= count && (ret < 0 <==> piece < 0) && (ret == 0 ==> s.taken == |s.sent|)
  {
    ghost var before := s.sent;
    s.sent := s.sent + bytes;
    assert s.sent[start..s.taken] == before[start..s.taken];
    assert first <= s.sent;
    if piece < 0 { return piece; }
    ret := Min(Min(piece, count), |s.sent| - s.taken);
    ReadPiece(s, buf, off, ret, was);
  }

  /** One `read`: the next `n` bytes go to `buf` at `off`. */
  method ReadPiece(s: Stream, buf: array<bv8>, off: nat, n: nat, ghost was: seq<bv8>)
    requires s.Valid() && s.taken + n <= |s.sent| && off + n <= buf.Length
    requires off <= s.taken && Filled(buf[..], was, s.sent[s.taken - off..s.taken])
    modifies s`taken, buf
    ensures s.taken == old(s.taken) + n
    ensures Filled(buf[..], was, s.sent[old(s.taken) - off..s.taken])
  {
    ghost var mid, p := buf[..], s.sent[s.taken - off..s.taken + n];
    assert p[..off] == s.sent[s.taken - off..s.taken] && p[off..off + n] == s.sent[s.taken..s.taken + n];
    forall i | off <= i < off + n {
      buf[i] := s.sent[s.taken + i - off];
    }
    assert buf[..] == mid[..off] + s.sent[s.taken..s.taken + n] + mid[off + n..];
    FilledFurther(was, mid, buf[..], p, off, n);
    assert p[..off + n] == p;
    s.taken := s.taken + n;
  }

  // -------------------------------------------------------------- message sequences

  function Concat(ms: seq<seq<bv8>>): seq<bv8> {
    if ms == [] then [] else ms[0] + Concat(ms[1..])
  }

  ghost predicate Messages(ms: seq<seq<bv8>>) {
    forall i :: 0 <= i < |ms| ==> |ms[i]| == MESSAGE_SIZE
  }

  lemma {:induction false} ConcatSnoc(ms: seq<seq<bv8>>, m: seq<bv8>)
    ensures Concat(ms + [m]) == Concat(ms) + m
  {
    if ms == [] {
      assert ms + [m] == [m] && [m][1..] == [];
    } else {
      assert (ms + [m])[1..] == ms[1..] + [m];
      ConcatSnoc(ms[1..], m);
    }
  }

  lemma {:induction false} ConcatLength(ms: seq<seq<bv8>>)
    requires Messages(ms)
    ensures |Concat(ms)| == |ms| * MESSAGE_SIZE
  {
    if ms == [] {
    } else {
      ConcatLength(ms[1..]);
    }
  }

  /** The bytes from the `k`-th message on. */
  lemma {:induction false} ConcatDrop(ms: seq<seq<bv8>>, k: nat)
    requires Messages(ms) && k <= |ms|
    ensures k * MESSAGE_SIZE <= |Concat(ms)| && Concat(ms)[k * MESSAGE_SIZE..] == Concat(ms[k..])
  {
    if k == 0 {
      assert ms[0..] == ms;
    } else {
      ConcatDrop(ms[1..], k - 1);
      assert ms[1..][k - 1..] == ms[k..];
      var rest := Concat(ms[1..]);
      assert (ms[0] + rest)[MESSAGE_SIZE + (k - 1) * MESSAGE_SIZE..] == rest[(k - 1) * MESSAGE_SIZE..];
    }
  }

  /** Writes the messages one after the other, each in its own pieces. */
  method SendAll(s: Stream, ms: seq<seq<bv8>>, pieces: nat -> nat -> int)
    requires s.Valid() && s.sent == [] && forall i :: NoErrors(pieces(i))
    modifies s`sent
    ensures s.Valid() && s.sent == Concat(ms)
  {
    for i := 0 to |ms|
      invariant s.Valid() && s.sent == Concat(ms[..i])
    {
      var ret := WriteWhole(s, ms[i], pieces(i));
      ConcatSnoc(ms[..i], ms[i]);
      assert ms[..i + 1] == ms[..i] + [ms[i]];
    }
    assert ms[..|ms|] == ms;
  }

  /** Whole messages at the front of a stream of messages are the first ones of it. */
  lemma {:induction false} FirstMessages(got: seq<seq<bv8>>, ms: seq<seq<bv8>>)
    requires Messages(got) && Messages(ms) && Concat(got) <= Concat(ms)
    ensures |got| <= |ms| && got == ms[..|got|]
  {
    ConcatLength(got);
    ConcatLength(ms);
    if got == [] {
    } else {
      var a, b := Concat(got), Concat(ms);
      assert a[..MESSAGE_SIZE] == got[0] && b[..MESSAGE_SIZE] == ms[0];
      assert a[MESSAGE_SIZE..] == Concat(got[1..]) && b[MESSAGE_SIZE..] == Concat(ms[1..]);
      assert a[..MESSAGE_SIZE] == b[..MESSAGE_SIZE] && a[MESSAGE_SIZE..] <= b[MESSAGE_SIZE..];
      FirstMessages(got[1..], ms[1..]);
      assert got == [got[0]] + got[1..] && ms[..|got|] == [ms[0]] + ms[1..][..|got| - 1];
    }
  }

  /**
    However the writes of one end and the reads of the other took turns: if what was
    sent so far is the beginning of some messages, the ones read are the first of them,
    and all of them when everything was sent and less than a message is left to read.
   */
  lemma Interleaved(got: seq<seq<bv8>>, sent: seq<bv8>, ms: seq<seq<bv8>>)
    requires Messages(got) && Messages(ms) && Concat(got) <= sent <= Concat(ms)
    ensures |got| <= |ms| && got == ms[..|got|]
    ensures sent == Concat(ms) && |sent| - |Concat(got)| < MESSAGE_SIZE ==> got == ms
  {
    FirstMessages(got, ms);
    ConcatLength(got);
    ConcatLength(ms);
  }

  /**
    At most `n` calls of `read_whole` while the other end goes on writing: what they
    return is whole messages in order, from the front of what was sent, and only the
    end of the stream keeps them from being `n`.
   */
  method ReceiveAll(s: Stream, n: nat, pieces: nat -> nat -> int, arrives: nat -> nat -> seq<bv8>)
      returns (got: seq<seq<bv8>>)
    requires s.Valid() && s.taken == 0 && forall i :: NoErrors(pieces(i))
    modifies s
    ensures s.Valid() && old(s.sent) <= s.sent
    ensures Messages(got) && |got| <= n && Concat(got) <= s.sent
    ensures |got| < n ==> |s.sent| - |Concat(got)| < MESSAGE_SIZE
    ensures forall ms :: Messages(ms) && s.sent <= Concat(ms) ==>
      |got| <= |ms| && got == ms[..|got|] && (s.sent == Concat(ms) && |got| < n ==> got == ms)
  {
    got := [];
    var buf := new bv8[MESSAGE_SIZE];
    var more := true;
    while |got| < n && more
      invariant s.Valid() && old(s.sent) <= s.sent && Messages(got) && |got| <= n
      invariant s.taken <= |s.sent| && Concat(got) <= s.sent
      invariant if more then Concat(got) == s.sent[..s.taken] else |s.sent| - |Concat(got)| < MESSAGE_SIZE
      decreases more, n - |got|
    {
      got, more := ReceiveOne(s, buf, got, pieces(|got|), arrives(|got|));
    }
    forall ms | Messages(ms) && s.sent <= Concat(ms)
      ensures |got| <= |ms| && got == ms[..|got|] && (s.sent == Concat(ms) && |got| < n ==> got == ms)
    {
      Interleaved(got, s.sent, ms);
    }
  }

  /** One call of `read_whole`; a short one ends the stream. */
  method ReceiveOne(s: Stream, buf: array<bv8>, got: seq<seq<bv8>>, piece: nat -> int, arrives: nat -> seq<bv8>)
      returns (got': seq<seq<bv8>>, more: bool)
    requires s.Valid() && buf.Length == MESSAGE_SIZE && NoErrors(piece)
    requires Messages(got) && Concat(got) == s.sent[..s.taken]
    modifies s, buf
    ensures s.Valid() && old(s.sent) <= s.sent && Messages(got') && Concat(got') <= s.sent
    ensures if more then |got'| == |got| + 1 && Concat(got') == s.sent[..s.taken]
            else got' == got && |s.sent| - |Concat(got)| < MESSAGE_SIZE
  {
    ghost var start := s.taken;
    var ret := ReadWhole(s, buf, MESSAGE_SIZE, piece, arrives);
    assert s.sent[..start] == old(s.sent)[..start];
    more := ret == MESSAGE_SIZE;
    got' := got;
    if more {
      got' := got + [buf[..]];
      ConcatSnoc(got, buf[..]);
      assert s.sent[..s.taken] == s.sent[..start] + s.sent[start..s.taken];
    }
  }

  // ---------------------------------------------------------- the scheduler's reads

  /**
    `receive_message` and its caller: one non-blocking read per event; anything
    short of a whole message gets the client deleted. `sizes` is how much each read
    returns, as far as the stream goes. The messages that `process_msg` sees are
    whole, in order, and the first ones sent, whatever was left half written.
   */
  method ServeClient(s: Stream, ghost ms: seq<seq<bv8>>, ghost half: seq<bv8>, sizes: seq<int>)
      returns (seen: seq<seq<bv8>>, deleted: bool)
    requires s.Valid() && s.taken == 0 && s.sent == Concat(ms) + half && Messages(ms) && |half| < MESSAGE_SIZE
    modifies s`taken
    ensures |seen| <= |ms| && seen == ms[..|seen|]
    ensures |seen| <= |sizes| && (deleted <==> |seen| < |sizes|)
    ensures forall j :: 0 <= j < |seen| ==> sizes[j] >= MESSAGE_SIZE
    ensures deleted ==> |seen| == |ms| || sizes[|seen|] < MESSAGE_SIZE
  {
    seen, deleted := [], false;
    ConcatLength(ms);
    var i := 0;
    while i < |sizes| && !deleted
      invariant i <= |sizes| && s.Valid() && |seen| <= |ms| && seen == ms[..|seen|]
      invariant !deleted ==> |seen| == i && s.taken == |seen| * MESSAGE_SIZE
      invariant deleted ==> |seen| < i && (|seen| == |ms| || sizes[|seen|] < MESSAGE_SIZE)
      invariant forall j :: 0 <= j < |seen| ==> j < |sizes| && sizes[j] >= MESSAGE_SIZE
      invariant s.sent == Concat(ms) + half
    {
      ghost var k := |seen|;
      var n := Min(Min(sizes[i], MESSAGE_SIZE), |s.sent| - s.taken);
      if n < MESSAGE_SIZE {
        if k < |ms| { BytesLeft(ms, half, k); }
        deleted := true;
      } else {
        var m := s.sent[s.taken..s.taken + MESSAGE_SIZE];
        WholeMessage(ms, half, k);
        seen := seen + [m];
        s.taken := s.taken + MESSAGE_SIZE;
      }
      i := i + 1;
    }
  }

  /** A whole message's worth of bytes at a message boundary is a whole message. */
  lemma WholeMessage(ms: seq<seq<bv8>>, half: seq<bv8>, k: nat)
    requires Messages(ms) && |half| < MESSAGE_SIZE && k <= |ms|
    requires (k + 1) * MESSAGE_SIZE <= |Concat(ms) + half|
    ensures k < |ms| && (Concat(ms) + half)[k * MESSAGE_SIZE..(k + 1) * MESSAGE_SIZE] == ms[k]
  {
    ConcatLength(ms);
    ConcatDrop(ms, k);
    ConcatLength(ms[k..]);
    var at := k * MESSAGE_SIZE;
    assert (Concat(ms) + half)[at..at + MESSAGE_SIZE] == Concat(ms)[at..][..MESSAGE_SIZE];
    assert Concat(ms[k..])[..MESSAGE_SIZE] == ms[k];
  }

  /** Before the last message's end a whole message is pending. */
  lemma BytesLeft(ms: seq<seq<bv8>>, half: seq<bv8>, k: nat)
    requires Messages(ms) && k < |ms|
    ensures (k + 1) * MESSAGE_SIZE <= |Concat(ms) + half|
  {
    ConcatLength(ms);
  }
}
