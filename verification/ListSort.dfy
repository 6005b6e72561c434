/**
  `LL_SORT2`: the bottom-up merge sort that relinks a list in place. The sequence
  functions say what a pass does; the methods do it on the `next` pointers.
 */
module ListSort {
  import opened LinkedList

  ghost predicate TotalPreorder<T(!new)>(cmp: (T, T) -> int) {
    && (forall x, y :: cmp(x, y) <= 0 || cmp(y, x) <= 0)
    && (forall x, y, z :: cmp(x, y) <= 0 && cmp(y, z) <= 0 ==> cmp(x, z) <= 0)
  }

  ghost predicate Sorted<T>(ns: seq<Node<T>>, cmp: (T, T) -> int) {
    forall i, j :: 0 <= i < j < |ns| ==> cmp(ns[i].val, ns[j].val) <= 0
  }

  predicate Equivalent<T>(x: T, y: T, cmp: (T, T) -> int) {
    cmp(x, y) <= 0 && cmp(y, x) <= 0
  }

  /** The nodes that compare equal to `x`, in the order in which they stand. */
  ghost function ClassOf<T>(ns: seq<Node<T>>, x: T, cmp: (T, T) -> int): seq<Node<T>> {
    if ns == [] then []
    else (if Equivalent(ns[0].val, x, cmp) then [ns[0]] else []) + ClassOf(ns[1..], x, cmp)
  }

  // ---------------------------------------------------------------------- merging

  ghost function Merge<T>(ps: seq<Node<T>>, qs: seq<Node<T>>, cmp: (T, T) -> int): seq<Node<T>>
    decreases |ps| + |qs|
  {
    if ps == [] then qs
    else if qs == [] then ps
    else if cmp(ps[0].val, qs[0].val) <= 0 then [ps[0]] + Merge(ps[1..], qs, cmp)
    else [qs[0]] + Merge(ps, qs[1..], cmp)
  }

  lemma MultisetFirst<A>(s: seq<A>, t: seq<A>, m: seq<A>)
    requires s != [] && multiset(m) == multiset(s[1..]) + multiset(t)
    ensures multiset([s[0]] + m) == multiset(s) + multiset(t)
  {
    assert s == [s[0]] + s[1..];
  }

  lemma {:induction false} MergeMultiset<T>(ps: seq<Node<T>>, qs: seq<Node<T>>, cmp: (T, T) -> int)
    ensures multiset(Merge(ps, qs, cmp)) == multiset(ps) + multiset(qs)
    decreases |ps| + |qs|
  {
    if ps == [] || qs == [] {
      assert Merge(ps, qs, cmp) == ps + qs;
    } else if cmp(ps[0].val, qs[0].val) <= 0 {
      MergeMultiset(ps[1..], qs, cmp);
      MultisetFirst(ps, qs, Merge(ps[1..], qs, cmp));
    } else {
      MergeMultiset(ps, qs[1..], cmp);
      MultisetFirst(qs, ps, Merge(ps, qs[1..], cmp));
    }
  }

  lemma {:induction false} MergeLength<T>(ps: seq<Node<T>>, qs: seq<Node<T>>, cmp: (T, T) -> int)
    ensures |Merge(ps, qs, cmp)| == |ps| + |qs|
    decreases |ps| + |qs|
  {
    if ps == [] || qs == [] {
    } else {
      if cmp(ps[0].val, qs[0].val) <= 0 {
        MergeLength(ps[1..], qs, cmp);
      } else {
        MergeLength(ps, qs[1..], cmp);
      }
    }
  }

  lemma MergeMember<T>(ps: seq<Node<T>>, qs: seq<Node<T>>, cmp: (T, T) -> int, n: Node<T>)
    requires n in Merge(ps, qs, cmp)
    ensures n in ps || n in qs
  {
    MergeMultiset(ps, qs, cmp);
    assert n in multiset(Merge(ps, qs, cmp));
  }

  lemma {:induction false} SortedCons<T>(n: Node<T>, ns: seq<Node<T>>, cmp: (T, T) -> int)
    requires Sorted(ns, cmp) && forall m :: m in ns ==> cmp(n.val, m.val) <= 0
    ensures Sorted([n] + ns, cmp)
  {
  }

  lemma SortedTail<T>(ns: seq<Node<T>>, cmp: (T, T) -> int)
    requires ns != [] && Sorted(ns, cmp)
    ensures Sorted(ns[1..], cmp) && forall m :: m in ns[1..] ==> cmp(ns[0].val, m.val) <= 0
  {
  }

  lemma {:induction false} MergeSorted<T(!new)>(ps: seq<Node<T>>, qs: seq<Node<T>>, cmp: (T, T) -> int)
    requires TotalPreorder(cmp) && Sorted(ps, cmp) && Sorted(qs, cmp)
    ensures Sorted(Merge(ps, qs, cmp), cmp)
    decreases |ps| + |qs|
  {
    if ps == [] || qs == [] {
    } else {
      SortedTail(ps, cmp);
      SortedTail(qs, cmp);
      if cmp(ps[0].val, qs[0].val) <= 0 {
        MergeSorted(ps[1..], qs, cmp);
        var rest := Merge(ps[1..], qs, cmp);
        forall m | m in rest ensures cmp(ps[0].val, m.val) <= 0 {
          MergeMember(ps[1..], qs, cmp, m);
          if m in qs && m != qs[0] { assert cmp(qs[0].val, m.val) <= 0; }
        }
        SortedCons(ps[0], rest, cmp);
      } else {
        MergeSorted(ps, qs[1..], cmp);
        var rest := Merge(ps, qs[1..], cmp);
        forall m | m in rest ensures cmp(qs[0].val, m.val) <= 0 {
          MergeMember(ps, qs[1..], cmp, m);
          if m in ps && m != ps[0] { assert cmp(ps[0].val, m.val) <= 0; }
        }
        SortedCons(qs[0], rest, cmp);
      }
    }
  }

  lemma ClassOfCons<T>(n: Node<T>, ns: seq<Node<T>>, x: T, cmp: (T, T) -> int)
    ensures ClassOf([n] + ns, x, cmp) == (if Equivalent(n.val, x, cmp) then [n] else []) + ClassOf(ns, x, cmp)
  {
    assert ([n] + ns)[1..] == ns;
  }

  lemma {:induction false} ClassOfConcat<T>(a: seq<Node<T>>, b: seq<Node<T>>, x: T, cmp: (T, T) -> int)
    ensures ClassOf(a + b, x, cmp) == ClassOf(a, x, cmp) + ClassOf(b, x, cmp)
  {
    if a == [] {
      assert a + b == b;
    } else {
      assert a + b == [a[0]] + (a[1..] + b);
      ClassOfCons(a[0], a[1..] + b, x, cmp);
      ClassOfConcat(a[1..], b, x, cmp);
    }
  }

  lemma {:induction false} ClassOfNone<T>(ns: seq<Node<T>>, x: T, cmp: (T, T) -> int)
    requires forall n :: n in ns ==> !Equivalent(n.val, x, cmp)
    ensures ClassOf(ns, x, cmp) == []
  {
    if ns == [] {
    } else {
      ClassOfNone(ns[1..], x, cmp);
    }
  }

  lemma AllAbove<T(!new)>(ps: seq<Node<T>>, q: Node<T>, x: T, cmp: (T, T) -> int)
    requires TotalPreorder(cmp) && Sorted(ps, cmp) && ps != []
    requires cmp(ps[0].val, q.val) > 0 && Equivalent(q.val, x, cmp)
    ensures ClassOf(ps, x, cmp) == []
  {
    forall n | n in ps ensures !Equivalent(n.val, x, cmp) {
      LateIsAbove(ps, q, n, x, cmp);
    }
    ClassOfNone(ps, x, cmp);
  }

  /** Equal nodes of the first run stay before equal nodes of the second. */
  lemma {:induction false} MergeStable<T(!new)>(ps: seq<Node<T>>, qs: seq<Node<T>>, x: T, cmp: (T, T) -> int)
    requires TotalPreorder(cmp) && Sorted(ps, cmp) && Sorted(qs, cmp)
    ensures ClassOf(Merge(ps, qs, cmp), x, cmp) == ClassOf(ps, x, cmp) + ClassOf(qs, x, cmp)
    decreases |ps| + |qs|
  {
    if ps == [] || qs == [] {
    } else {
      if cmp(ps[0].val, qs[0].val) <= 0 {
        SortedTail(ps, cmp);
        MergeStable(ps[1..], qs, x, cmp);
        ClassOfCons(ps[0], Merge(ps[1..], qs, cmp), x, cmp);
      } else {
        SortedTail(qs, cmp);
        MergeStable(ps, qs[1..], x, cmp);
        ClassOfCons(qs[0], Merge(ps, qs[1..], cmp), x, cmp);
        if Equivalent(qs[0].val, x, cmp) { AllAbove(ps, qs[0], x, cmp); }
      }
    }
  }

  lemma LateIsAbove<T(!new)>(ps: seq<Node<T>>, q: Node<T>, n: Node<T>, x: T, cmp: (T, T) -> int)
    requires TotalPreorder(cmp) && Sorted(ps, cmp) && ps != [] && n in ps
    requires cmp(ps[0].val, q.val) > 0 && Equivalent(q.val, x, cmp)
    ensures !Equivalent(n.val, x, cmp)
  {
    assert cmp(ps[0].val, n.val) <= 0;
  }

  // ---------------------------------------------------------------------- one pass

  ghost function Take<A>(s: seq<A>, k: nat): seq<A> {
    if k <= |s| then s[..k] else s
  }

  ghost function Drop<A>(s: seq<A>, k: nat): seq<A> {
    if k <= |s| then s[k..] else []
  }

  lemma Cut<A>(s: seq<A>, k: nat)
    ensures s == Take(s, k) + Drop(s, k)
  {
  }

  /** Merge the first two runs of length `k`, then the next two, and so on. */
  ghost function MergePass<T>(ns: seq<Node<T>>, k: nat, cmp: (T, T) -> int): seq<Node<T>>
    requires k > 0
    decreases |ns|
  {
    if ns == [] then []
    else Merge(Take(ns, k), Take(Drop(ns, k), k), cmp) + MergePass(Drop(Drop(ns, k), k), k, cmp)
  }

  /** Every run of length `k` is sorted. */
  ghost predicate RunsSorted<T>(ns: seq<Node<T>>, k: nat, cmp: (T, T) -> int)
    requires k > 0
    decreases |ns|
  {
    ns == [] || (Sorted(Take(ns, k), cmp) && RunsSorted(Drop(ns, k), k, cmp))
  }

  lemma {:induction false} SingletonsSorted<T>(ns: seq<Node<T>>, cmp: (T, T) -> int)
    ensures RunsSorted(ns, 1, cmp)
    decreases |ns|
  {
    if ns == [] {
    } else {
      SingletonsSorted(Drop(ns, 1), cmp);
    }
  }

  /** A pass doubles the length of the sorted runs. */
  lemma {:induction false} PassDoublesRuns<T(!new)>(ns: seq<Node<T>>, k: nat, cmp: (T, T) -> int)
    requires k > 0 && TotalPreorder(cmp) && RunsSorted(ns, k, cmp)
    ensures RunsSorted(MergePass(ns, k, cmp), 2 * k, cmp)
    ensures |MergePass(ns, k, cmp)| == |ns|
    decreases |ns|
  {
    if ns == [] {
    } else {
      var p, q, rest := Take(ns, k), Take(Drop(ns, k), k), Drop(Drop(ns, k), k);
      var m, r := Merge(p, q, cmp), MergePass(rest, k, cmp);
      MergeLength(p, q, cmp);
      MergeSorted(p, q, cmp);
      PassDoublesRuns(rest, k, cmp);
      assert Take(m + r, 2 * k) == m;
      assert Drop(m + r, 2 * k) == r;
    }
  }

  /** A pass keeps every node, and the order of nodes that compare equal. */
  lemma {:induction false} PassStable<T(!new)>(ns: seq<Node<T>>, k: nat, x: T, cmp: (T, T) -> int)
    requires k > 0 && TotalPreorder(cmp) && RunsSorted(ns, k, cmp)
    ensures ClassOf(MergePass(ns, k, cmp), x, cmp) == ClassOf(ns, x, cmp)
    decreases |ns|
  {
    if ns == [] {
    } else {
      var p, q, rest := Take(ns, k), Take(Drop(ns, k), k), Drop(Drop(ns, k), k);
      MergeStable(p, q, x, cmp);
      PassStable(rest, k, x, cmp);
      ClassOfConcat(Merge(p, q, cmp), MergePass(rest, k, cmp), x, cmp);
      ClassOfRuns(ns, k, x, cmp);
    }
  }

  lemma ClassOfRuns<T>(ns: seq<Node<T>>, k: nat, x: T, cmp: (T, T) -> int)
    ensures ClassOf(ns, x, cmp) == ClassOf(Take(ns, k), x, cmp)
      + ClassOf(Take(Drop(ns, k), k), x, cmp) + ClassOf(Drop(Drop(ns, k), k), x, cmp)
  {
    Cut(ns, k);
    Cut(Drop(ns, k), k);
    ClassOfConcat(Take(ns, k), Drop(ns, k), x, cmp);
    ClassOfConcat(Take(Drop(ns, k), k), Drop(Drop(ns, k), k), x, cmp);
  }

  lemma {:induction false} PassMultiset<T>(ns: seq<Node<T>>, k: nat, cmp: (T, T) -> int)
    requires k > 0
    ensures multiset(MergePass(ns, k, cmp)) == multiset(ns)
    decreases |ns|
  {
    if ns == [] {
    } else {
      var p, q, rest := Take(ns, k), Take(Drop(ns, k), k), Drop(Drop(ns, k), k);
      MergeMultiset(p, q, cmp);
      PassMultiset(rest, k, cmp);
      Cut(ns, k);
      Cut(Drop(ns, k), k);
    }
  }

  // ------------------------------------------------------------- on the pointers

  /** The output so far: linked up to its last node, whose pointer is still stale. */
  ghost predicate Tailed<T>(list: Node?<T>, tail: Node?<T>, done: seq<Node<T>>)
    reads done
  {
    && list == First(done, null)
    && tail == (if done == [] then null else done[|done| - 1])
    && Distinct(done)
    && forall i :: 0 <= i < |done| - 1 ==> done[i].next == done[i + 1]
  }

  /** The rest of a run: linked from `p` on for as long as the run goes. */
  ghost predicate Run<T>(p: Node?<T>, ps: seq<Node<T>>)
    reads ps
  {
    && (ps != [] ==> p == ps[0])
    && Distinct(ps)
    && forall i :: 0 <= i < |ps| - 1 ==> ps[i].next == ps[i + 1]
  }

  ghost predicate Apart<A>(a: seq<A>, b: seq<A>) {
    forall i, j :: 0 <= i < |a| && 0 <= j < |b| ==> a[i] != b[j]
  }

  /** Hang `e` behind the output. */
  method Emit<T>(list: Node?<T>, tail: Node?<T>, e: Node<T>, ghost done: seq<Node<T>>)
      returns (list': Node?<T>, tail': Node?<T>)
    requires Tailed(list, tail, done) && Apart(done, [e])
    modifies if tail == null then {} else {tail}
    ensures Tailed(list', tail', done + [e])
  {
    list' := list;
    if tail != null {
      tail.next := e;
      assert forall i :: 0 <= i < |done| - 1 ==> done[i] != tail;
    } else {
      list' := e;
    }
    tail' := e;
  }

  /** The `for` loop: step `q` past the first run. */
  method Advance<T>(p: Node<T>, k: nat, ghost ns: seq<Node<T>>) returns (q: Node?<T>, psize: nat)
    requires k > 0 && ns != [] && IsList(p, ns)
    ensures psize == |Take(ns, k)| && q == First(Drop(ns, k), null)
  {
    q, psize := p, 0;
    while psize < k && q != null
      invariant psize <= k && psize <= |ns| && q == First(ns[psize..], null)
      decreases k - psize
    {
      psize := psize + 1;
      q := q.next;
    }
    assert ns[psize..] == Drop(ns, k);
  }

  /** The three parts of the list while two runs are being merged. */
  ghost predicate Merging<T>(list: Node?<T>, tail: Node?<T>, p: Node?<T>, q: Node?<T>,
                             done: seq<Node<T>>, ps: seq<Node<T>>, qs: seq<Node<T>>)
    reads done, ps, qs
  {
    && Tailed(list, tail, done) && Run(p, ps) && IsList(q, qs)
    && Apart(done, ps) && Apart(done, qs) && Apart(ps, qs)
  }

  /** Take the first node of the first run. */
  method TakeP<T>(list: Node?<T>, tail: Node?<T>, p: Node<T>, ghost q: Node?<T>,
                  ghost done: seq<Node<T>>, ghost ps: seq<Node<T>>, ghost qs: seq<Node<T>>)
      returns (list': Node?<T>, tail': Node?<T>, p': Node?<T>)
    requires Merging(list, tail, p, q, done, ps, qs) && ps != []
    modifies if tail == null then {} else {tail}
    ensures Merging(list', tail', p', q, done + [ps[0]], ps[1..], qs)
  {
    p' := p.next;
    list', tail' := Emit(list, tail, p, done);
  }

  /** Take the first node of the second run. */
  method TakeQ<T>(list: Node?<T>, tail: Node?<T>, ghost p: Node?<T>, q: Node<T>,
                  ghost done: seq<Node<T>>, ghost ps: seq<Node<T>>, ghost qs: seq<Node<T>>)
      returns (list': Node?<T>, tail': Node?<T>, q': Node?<T>)
    requires Merging(list, tail, p, q, done, ps, qs) && qs != []
    modifies if tail == null then {} else {tail}
    ensures Merging(list', tail', p, q', done + [qs[0]], ps, qs[1..])
  {
    q' := q.next;
    list', tail' := Emit(list, tail, q, done);
  }

  lemma MergeOfP<T>(ps: seq<Node<T>>, run: seq<Node<T>>, cmp: (T, T) -> int)
    requires ps != [] && (run == [] || cmp(ps[0].val, run[0].val) <= 0)
    ensures Merge(ps, run, cmp) == [ps[0]] + Merge(ps[1..], run, cmp)
  {
  }

  lemma MergeTakesP<T>(done: seq<Node<T>>, ps: seq<Node<T>>, qs: seq<Node<T>>, k: nat, cmp: (T, T) -> int)
    requires ps != [] && (k == 0 || qs == [] || cmp(ps[0].val, qs[0].val) <= 0)
    ensures done + Merge(ps, Take(qs, k), cmp) == (done + [ps[0]]) + Merge(ps[1..], Take(qs, k), cmp)
  {
    var run := Take(qs, k);
    assert run == [] || run[0] == qs[0];
    var m := Merge(ps[1..], run, cmp);
    assert Merge(ps, run, cmp) == [ps[0]] + m by { MergeOfP(ps, run, cmp); }
    assert done + ([ps[0]] + m) == (done + [ps[0]]) + m;
  }

  lemma MergeTakesQ<T>(done: seq<Node<T>>, ps: seq<Node<T>>, qs: seq<Node<T>>, k: nat, cmp: (T, T) -> int)
    requires qs != [] && k > 0 && (ps == [] || cmp(ps[0].val, qs[0].val) > 0)
    ensures done + Merge(ps, Take(qs, k), cmp) == (done + [qs[0]]) + Merge(ps, Take(qs[1..], k - 1), cmp)
    ensures Drop(qs, k) == Drop(qs[1..], k - 1)
  {
    assert Take(qs, k)[1..] == Take(qs[1..], k - 1);
    var m := Merge(ps, Take(qs[1..], k - 1), cmp);
    assert Merge(ps, Take(qs, k), cmp) == [qs[0]] + m;
    assert done + ([qs[0]] + m) == (done + [qs[0]]) + m;
  }

  ghost predicate Within<T>(ns: seq<Node<T>>, repr: set<Node<T>>) {
    forall i :: 0 <= i < |ns| ==> ns[i] in repr
  }

  /** One turn of the inner loop: picks the run to take from, as the source does. */
  method MergeStep<T>(list0: Node?<T>, tail0: Node?<T>, p0: Node?<T>, psize0: nat, q0: Node?<T>, qsize0: nat,
                      cmp: (T, T) -> int, ghost repr: set<Node<T>>,
                      ghost done0: seq<Node<T>>, ghost ps0: seq<Node<T>>, ghost qs0: seq<Node<T>>)
      returns (list: Node?<T>, tail: Node?<T>, p: Node?<T>, psize: nat, q: Node?<T>, qsize: nat,
               ghost done: seq<Node<T>>, ghost ps: seq<Node<T>>, ghost qs: seq<Node<T>>)
    requires psize0 == |ps0| && Merging(list0, tail0, p0, q0, done0, ps0, qs0)
    requires Within(done0, repr) && Within(ps0, repr) && Within(qs0, repr)
    requires psize0 > 0 || (qsize0 > 0 && q0 != null)
    modifies repr
    ensures psize == |ps| && Merging(list, tail, p, q, done, ps, qs)
    ensures Within(done, repr) && Within(ps, repr) && Within(qs, repr)
    ensures done + Merge(ps, Take(qs, qsize), cmp) == done0 + Merge(ps0, Take(qs0, qsize0), cmp)
    ensures Drop(qs, qsize) == Drop(qs0, qsize0) && |ps| + |qs| < |ps0| + |qs0|
  {
    list, tail, p, psize, q, qsize := list0, tail0, p0, psize0, q0, qsize0;
    if psize == 0 || (qsize != 0 && q != null && cmp(p.val, q.val) > 0) {
      MergeTakesQ(done0, ps0, qs0, qsize, cmp);
      list, tail, q := TakeQ(list, tail, p, q, done0, ps0, qs0);
      done, ps, qs := done0 + [qs0[0]], ps0, qs0[1..];
      qsize := qsize - 1;
    } else {
      MergeTakesP(done0, ps0, qs0, qsize, cmp);
      list, tail, p := TakeP(list, tail, p, q, done0, ps0, qs0);
      done, ps, qs := done0 + [ps0[0]], ps0[1..], qs0;
      psize := psize - 1;
    }
  }

  /** The inner loop: merges the run at `p` with the run of at most `k` nodes at `q`. */
  method MergeRuns<T>(list0: Node?<T>, tail0: Node?<T>, p0: Node?<T>, psize0: nat, q0: Node?<T>, k: nat,
                      cmp: (T, T) -> int, ghost repr: set<Node<T>>,
                      ghost done0: seq<Node<T>>, ghost ps0: seq<Node<T>>, ghost qs0: seq<Node<T>>)
      returns (list: Node?<T>, tail: Node?<T>, q: Node?<T>, ghost done: seq<Node<T>>)
    requires Merging(list0, tail0, p0, q0, done0, ps0, qs0) && psize0 == |ps0|
    requires Within(done0, repr) && Within(ps0, repr) && Within(qs0, repr)
    modifies repr
    ensures done == done0 + Merge(ps0, Take(qs0, k), cmp) && Within(done, repr)
    ensures Tailed(list, tail, done) && IsList(q, Drop(qs0, k)) && Apart(done, Drop(qs0, k))
  {
    list, tail, q, done := list0, tail0, q0, done0;
    var p, psize, qsize := p0, psize0, k;
    ghost var ps, qs := ps0, qs0;
    while psize > 0 || (qsize > 0 && q != null)
      invariant psize == |ps| && Merging(list, tail, p, q, done, ps, qs)
      invariant Within(done, repr) && Within(ps, repr) && Within(qs, repr)
      invariant done + Merge(ps, Take(qs, qsize), cmp) == done0 + Merge(ps0, Take(qs0, k), cmp)
      invariant Drop(qs, qsize) == Drop(qs0, k)
      decreases |ps| + |qs|
    {
      list, tail, p, psize, q, qsize, done, ps, qs :=
        MergeStep(list, tail, p, psize, q, qsize, cmp, repr, done, ps, qs);
    }
    assert Take(qs, qsize) == [];
  }

  /** A pass in progress: `done` is relinked, `rest` is as it was. */
  ghost predicate Passing<T>(list: Node?<T>, tail: Node?<T>, p: Node?<T>, done: seq<Node<T>>, rest: seq<Node<T>>,
                             repr: set<Node<T>>)
    reads done, rest
  {
    && Tailed(list, tail, done) && IsList(p, rest) && Apart(done, rest)
    && Within(done, repr) && Within(rest, repr)
  }

  lemma SplitRuns<T>(list: Node?<T>, tail: Node?<T>, p: Node?<T>, done: seq<Node<T>>, rest: seq<Node<T>>,
                     repr: set<Node<T>>, k: nat)
    requires k > 0 && rest != [] && Passing(list, tail, p, done, rest, repr)
    ensures Merging(list, tail, p, First(Drop(rest, k), null), done, Take(rest, k), Drop(rest, k))
    ensures Within(Take(rest, k), repr) && Within(Drop(rest, k), repr)
  {
  }

  lemma PassUnfolds<T>(done: seq<Node<T>>, rest: seq<Node<T>>, k: nat, cmp: (T, T) -> int)
    requires k > 0 && rest != []
    ensures done + MergePass(rest, k, cmp) ==
      (done + Merge(Take(rest, k), Take(Drop(rest, k), k), cmp)) + MergePass(Drop(Drop(rest, k), k), k, cmp)
  {
    var m, r := Merge(Take(rest, k), Take(Drop(rest, k), k), cmp), MergePass(Drop(Drop(rest, k), k), k, cmp);
    assert MergePass(rest, k, cmp) == m + r;
    assert done + (m + r) == (done + m) + r;
  }

  /** Two runs are `2 * k` nodes, unless the list ends in them. */
  lemma PassLengths<T>(rest: seq<Node<T>>, k: nat, cmp: (T, T) -> int)
    requires k > 0 && rest != []
    ensures var m, r := |Merge(Take(rest, k), Take(Drop(rest, k), k), cmp)|, |Drop(Drop(rest, k), k)|;
      m + r == |rest| && 0 < m <= 2 * k && (r != 0 ==> m == 2 * k)
  {
    MergeLength(Take(rest, k), Take(Drop(rest, k), k), cmp);
  }

  /** One turn of the middle loop: the next two runs are merged into the output. */
  method PassStep<T>(list0: Node?<T>, tail0: Node?<T>, p0: Node<T>, k: nat, cmp: (T, T) -> int,
                     ghost repr: set<Node<T>>, ghost done0: seq<Node<T>>, ghost rest: seq<Node<T>>)
      returns (list: Node?<T>, tail: Node?<T>, p: Node?<T>, ghost done: seq<Node<T>>, ghost rest': seq<Node<T>>)
    requires k > 0 && rest != [] && Passing(list0, tail0, p0, done0, rest, repr)
    modifies repr
    ensures Passing(list, tail, p, done, rest', repr)
    ensures done + MergePass(rest', k, cmp) == done0 + MergePass(rest, k, cmp)
    ensures |done| + |rest'| == |done0| + |rest| && |rest'| < |rest|
    ensures |done| - |done0| <= 2 * k && (rest' != [] ==> |done| - |done0| == 2 * k)
  {
    var q, psize := Advance(p0, k, rest);
    SplitRuns(list0, tail0, p0, done0, rest, repr, k);
    PassUnfolds(done0, rest, k, cmp);
    PassLengths(rest, k, cmp);
    rest' := Drop(Drop(rest, k), k);
    list, tail, p, done := MergeRuns(list0, tail0, p0, psize, q, k, cmp, repr, done0, Take(rest, k), Drop(rest, k));
  }

  /** The last step of a pass: the output ends in null. */
  method Close<T>(list: Node?<T>, tail: Node?<T>, ghost done: seq<Node<T>>)
    requires Tailed(list, tail, done)
    modifies if tail == null then {} else {tail}
    ensures IsList(list, done)
  {
    if tail != null {
      tail.next := null;
      assert forall i :: 0 <= i < |done| - 1 ==> done[i] != tail;
    }
  }

  /** Nothing relinked yet. */
  lemma PassStarts<T>(head: Node?<T>, ns: seq<Node<T>>, repr: set<Node<T>>)
    requires IsList(head, ns) && Within(ns, repr)
    ensures Passing(null, null, head, [], ns, repr)
  {
  }

  /** How the merges so far account for the list. */
  ghost predicate Counted(nmerges: nat, done: nat, rest: nat, k: nat, n: nat) {
    && done + rest == n
    && (nmerges == 0 ==> done == 0)
    && (nmerges == 1 ==> done <= 2 * k && (rest != 0 ==> done == 2 * k))
    && (nmerges > 1 ==> n > 2 * k)
  }

  /** One pass over the list: pairs of runs of length `k`, merged one after the other. */
  method Pass<T>(head: Node?<T>, k: nat, cmp: (T, T) -> int, ghost repr: set<Node<T>>, ghost ns: seq<Node<T>>)
      returns (list: Node?<T>, nmerges: nat)
    requires k > 0 && ns != [] && IsList(head, ns) && Within(ns, repr)
    modifies repr
    ensures IsList(list, MergePass(ns, k, cmp)) && Within(MergePass(ns, k, cmp), repr)
    ensures nmerges <= 1 <==> |ns| <= 2 * k
  {
    var p, tail: Node?<T> := head, null;
    list, nmerges := null, 0;
    ghost var done: seq<Node<T>>, rest, pass := [], ns, MergePass(ns, k, cmp);
    PassStarts(head, ns, repr);
    while p != null
      invariant Passing(list, tail, p, done, rest, repr)
      invariant done + MergePass(rest, k, cmp) == pass
      invariant Counted(nmerges, |done|, |rest|, k, |ns|)
      decreases |rest|
    {
      nmerges := nmerges + 1;
      list, tail, p, done, rest := PassStep(list, tail, p, k, cmp, repr, done, rest);
    }
    Finish(list, tail, done, rest, repr, pass, k, cmp);
  }

  /** The end of a pass: the whole list has been relinked. */
  method Finish<T>(list: Node?<T>, tail: Node?<T>, ghost done: seq<Node<T>>, ghost rest: seq<Node<T>>,
                   ghost repr: set<Node<T>>, ghost pass: seq<Node<T>>, ghost k: nat, ghost cmp: (T, T) -> int)
    requires k > 0 && Passing(list, tail, null, done, rest, repr) && done + MergePass(rest, k, cmp) == pass
    modifies repr
    ensures rest == [] && IsList(list, pass) && Within(pass, repr)
  {
    assert rest == [];
    assert done == pass;
    Close(list, tail, done);
  }

  /** What a list keeps of the original one from pass to pass, with sorted runs of length `k`. */
  ghost predicate Progress<T(!new)>(now: seq<Node<T>>, ns: seq<Node<T>>, k: nat, cmp: (T, T) -> int) {
    && k > 0 && |now| == |ns| && multiset(now) == multiset(ns)
    && RunsSorted(now, k, cmp)
    && forall x :: ClassOf(now, x, cmp) == ClassOf(ns, x, cmp)
  }

  lemma PassProgress<T(!new)>(now: seq<Node<T>>, ns: seq<Node<T>>, k: nat, cmp: (T, T) -> int)
    requires TotalPreorder(cmp) && Progress(now, ns, k, cmp)
    ensures Progress(MergePass(now, k, cmp), ns, 2 * k, cmp)
  {
    PassMultiset(now, k, cmp);
    PassDoublesRuns(now, k, cmp);
    var next := MergePass(now, k, cmp);
    forall x ensures ClassOf(next, x, cmp) == ClassOf(ns, x, cmp) {
      PassStable(now, k, x, cmp);
    }
  }

  /** One run that is the whole list. */
  lemma OneRun<T(!new)>(now: seq<Node<T>>, ns: seq<Node<T>>, k: nat, cmp: (T, T) -> int)
    requires Progress(now, ns, k, cmp) && |ns| <= k
    ensures Sorted(now, cmp)
  {
    assert Take(now, k) == now;
  }

  /**
    `LL_SORT2`: terminates for every length; the result is a list of the same
    nodes, ending in null, sorted, with equal nodes in their old order.
   */
  method Sort<T(!new)>(head: Node?<T>, cmp: (T, T) -> int, ghost ns: seq<Node<T>>)
      returns (head': Node?<T>, ghost ns': seq<Node<T>>)
    requires IsList(head, ns) && TotalPreorder(cmp)
    modifies ns
    ensures IsList(head', ns') && multiset(ns') == multiset(ns)
    ensures Sorted(ns', cmp)
    ensures forall x :: ClassOf(ns', x, cmp) == ClassOf(ns, x, cmp)
  {
    head', ns' := head, ns;
    if head != null {
      var insize: nat, looping := 1, true;
      ghost var repr := set n | n in ns;
      SingletonsSorted(ns, cmp);
      while looping
        invariant IsList(head', ns') && Within(ns', repr)
        invariant Progress(ns', ns, insize, cmp)
        invariant !looping ==> |ns| <= insize
        decreases looping, |ns| - insize
      {
        var nmerges;
        PassProgress(ns', ns, insize, cmp);
        head', nmerges := Pass(head', insize, cmp, repr, ns');
        ns' := MergePass(ns', insize, cmp);
        if nmerges <= 1 { looping := false; }
        insize := 2 * insize;
      }
      OneRun(ns', ns, insize, cmp);
    }
  }
}
