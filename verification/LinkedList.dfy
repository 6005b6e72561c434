/**
  The singly linked list macros of `src/utlist.h`, on real nodes: what they do to
  the `next` pointers is what sequence append and sequence filter do to the list.
 */
module LinkedList {

  /**
    A node and the memory it lies in. Freeing it leaves it with any `next` at all; the
    accessors are how live nodes are read, and a freed node cannot be read by them.
   */
  class Node<T> {
    var next: Node?<T>
    const val: T
    var live: bool

    constructor (val: T)
      ensures this.val == val && next == null && live
    {
      this.val := val;
      next, live := null, true;
    }

    function Next(): Node?<T>
      requires live
      reads this
    {
      next
    }

    function Val(): T
      requires live
      reads this
    {
      val
    }

    method SetNext(n: Node?<T>)
      requires live
      modifies this`next
      ensures next == n
    {
      next := n;
    }

    /** `free`: whatever is in the node afterwards. */
    method Free()
      requires live
      modifies this
      ensures !live
    {
      live := false;
      next := *;
    }
  }

  /** None of the nodes is freed. */
  ghost predicate Alive<T>(ns: seq<Node<T>>)
    reads ns
  {
    forall i :: 0 <= i < |ns| ==> ns[i].live
  }

  ghost predicate Distinct<A>(s: seq<A>) {
    forall i, j :: 0 <= i < j < |s| ==> s[i] != s[j]
  }

  /** The node that a list with nodes `ns` starts at, when it goes on at `end`. */
  ghost function First<T>(ns: seq<Node<T>>, end: Node?<T>): Node?<T> {
    if ns == [] then end else ns[0]
  }

  /** The nodes of `ns` are different and linked in this order; the last one points to `end`. */
  ghost predicate Linked<T>(ns: seq<Node<T>>, end: Node?<T>)
    reads ns
  {
    && Distinct(ns)
    && (forall i {:trigger ns[i].next} :: 0 <= i < |ns| - 1 ==> ns[i].next == ns[i + 1])
    && (ns != [] ==> ns[|ns| - 1].next == end)
  }

  /** `head` is a proper list of exactly the nodes `ns`, in this order, ending in null. */
  ghost predicate IsList<T>(head: Node?<T>, ns: seq<Node<T>>)
    reads ns
  {
    head == First(ns, null) && Linked(ns, null)
  }

  /** `LL_APPEND2`: walks to the last node and hangs the new one behind it. */
  method Append<T>(head: Node?<T>, add: Node<T>, ghost ns: seq<Node<T>>) returns (head': Node?<T>)
    requires IsList(head, ns) && Alive(ns) && add !in ns && add.live
    modifies ns`next, add`next
    ensures IsList(head', ns + [add])
  {
    add.SetNext(null);
    if head != null {
      var tmp := head;
      ghost var i := 0;
      while tmp.Next() != null
        invariant 0 <= i < |ns| && tmp == ns[i]
        invariant Linked(ns, null) && add.next == null
        decreases |ns| - i
      {
        tmp := tmp.Next();
        i := i + 1;
      }
      forall j | 0 <= j < |ns| - 1 ensures ns[j].next != null {
        assert ns[j].next == ns[j + 1];
      }
      tmp.SetNext(add);
      assert forall j :: 0 <= j < i ==> ns[j] != tmp;
      head' := head;
    } else {
      head' := add;
    }
  }

  /** The list without one node, if it is there. */
  ghost function Minus<T>(ns: seq<Node<T>>, del: Node<T>): seq<Node<T>> {
    if ns == [] then [] else if ns[0] == del then ns[1..] else [ns[0]] + Minus(ns[1..], del)
  }

  lemma {:induction false} MinusAt<T>(ns: seq<Node<T>>, k: nat)
    requires Distinct(ns) && k < |ns|
    ensures Minus(ns, ns[k]) == ns[..k] + ns[k + 1..]
  {
    if k == 0 {
    } else {
      assert ns[1..][k - 1] == ns[k];
      MinusAt(ns[1..], k - 1);
      assert [ns[0]] + ns[1..][..k - 1] == ns[..k] && ns[1..][k..] == ns[k + 1..];
    }
  }

  lemma {:induction false} MinusAbsent<T>(ns: seq<Node<T>>, del: Node<T>)
    requires del !in ns
    ensures Minus(ns, del) == ns
  {
    if ns == [] {
    } else {
      MinusAbsent(ns[1..], del);
    }
  }

  /**
    `LL_DELETE2` on a list that is not empty: the node before `del` is pointed past
    it; `del` itself is not changed. A node that is not in the list changes nothing,
    and then it need not be live.
   */
  method Delete<T>(head: Node<T>, del: Node<T>, ghost ns: seq<Node<T>>) returns (head': Node?<T>)
    requires IsList(head, ns) && Alive(ns)
    modifies ns`next
    ensures IsList(head', Minus(ns, del))
    ensures del.next == old(del.next)
  {
    if head == del {
      head' := head.Next();
    } else {
      var tmp, i := WalkBefore(head, del, ns);
      if tmp.Next() != null {
        PointPast(head, tmp, del, ns, i + 1);
        MinusAt(ns, i + 1);
      } else {
        MinusAbsent(ns, del);
      }
      head' := head;
    }
  }

  lemma EndsAtLast<T>(ns: seq<Node<T>>, i: nat)
    requires Linked(ns, null) && i < |ns|
    ensures ns[i].next == null <==> i + 1 == |ns|
  {
    if i + 1 < |ns| { assert ns[i].next == ns[i + 1]; }
  }

  /** Walks to the node before `del`, or to the last one if `del` is not there. */
  method WalkBefore<T>(head: Node<T>, del: Node<T>, ghost ns: seq<Node<T>>) returns (tmp: Node<T>, ghost i: nat)
    requires IsList(head, ns) && Alive(ns) && head != del
    ensures i < |ns| && tmp == ns[i]
    ensures if tmp.next == null then del !in ns else i + 1 < |ns| && ns[i + 1] == del
  {
    tmp := head;
    i := 0;
    while tmp.Next() != null && tmp.Next() != del
      invariant 0 <= i < |ns| && tmp == ns[i] && del !in ns[..i + 1]
      decreases |ns| - i
    {
      assert i + 1 < |ns|;
      tmp := tmp.Next();
      i := i + 1;
      assert ns[..i + 1] == ns[..i] + [ns[i]];
    }
    if tmp.next == null {
      EndsAtLast(ns, i);
      assert ns[..i + 1] == ns;
    }
  }

  /** Takes the node at `k` out of the chain through the node before it. */
  method PointPast<T>(head: Node?<T>, tmp: Node<T>, del: Node<T>, ghost ns: seq<Node<T>>, ghost k: nat)
    requires IsList(head, ns) && Alive(ns) && 0 < k < |ns| && ns[k] == del && ns[k - 1] == tmp
    modifies tmp`next
    ensures IsList(head, ns[..k] + ns[k + 1..])
    ensures del.next == old(del.next)
  {
    tmp.SetNext(del.Next());
  }

  /** The nodes that a predicate on their values spares. */
  ghost function Kept<T>(ns: seq<Node<T>>, drop: T -> bool): seq<Node<T>> {
    if ns == [] then []
    else if drop(ns[0].val) then Kept(ns[1..], drop)
    else [ns[0]] + Kept(ns[1..], drop)
  }

  // ------------------------------------------------------- walks that take nodes out

  /** A walk over a proper list of live nodes that has come to position `p`. */
  ghost predicate At<T>(head: Node?<T>, el: Node?<T>, list: seq<Node<T>>, p: nat)
    reads list
  {
    && p <= |list| && IsList(head, list) && Alive(list)
    && el == if p < |list| then list[p] else null
  }

  ghost predicate Freed<T>(freed: set<Node<T>>)
    reads freed
  {
    forall n :: n in freed ==> !n.live
  }

  /** The list after a turn at `p`, and where the walk stands in it. */
  ghost function Trimmed<A>(list: seq<A>, p: nat, goes: bool): seq<A>
    requires p < |list|
  {
    if goes then list[..p] + list[p + 1..] else list
  }

  /**
    One turn of a walk with deletion: the successor is read first, then the current
    node is unlinked and freed, or stays.
   */
  method WalkStep<T>(head: Node<T>, el: Node<T>, goes: bool, ghost list: seq<Node<T>>, ghost p: nat,
                     ghost freed: set<Node<T>>)
      returns (head': Node?<T>, tmp: Node?<T>)
    requires p < |list| && At(head, el, list, p) && Freed(freed)
    modifies list
    ensures At(head', tmp, Trimmed(list, p, goes), if goes then p else p + 1)
    ensures Freed(if goes then freed + {el} else freed)
  {
    NextAt(list, p);
    tmp := el.Next();
    head' := head;
    if goes {
      MinusAt(list, p);
      head' := Delete(head, el, list);
      FreeFrom(head', el, list, p);
    }
  }

  lemma NextAt<T>(list: seq<Node<T>>, p: nat)
    requires Linked(list, null) && p < |list|
    ensures list[p].next == if p + 1 < |list| then list[p + 1] else null
  {
  }

  /** `free` on a node that was unlinked before: the list does not notice. */
  method FreeFrom<T>(head: Node?<T>, el: Node<T>, ghost list: seq<Node<T>>, ghost p: nat)
    requires p < |list| && list[p] == el && Distinct(list) && Alive(list)
    requires IsList(head, list[..p] + list[p + 1..])
    modifies el
    ensures IsList(head, list[..p] + list[p + 1..]) && Alive(list[..p] + list[p + 1..]) && !el.live
  {
    ghost var rest := list[..p] + list[p + 1..];
    forall j | 0 <= j < |rest| ensures rest[j] != el && rest[j].live {
      assert rest[j] == if j < p then list[j] else list[j + 1];
    }
    el.Free();
  }

  /** Where the walk stands in terms of the nodes it started with. */
  lemma TrimmedWalk<A>(kept: seq<A>, ns: seq<A>, i: nat, goes: bool)
    requires i < |ns|
    ensures (kept + ns[i..])[|kept|] == ns[i]
    ensures Trimmed(kept + ns[i..], |kept|, goes) == (if goes then kept else kept + [ns[i]]) + ns[i + 1..]
  {
    var list := kept + ns[i..];
    assert ns[i..][0] == ns[i] && ns[i..][1..] == ns[i + 1..];
    assert list[..|kept|] == kept && list[|kept| + 1..] == ns[i + 1..];
    assert list == kept + [ns[i]] + ns[i + 1..];
  }

  ghost predicate PartOf<A>(part: seq<A>, ns: seq<A>) {
    forall j :: 0 <= j < |part| ==> part[j] in ns
  }

  lemma WalkIsPart<A>(kept: seq<A>, ns: seq<A>, i: nat)
    requires PartOf(kept, ns) && i <= |ns|
    ensures PartOf(kept + ns[i..], ns)
    ensures i < |ns| ==> PartOf(kept + [ns[i]], ns)
  {
    var list := kept + ns[i..];
    forall j | 0 <= j < |list| ensures list[j] in ns {
      if j < |kept| { assert list[j] == kept[j]; } else { assert list[j] == ns[i + (j - |kept|)]; }
    }
  }

  /** A walk in progress: `kept` and the rest of `ns` are left, `freed` is gone. */
  ghost predicate Walking<T>(head: Node?<T>, el: Node?<T>, ns: seq<Node<T>>, i: nat, kept: seq<Node<T>>,
                             freed: set<Node<T>>)
    requires i <= |ns|
    reads kept, ns, freed
  {
    PartOf(kept, ns) && At(head, el, kept + ns[i..], |kept|) && Freed(freed)
  }

  lemma WalkStarts<T>(head: Node?<T>, ns: seq<Node<T>>)
    requires IsList(head, ns) && Alive(ns)
    ensures Walking(head, head, ns, 0, [], {})
  {
    assert [] + ns[0..] == ns;
  }

  /** A turn of a walk, in terms of the nodes it started with. */
  method WalkTurn<T>(head: Node<T>, el: Node<T>, goes: bool, ghost ns: seq<Node<T>>, ghost i: nat,
                     ghost kept: seq<Node<T>>, ghost freed: set<Node<T>>)
      returns (head': Node?<T>, tmp: Node?<T>)
    requires i < |ns| && Walking(head, el, ns, i, kept, freed)
    modifies ns
    ensures Walking(head', tmp, ns, i + 1, if goes then kept else kept + [ns[i]],
                    if goes then freed + {ns[i]} else freed)
  {
    TrimmedWalk(kept, ns, i, goes);
    WalkIsPart(kept, ns, i);
    head', tmp := WalkStep(head, el, goes, kept + ns[i..], |kept|, freed);
  }

  lemma KeptStep<T>(ns: seq<Node<T>>, i: nat, kept: seq<Node<T>>, drop: T -> bool)
    requires i < |ns|
    ensures kept + Kept(ns[i..], drop) ==
      (if drop(ns[i].val) then kept else kept + [ns[i]]) + Kept(ns[i + 1..], drop)
  {
    assert ns[i..][1..] == ns[i + 1..];
  }

  /** The current node is the one at `i`, and it is live. */
  lemma Current<T>(head: Node?<T>, el: Node?<T>, ns: seq<Node<T>>, i: nat, kept: seq<Node<T>>, freed: set<Node<T>>)
    requires i <= |ns| && Walking(head, el, ns, i, kept, freed)
    ensures el == if i < |ns| then ns[i] else null
    ensures el != null ==> el.live
  {
    assert |kept + ns[i..]| == |kept| + |ns| - i;
    if i < |ns| { assert (kept + ns[i..])[|kept|] == ns[i]; }
  }

  ghost function Dropped<T>(ns: seq<Node<T>>, drop: T -> bool): set<Node<T>> {
    set n | n in ns && drop(n.val)
  }

  lemma DroppedStep<T>(ns: seq<Node<T>>, i: nat, drop: T -> bool)
    requires i < |ns|
    ensures Dropped(ns[..i + 1], drop) == Dropped(ns[..i], drop) + if drop(ns[i].val) then {ns[i]} else {}
  {
    assert ns[..i + 1] == ns[..i] + [ns[i]];
  }

  /** One turn of the walk below, with the account of who is left. */
  method RemoveTurn<T>(head: Node<T>, el: Node<T>, drop: T -> bool, ghost ns: seq<Node<T>>, ghost i: nat,
                       ghost kept: seq<Node<T>>, ghost freed: set<Node<T>>)
      returns (head': Node?<T>, tmp: Node?<T>, ghost kept': seq<Node<T>>, ghost freed': set<Node<T>>)
    requires i < |ns| && Walking(head, el, ns, i, kept, freed) && Dropped(ns[..i], drop) <= freed
    modifies ns
    ensures Walking(head', tmp, ns, i + 1, kept', freed') && Dropped(ns[..i + 1], drop) <= freed'
    ensures kept' + Kept(ns[i + 1..], drop) == kept + Kept(ns[i..], drop)
  {
    Current(head, el, ns, i, kept, freed);
    KeptStep(ns, i, kept, drop);
    DroppedStep(ns, i, drop);
    var goes := drop(el.Val());
    kept', freed' := if goes then kept else kept + [ns[i]], if goes then freed + {ns[i]} else freed;
    head', tmp := WalkTurn(head, el, goes, ns, i, kept, freed);
  }

  /**
    `LL_FOREACH_SAFE2` around `LL_DELETE` and `free`: the walk remembers the next
    node before it unlinks the current one. It leaves a list of exactly the spared
    nodes, in order and live, and frees exactly the others, each once. No freed node is
    read: every access is to a live node, and a freed one may hold anything.
   */
  method RemoveWhere<T>(head: Node?<T>, drop: T -> bool, ghost ns: seq<Node<T>>) returns (head': Node?<T>)
    requires IsList(head, ns) && Alive(ns)
    modifies ns
    ensures IsList(head', Kept(ns, drop)) && Alive(Kept(ns, drop))
    ensures forall j :: 0 <= j < |ns| && drop(ns[j].val) ==> !ns[j].live
  {
    head' := head;
    var el := head;
    ghost var i := 0;
    ghost var kept: seq<Node<T>>, freed: set<Node<T>> := [], {};
    ghost var all := Kept(ns, drop);
    WalkStarts(head, ns);
    assert ns[0..] == ns;
    while el != null
      invariant i <= |ns| && Walking(head', el, ns, i, kept, freed)
      invariant kept + Kept(ns[i..], drop) == all
      invariant Dropped(ns[..i], drop) <= freed
      decreases |ns| - i
    {
      Current(head', el, ns, i, kept, freed);
      head', el, kept, freed := RemoveTurn(head', el, drop, ns, i, kept, freed);
      i := i + 1;
    }
    Current(head', el, ns, i, kept, freed);
    assert ns[i..] == [] && ns[..i] == ns;
    assert kept + ns[i..] == kept == all;
    forall j | 0 <= j < |ns| && drop(ns[j].val) ensures !ns[j].live {
      assert ns[j] in Dropped(ns, drop);
    }
  }
}
