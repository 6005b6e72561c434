/**
  The lists of the scheduler and of the ledger on linked nodes: what their loops do
  to the nodes is what the models on sequences say they do to the lists.
 */
module NodeLists {
  import opened Messages
  import Spec = SchedulerSpec
  import SR = SchedulerRuns
  import opened LinkedList
  import Ledger = AllocationLedger

  ghost function Values<T>(ns: seq<Node<T>>): (vs: seq<T>)
    ensures |vs| == |ns| && forall i :: 0 <= i < |ns| ==> vs[i] == ns[i].val
  {
    seq(|ns|, i requires 0 <= i < |ns| => ns[i].val)
  }

  lemma ValuesCons<T>(ns: seq<Node<T>>)
    requires ns != []
    ensures Values(ns) == [ns[0].val] + Values(ns[1..])
  {
  }

  lemma KeptCons<T>(ns: seq<Node<T>>, drop: T -> bool)
    requires ns != []
    ensures Values(Kept(ns, drop)) ==
      (if drop(ns[0].val) then [] else [ns[0].val]) + Values(Kept(ns[1..], drop))
  {
  }

  function RequestOf(fd: Fd): Fd -> bool {
    x => x == fd
  }

  function EntryAt(ptr: nat): Ledger.Allocation -> bool {
    (a: Ledger.Allocation) => a.ptr == ptr
  }

  lemma {:induction false} KeptRequests(ns: seq<Node<Fd>>, fd: Fd)
    ensures Values(Kept(ns, RequestOf(fd))) == Spec.Without(Values(ns), {fd})
  {
    if ns == [] {
    } else {
      ValuesCons(ns);
      KeptCons(ns, RequestOf(fd));
      KeptRequests(ns[1..], fd);
    }
  }

  lemma {:induction false} KeptAllocations(ns: seq<Node<Ledger.Allocation>>, ptr: nat)
    ensures Values(Kept(ns, EntryAt(ptr))) == Ledger.Without(Values(ns), ptr)
  {
    if ns == [] {
    } else {
      ValuesCons(ns);
      KeptCons(ns, EntryAt(ptr));
      KeptAllocations(ns[1..], ptr);
    }
  }

  // -------------------------------------------------------------- the request queue

  /** `insert_req` on nodes: looks for a request of the client, and appends one if there is none. */
  method InsertRequest(head: Node?<Fd>, fd: Fd, ghost ns: seq<Node<Fd>>)
      returns (head': Node?<Fd>, ghost ns': seq<Node<Fd>>)
    requires IsList(head, ns) && Alive(ns)
    modifies ns`next
    ensures IsList(head', ns') && Alive(ns') && ns <= ns'
    ensures forall s: Spec.Sched :: s.requests == Values(ns) ==> Spec.InsertReq(s, fd).requests == Values(ns')
  {
    head', ns' := head, ns;
    var r := head;
    ghost var i := 0;
    while r != null
      invariant i <= |ns| && r == First(ns[i..], null) && IsList(head, ns)
      invariant forall j :: 0 <= j < i ==> ns[j].val != fd
      decreases |ns| - i
    {
      if r.Val() == fd {
        assert Values(ns)[i] == fd;
        return;
      }
      EndsAtLast(ns, i);
      r := r.Next();
      i := i + 1;
    }
    assert fd !in Values(ns);
    var add := new Node(fd);
    head' := Append(head, add, ns);
    ns' := ns + [add];
    assert Values(ns') == Values(ns) + [fd];
  }

  /** `remove_req` on nodes: exactly the requests of the client are unlinked and freed. */
  method RemoveRequest(head: Node?<Fd>, fd: Fd, ghost ns: seq<Node<Fd>>)
      returns (head': Node?<Fd>, ghost ns': seq<Node<Fd>>)
    requires IsList(head, ns) && Alive(ns)
    modifies ns
    ensures IsList(head', ns') && Alive(ns')
    ensures forall j :: 0 <= j < |ns| && ns[j].val == fd ==> !ns[j].live
    ensures forall s: Spec.Sched :: s.requests == Values(ns) ==> Spec.RemoveReq(s, fd).requests == Values(ns')
  {
    head' := RemoveWhere(head, RequestOf(fd), ns);
    ns' := Kept(ns, RequestOf(fd));
    KeptRequests(ns, fd);
  }

  /** The list half of `remove_cuda_allocation` on nodes. */
  method RemoveEntries(head: Node?<Ledger.Allocation>, ptr: nat, ghost ns: seq<Node<Ledger.Allocation>>)
      returns (head': Node?<Ledger.Allocation>, ghost ns': seq<Node<Ledger.Allocation>>)
    requires IsList(head, ns) && Alive(ns)
    modifies ns
    ensures IsList(head', ns') && Alive(ns') && Values(ns') == Ledger.Without(Values(ns), ptr)
    ensures forall j :: 0 <= j < |ns| && ns[j].val.ptr == ptr ==> !ns[j].live
  {
    head' := RemoveWhere(head, EntryAt(ptr), ns);
    ns' := Kept(ns, EntryAt(ptr));
    KeptAllocations(ns, ptr);
  }

  // --------------------------------------------------------------- the client list

  /** Only the node at `k` has its descriptor. */
  ghost predicate OnlyAt(ns: seq<Node<Spec.Listed>>, k: nat) {
    k < |ns| && forall i :: 0 <= i < |ns| ==> (ns[i].val.fd == ns[k].val.fd <==> i == k)
  }

  lemma DistinctGivesOnlyAt(ns: seq<Node<Spec.Listed>>, k: nat)
    requires SR.DistinctFds(Values(ns)) && k < |ns|
    ensures OnlyAt(ns, k)
  {
    forall i | 0 <= i < |ns| ensures ns[i].val.fd == ns[k].val.fd <==> i == k {
      assert Values(ns)[i] == ns[i].val && Values(ns)[k] == ns[k].val;
    }
  }

  /** Reads a descriptor from a node that may be freed: then it is whatever the memory holds by now. */
  function PeekFd(n: Node<Spec.Listed>, memory: Fd): Fd
    reads n
  {
    if n.live then n.val.fd else memory
  }

  /** The node at `i` goes: it is the client's, or the client's memory has come to read like it. */
  predicate Matches(ns: seq<Node<Spec.Listed>>, k: nat, memory: nat -> Fd, i: nat)
    requires i < |ns|
  {
    i == k || (i > k && ns[i].val.fd == memory(i))
  }

  /** The nodes from `i` on that are left when the client at `k` goes. */
  ghost function Left(ns: seq<Node<Spec.Listed>>, k: nat, memory: nat -> Fd, i: nat): seq<Node<Spec.Listed>>
    requires i <= |ns|
    decreases |ns| - i
  {
    if i == |ns| then []
    else (if Matches(ns, k, memory, i) then [] else [ns[i]]) + Left(ns, k, memory, i + 1)
  }

  /**
    The loop of `delete_client` on nodes. Every turn reads the descriptor from the
    client's own node, also after that node was freed: in turn `i` the freed memory
    reads as `memory(i)`. Left are the nodes that never matched.
   */
  method UnlistClient(head: Node?<Spec.Listed>, client: Node<Spec.Listed>, memory: nat -> Fd,
                      ghost ns: seq<Node<Spec.Listed>>, ghost k: nat)
      returns (head': Node?<Spec.Listed>)
    requires IsList(head, ns) && Alive(ns) && OnlyAt(ns, k) && ns[k] == client
    modifies ns
    ensures IsList(head', Left(ns, k, memory, 0)) && Alive(Left(ns, k, memory, 0))
    ensures forall j :: 0 <= j < |ns| && Matches(ns, k, memory, j) ==> !ns[j].live
  {
    head' := head;
    var el, turn := head, 0;
    ghost var kept: seq<Node<Spec.Listed>>, freed: set<Node<Spec.Listed>> := [], {};
    ghost var all := Left(ns, k, memory, 0);
    WalkStarts(head, ns);
    while el != null
      invariant turn <= |ns| && Walking(head', el, ns, turn, kept, freed)
      invariant kept + Left(ns, k, memory, turn) == all
      invariant Matched(ns, k, memory, turn) <= freed
      decreases |ns| - turn
    {
      Current(head', el, ns, turn, kept, freed);
      head', el, kept, freed := UnlistTurn(head', el, client, memory, ns, k, turn, kept, freed);
      turn := turn + 1;
    }
    Current(head', el, ns, turn, kept, freed);
    assert ns[turn..] == [];
    assert kept + ns[turn..] == kept == all;
    forall j | 0 <= j < |ns| && Matches(ns, k, memory, j) ensures !ns[j].live {
      assert ns[j] in Matched(ns, k, memory, turn);
    }
  }

  ghost function Matched(ns: seq<Node<Spec.Listed>>, k: nat, memory: nat -> Fd, i: nat): set<Node<Spec.Listed>>
    requires i <= |ns|
  {
    set j | 0 <= j < i && Matches(ns, k, memory, j) :: ns[j]
  }

  /** The client's node lives until the walk has passed it. */
  lemma ClientLives(head: Node?<Spec.Listed>, el: Node?<Spec.Listed>, ns: seq<Node<Spec.Listed>>, k: nat,
                    memory: nat -> Fd, i: nat, kept: seq<Node<Spec.Listed>>, freed: set<Node<Spec.Listed>>)
    requires i < |ns| && k < |ns| && Walking(head, el, ns, i, kept, freed) && Matched(ns, k, memory, i) <= freed
    ensures ns[k].live <==> i <= k
  {
    if i <= k {
      assert (kept + ns[i..])[|kept| + (k - i)] == ns[k];
    } else {
      assert ns[k] in Matched(ns, k, memory, i);
    }
  }

  /** What a turn reads decides whether its node matches. */
  lemma ReadMatches(ns: seq<Node<Spec.Listed>>, k: nat, memory: nat -> Fd, i: nat, fd: Fd)
    requires OnlyAt(ns, k) && i < |ns| && fd == if i <= k then ns[k].val.fd else memory(i)
    ensures ns[i].val.fd == fd <==> Matches(ns, k, memory, i)
  {
  }

  lemma LeftStep(ns: seq<Node<Spec.Listed>>, k: nat, memory: nat -> Fd, i: nat, kept: seq<Node<Spec.Listed>>)
    requires i < |ns|
    ensures kept + Left(ns, k, memory, i) ==
      (if Matches(ns, k, memory, i) then kept else kept + [ns[i]]) + Left(ns, k, memory, i + 1)
    ensures Matched(ns, k, memory, i + 1) ==
      Matched(ns, k, memory, i) + if Matches(ns, k, memory, i) then {ns[i]} else {}
  {
  }

  /** One turn of that loop. */
  method UnlistTurn(head: Node<Spec.Listed>, el: Node<Spec.Listed>, client: Node<Spec.Listed>, memory: nat -> Fd,
                    ghost ns: seq<Node<Spec.Listed>>, ghost k: nat, turn: nat,
                    ghost kept: seq<Node<Spec.Listed>>, ghost freed: set<Node<Spec.Listed>>)
      returns (head': Node?<Spec.Listed>, tmp: Node?<Spec.Listed>,
               ghost kept': seq<Node<Spec.Listed>>, ghost freed': set<Node<Spec.Listed>>)
    requires turn < |ns| && Walking(head, el, ns, turn, kept, freed) && Matched(ns, k, memory, turn) <= freed
    requires OnlyAt(ns, k) && ns[k] == client
    modifies ns
    ensures Walking(head', tmp, ns, turn + 1, kept', freed') && Matched(ns, k, memory, turn + 1) <= freed'
    ensures kept' + Left(ns, k, memory, turn + 1) == kept + Left(ns, k, memory, turn)
  {
    Current(head, el, ns, turn, kept, freed);
    ClientLives(head, el, ns, k, memory, turn, kept, freed);
    var fd := PeekFd(client, memory(turn));
    ReadMatches(ns, k, memory, turn, fd);
    LeftStep(ns, k, memory, turn, kept);
    var goes := el.Val().fd == fd;
    kept', freed' := if goes then kept else kept + [ns[turn]], if goes then freed + {ns[turn]} else freed;
    head', tmp := WalkTurn(head, el, goes, ns, turn, kept, freed);
  }

  lemma WithoutStep(ns: seq<Node<Spec.Listed>>, k: nat, i: nat)
    requires OnlyAt(ns, k) && i < |ns|
    ensures Spec.WithoutClients(Values(ns[i..]), {ns[k].val.fd}) ==
      (if i == k then [] else [ns[i].val]) + Spec.WithoutClients(Values(ns[i + 1..]), {ns[k].val.fd})
  {
    ValuesCons(ns[i..]);
    assert ns[i..][1..] == ns[i + 1..];
  }

  lemma LeftValues(ns: seq<Node<Spec.Listed>>, k: nat, memory: nat -> Fd, i: nat)
    requires i < |ns|
    ensures Values(Left(ns, k, memory, i)) ==
      (if Matches(ns, k, memory, i) then [] else [ns[i].val]) + Values(Left(ns, k, memory, i + 1))
  {
  }

  lemma SameTail<T>(a: T, s: seq<T>, t: seq<T>)
    ensures [a] + s == [a] + t <==> s == t
  {
    assert ([a] + s)[1..] == s && ([a] + t)[1..] == t;
  }

  ghost predicate NoMatchFrom(ns: seq<Node<Spec.Listed>>, k: nat, memory: nat -> Fd, i: nat) {
    forall j :: i <= j < |ns| && k < j ==> ns[j].val.fd != memory(j)
  }

  lemma {:induction false} LeftIsWithout(ns: seq<Node<Spec.Listed>>, k: nat, memory: nat -> Fd, i: nat)
    requires OnlyAt(ns, k) && i <= |ns|
    ensures |Left(ns, k, memory, i)| <= |Spec.WithoutClients(Values(ns[i..]), {ns[k].val.fd})|
    ensures Values(Left(ns, k, memory, i)) == Spec.WithoutClients(Values(ns[i..]), {ns[k].val.fd}) <==>
      NoMatchFrom(ns, k, memory, i)
    decreases |ns| - i
  {
    if i == |ns| {
    } else {
      LeftIsWithout(ns, k, memory, i + 1);
      WithoutStep(ns, k, i);
      LeftValues(ns, k, memory, i);
      var left, want := Values(Left(ns, k, memory, i + 1)), Spec.WithoutClients(Values(ns[i + 1..]), {ns[k].val.fd});
      SameTail(ns[i].val, left, want);
      if i > k && ns[i].val.fd == memory(i) {
        assert !NoMatchFrom(ns, k, memory, i);
      } else {
        assert NoMatchFrom(ns, k, memory, i) <==> NoMatchFrom(ns, k, memory, i + 1);
        assert [] + left == left && [] + want == want;
      }
    }
  }

  /** Under a given memory the loop does what it is for exactly when no later client matches it. */
  lemma UnlistedExactly(ns: seq<Node<Spec.Listed>>, k: nat, memory: nat -> Fd)
    requires SR.DistinctFds(Values(ns)) && k < |ns|
    ensures Values(Left(ns, k, memory, 0)) == Spec.WithoutClients(Values(ns), {ns[k].val.fd}) <==>
      forall j :: k < j < |ns| ==> ns[j].val.fd != memory(j)
  {
    DistinctGivesOnlyAt(ns, k);
    LeftIsWithout(ns, k, memory, 0);
    assert ns[0..] == ns;
  }

  /** Whatever freed memory holds: the loop can be trusted exactly when the client is the last one listed. */
  lemma UnlistedWhateverMemory(ns: seq<Node<Spec.Listed>>, k: nat)
    requires SR.DistinctFds(Values(ns)) && k < |ns|
    ensures (forall memory :: Values(Left(ns, k, memory, 0)) == Spec.WithoutClients(Values(ns), {ns[k].val.fd})) <==>
      k + 1 == |ns|
  {
    forall memory: nat -> Fd | k + 1 == |ns|
      ensures Values(Left(ns, k, memory, 0)) == Spec.WithoutClients(Values(ns), {ns[k].val.fd})
    {
      UnlistedExactly(ns, k, memory);
    }
    if k + 1 < |ns| {
      var memory := (j: nat) => ns[k + 1].val.fd;
      UnlistedExactly(ns, k, memory);
    }
  }

  /** Two clients; the first is deleted, its memory comes to read like the second, and both are gone. */
  method SecondClientVanishes() returns (head: Node?<Spec.Listed>)
    ensures head == null
    ensures Spec.WithoutClients([Spec.Listed(1, 10), Spec.Listed(2, 20)], {1}) == [Spec.Listed(2, 20)]
  {
    var a := new Node(Spec.Listed(1, 10));
    var b := new Node(Spec.Listed(2, 20));
    a.SetNext(b);
    ghost var ns := [a, b];
    var memory: nat -> Fd := _ => 2;
    head := UnlistClient(a, a, memory, ns, 0);
    assert Left(ns, 0, memory, 2) == [];
    assert Left(ns, 0, memory, 1) == [];
    assert Left(ns, 0, memory, 0) == [];
    assert [Spec.Listed(1, 10), Spec.Listed(2, 20)][1..] == [Spec.Listed(2, 20)];
  }

  // ------------------------------------------------------------------ the broadcast

  lemma {:induction false} LeftWithoutMatch(ns: seq<Node<Spec.Listed>>, k: nat, memory: nat -> Fd, i: nat)
    requires k < |ns| && i <= |ns| && NoMatchFrom(ns, k, memory, i)
    ensures Left(ns, k, memory, i) == if i <= k then ns[i..k] + ns[k + 1..] else ns[i..]
    decreases |ns| - i
  {
    if i == |ns| {
    } else {
      LeftWithoutMatch(ns, k, memory, i + 1);
      assert ns[i..] == [ns[i]] + ns[i + 1..];
      if i < k { assert ns[i..k] == [ns[i]] + ns[i + 1..k]; }
    }
  }

  /** No freed memory comes to read like the descriptor of a listed client. */
  ghost predicate Harmless(ns: seq<Node<Spec.Listed>>, memory: nat -> nat -> Fd) {
    forall i: nat, j: nat, m: nat :: m < |ns| ==> memory(i)(j) != ns[m].val.fd
  }

  function Unreachable(dead: set<Fd>): Spec.Listed -> bool {
    (c: Spec.Listed) => c.id != UNREGISTERED_ID && c.fd in dead
  }

  /** The registered clients that can be reached, in order. */
  function Reached(cs: seq<Spec.Listed>, dead: set<Fd>): seq<Fd> {
    if cs == [] then []
    else ToldOne(cs[0], dead) + Reached(cs[1..], dead)
  }

  /** `delete_client` on the node that the walk of `bcast_status` has come to. */
  method DeleteVisited(head: Node<Spec.Listed>, el: Node<Spec.Listed>, memory: nat -> Fd,
                       ghost list: seq<Node<Spec.Listed>>, ghost p: nat)
      returns (head': Node?<Spec.Listed>)
    requires p < |list| && At(head, el, list, p) && OnlyAt(list, p) && NoMatchFrom(list, p, memory, 0)
    modifies list
    ensures IsList(head', list[..p] + list[p + 1..]) && Alive(list[..p] + list[p + 1..])
  {
    LeftWithoutMatch(list, p, memory, 0);
    assert list[0..p] == list[..p];
    head' := UnlistClient(head, el, memory, list, p);
  }

  /** What is left of the list still has distinct descriptors, and no freed memory matches one. */
  lemma RestIsHarmless(ns: seq<Node<Spec.Listed>>, memory: nat -> nat -> Fd, kept: seq<Node<Spec.Listed>>, i: nat)
    requires SR.DistinctFds(Values(ns)) && Harmless(ns, memory) && i < |ns|
    requires PartOf(kept, ns) && Distinct(kept + ns[i..])
    ensures OnlyAt(kept + ns[i..], |kept|) && NoMatchFrom(kept + ns[i..], |kept|, memory(i), 0)
  {
    var list := kept + ns[i..];
    assert list[|kept|] == ns[i];
    forall j | 0 <= j < |list|
      ensures list[j].val.fd != memory(i)(j) && (list[j].val.fd == list[|kept|].val.fd <==> j == |kept|)
    {
      assert list[j] in ns by { WalkIsPart(kept, ns, i); }
      var m :| 0 <= m < |ns| && ns[m] == list[j];
      assert Values(ns)[m] == ns[m].val && Values(ns)[i] == ns[i].val;
    }
  }

  lemma ReachedStep(ns: seq<Node<Spec.Listed>>, i: nat, dead: set<Fd>)
    requires i < |ns|
    ensures Reached(Values(ns[i..]), dead) ==
      ToldOne(ns[i].val, dead) + Reached(Values(ns[i + 1..]), dead)
  {
    ValuesCons(ns[i..]);
    assert ns[i..][1..] == ns[i + 1..];
  }

  /**
    One turn of `bcast_status`: the successor is saved, then the client is told the
    status, or deleted by a second walk over the same list.
   */
  method TellNext(head: Node<Spec.Listed>, el: Node<Spec.Listed>, dead: set<Fd>, memory: nat -> Fd,
                  ghost list: seq<Node<Spec.Listed>>, ghost p: nat)
      returns (head': Node?<Spec.Listed>, tmp: Node?<Spec.Listed>, told: seq<Fd>)
    requires p < |list| && At(head, el, list, p) && OnlyAt(list, p) && NoMatchFrom(list, p, memory, 0)
    modifies list
    ensures var goes := Unreachable(dead)(el.val); At(head', tmp, Trimmed(list, p, goes), if goes then p else p + 1)
    ensures told == ToldOne(el.val, dead)
  {
    NextAt(list, p);
    tmp := el.Next();
    head', told := head, [];
    var c := el.Val();
    if c.id != UNREGISTERED_ID {
      if c.fd in dead {
        head' := DeleteVisited(head, el, memory, list, p);
      } else {
        told := [c.fd];
      }
    }
  }

  function ToldOne(c: Spec.Listed, dead: set<Fd>): seq<Fd> {
    if c.id != UNREGISTERED_ID && c.fd !in dead then [c.fd] else []
  }

  /** The same, in terms of the nodes that the walk started with. */
  method BroadcastStep(head: Node<Spec.Listed>, el: Node<Spec.Listed>, dead: set<Fd>, memory: nat -> Fd,
                       ghost kept: seq<Node<Spec.Listed>>, ghost ns: seq<Node<Spec.Listed>>, ghost i: nat)
      returns (head': Node?<Spec.Listed>, tmp: Node?<Spec.Listed>, told: seq<Fd>)
    requires i < |ns| && Walking(head, el, ns, i, kept, {})
    requires OnlyAt(kept + ns[i..], |kept|) && NoMatchFrom(kept + ns[i..], |kept|, memory, 0)
    modifies ns
    ensures Walking(head', tmp, ns, i + 1, if Unreachable(dead)(ns[i].val) then kept else kept + [ns[i]], {})
    ensures told == ToldOne(ns[i].val, dead)
  {
    Current(head, el, ns, i, kept, {});
    TrimmedWalk(kept, ns, i, Unreachable(dead)(ns[i].val));
    WalkIsPart(kept, ns, i);
    head', tmp, told := TellNext(head, el, dead, memory, kept + ns[i..], |kept|);
  }

  lemma BroadcastAccount(ns: seq<Node<Spec.Listed>>, i: nat, dead: set<Fd>, kept: seq<Node<Spec.Listed>>, told: seq<Fd>)
    requires i < |ns|
    ensures var drop := Unreachable(dead);
      kept + Kept(ns[i..], drop) == (if drop(ns[i].val) then kept else kept + [ns[i]]) + Kept(ns[i + 1..], drop)
    ensures told + Reached(Values(ns[i..]), dead) ==
      told + ToldOne(ns[i].val, dead) + Reached(Values(ns[i + 1..]), dead)
  {
    KeptStep(ns, i, kept, Unreachable(dead));
    ReachedStep(ns, i, dead);
    Regroup(told, ToldOne(ns[i].val, dead), Reached(Values(ns[i + 1..]), dead));
  }

  lemma Regroup<A>(a: seq<A>, b: seq<A>, c: seq<A>)
    ensures a + (b + c) == a + b + c
  {
  }

  /**
    `bcast_status` on nodes, as long as freed memory does not come to read like a
    listed client: the walk survives the walks inside it, exactly the unreachable
    registered clients leave the list, and every other registered one is told once.
   */
  method Broadcast(head: Node?<Spec.Listed>, dead: set<Fd>, memory: nat -> nat -> Fd, ghost ns: seq<Node<Spec.Listed>>)
      returns (head': Node?<Spec.Listed>, told: seq<Fd>, ghost ns': seq<Node<Spec.Listed>>)
    requires IsList(head, ns) && Alive(ns) && SR.DistinctFds(Values(ns)) && Harmless(ns, memory)
    modifies ns
    ensures IsList(head', ns') && Alive(ns') && ns' == Kept(ns, Unreachable(dead))
    ensures told == Reached(Values(ns), dead)
  {
    head', told := head, [];
    var el, turn := head, 0;
    ghost var drop := Unreachable(dead);
    ghost var kept: seq<Node<Spec.Listed>> := [];
    ns' := Kept(ns, drop);
    WalkStarts(head, ns);
    assert ns[0..] == ns;
    while el != null
      invariant turn <= |ns| && Walking(head', el, ns, turn, kept, {})
      invariant kept + Kept(ns[turn..], drop) == ns'
      invariant told + Reached(Values(ns[turn..]), dead) == Reached(Values(ns), dead)
      decreases |ns| - turn
    {
      Current(head', el, ns, turn, kept, {});
      RestIsHarmless(ns, memory, kept, turn);
      BroadcastAccount(ns, turn, dead, kept, told);
      var more;
      head', el, more := BroadcastStep(head', el, dead, memory(turn), kept, ns, turn);
      kept := if drop(ns[turn].val) then kept else kept + [ns[turn]];
      told, turn := told + more, turn + 1;
    }
    Current(head', el, ns, turn, kept, {});
    assert ns[turn..] == [];
    assert kept + ns[turn..] == kept == ns';
  }

  // ---------------------------------------------- what the broadcast means to the model

  lemma {:induction false} KeptWithout(ns: seq<Node<Spec.Listed>>, drop: Spec.Listed -> bool, gone: set<Fd>)
    requires forall i :: 0 <= i < |ns| ==> (ns[i].val.fd in gone <==> drop(ns[i].val))
    ensures Values(Kept(ns, drop)) == Spec.WithoutClients(Values(ns), gone)
  {
    if ns == [] {
    } else {
      ValuesCons(ns);
      KeptCons(ns, drop);
      KeptWithout(ns[1..], drop, gone);
    }
  }

  lemma {:induction false} ReachedMembers(cs: seq<Spec.Listed>, dead: set<Fd>, fd: Fd)
    ensures fd in Reached(cs, dead) <==> fd in Spec.RegisteredFds(cs) && fd !in dead
  {
    if cs == [] {
    } else {
      ReachedMembers(cs[1..], dead, fd);
      SR.ConsSets(cs);
    }
  }

  lemma DistinctHead(cs: seq<Spec.Listed>)
    requires cs != [] && SR.DistinctFds(cs)
    ensures SR.DistinctFds(cs[1..]) && cs[0].fd !in Spec.RegisteredFds(cs[1..])
  {
    forall c | c in cs[1..] ensures c.fd != cs[0].fd {
      var i :| 0 <= i < |cs[1..]| && cs[1..][i] == c;
      assert cs[i + 1] == c;
    }
  }

  lemma {:induction false} ReachedOnce(cs: seq<Spec.Listed>, dead: set<Fd>)
    requires SR.DistinctFds(cs)
    ensures Spec.Distinct(Reached(cs, dead))
  {
    if cs == [] {
    } else {
      DistinctHead(cs);
      ReachedOnce(cs[1..], dead);
      ReachedMembers(cs[1..], dead, cs[0].fd);
    }
  }

  /** The node-level broadcast is the broadcast of the model: same clients left, same clients told, each once. */
  lemma BroadcastIsModel(ns: seq<Node<Spec.Listed>>, dead: set<Fd>, s: Spec.Sched)
    requires SR.DistinctFds(Values(ns)) && s.clients == Values(ns)
    ensures var e := Spec.BcastStatus(s, dead);
      && Values(Kept(ns, Unreachable(dead))) == e.s.clients
      && (set fd | fd in Reached(Values(ns), dead)) == e.out.Keys
      && Spec.Distinct(Reached(Values(ns), dead))
  {
    var cs := Values(ns);
    var gone := Spec.RegisteredFds(cs) * dead;
    forall i | 0 <= i < |ns| ensures ns[i].val.fd in gone <==> Unreachable(dead)(ns[i].val) {
      assert cs[i] == ns[i].val && cs[i] in cs;
      if ns[i].val.fd in gone {
        var c :| c in cs && c.fd == ns[i].val.fd && c.id != UNREGISTERED_ID;
        var j :| 0 <= j < |cs| && cs[j] == c;
      }
    }
    KeptWithout(ns, Unreachable(dead), gone);
    ReachedOnce(cs, dead);
    forall fd ensures fd in Reached(cs, dead) <==> fd in Spec.RegisteredFds(cs) && fd !in dead {
      ReachedMembers(cs, dead, fd);
    }
  }
}
