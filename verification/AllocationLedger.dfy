/** The ledger of device allocations kept by the hooked `cuMemAlloc` and `cuMemFree`. */
module AllocationLedger {
  import opened Messages

  /** `size_t` arithmetic wraps at 2^64. */
  const SIZE_LIMIT: nat := 0x1_0000_0000_0000_0000
  const RESERVE: nat := 1536 * 1048576

  datatype Allocation = Allocation(ptr: nat, size: nat)

  /** What is left of the device's memory once the reserve is hidden: `*total - reserve`. */
  function Allocatable(total: nat): nat
    requires total < SIZE_LIMIT
  {
    (total - RESERVE) % SIZE_LIMIT
  }

  function Total(list: seq<Allocation>): nat {
    if list == [] then 0 else list[0].size + Total(list[1..])
  }

  function Without(list: seq<Allocation>, ptr: nat): seq<Allocation> {
    if list == [] then []
    else if list[0].ptr == ptr then Without(list[1..], ptr)
    else [list[0]] + Without(list[1..], ptr)
  }

  lemma {:induction false} TotalSnoc(list: seq<Allocation>, a: Allocation)
    ensures Total(list + [a]) == Total(list) + a.size
  {
    if list == [] {
    } else {
      assert (list + [a])[1..] == list[1..] + [a];
      TotalSnoc(list[1..], a);
    }
  }

  lemma {:induction false} TotalConcat(a: seq<Allocation>, b: seq<Allocation>)
    ensures Total(a + b) == Total(a) + Total(b)
  {
    if a == [] {
      assert a + b == b;
    } else {
      assert (a + b)[1..] == a[1..] + b;
      TotalConcat(a[1..], b);
    }
  }

  /** Taking the entry at `i` out of a partly walked list. */
  lemma TotalStep(kept: seq<Allocation>, list: seq<Allocation>, i: nat)
    requires i < |list|
    ensures Total(kept + list[i..]) == Total(kept + list[i + 1..]) + list[i].size
  {
    TotalConcat(kept, list[i..]);
    TotalConcat(kept, list[i + 1..]);
    assert list[i..][1..] == list[i + 1..];
  }

  lemma SumStep(kept: seq<Allocation>, list: seq<Allocation>, i: nat, sum: nat)
    requires i < |list| && sum == Total(kept + list[i..]) % SIZE_LIMIT
    ensures (sum - list[i].size) % SIZE_LIMIT == Total(kept + list[i + 1..]) % SIZE_LIMIT
  {
    TotalStep(kept, list, i);
    ModSub(Total(kept + list[i + 1..]), list[i].size);
  }

  lemma WithoutStep(kept: seq<Allocation>, list: seq<Allocation>, i: nat, ptr: nat)
    requires i < |list|
    ensures kept + Without(list[i..], ptr) ==
      (if list[i].ptr == ptr then kept else kept + [list[i]]) + Without(list[i + 1..], ptr)
    ensures kept + list[i..] == (kept + [list[i]]) + list[i + 1..]
  {
    assert list[i..][1..] == list[i + 1..];
  }

  lemma {:induction false} WithoutShrinks(list: seq<Allocation>, ptr: nat)
    ensures Total(Without(list, ptr)) <= Total(list)
  {
    if list == [] {
    } else {
      WithoutShrinks(list[1..], ptr);
    }
  }

  /** The sum after the walk has taken off the size of every entry that starts at `ptr`, one after the other. */
  function Subtracted(list: seq<Allocation>, ptr: nat, sum: nat): nat {
    if list == [] then sum
    else Subtracted(list[1..], ptr, if list[0].ptr == ptr then (sum - list[0].size) % SIZE_LIMIT else sum)
  }

  lemma SubtractedStep(list: seq<Allocation>, i: nat, ptr: nat, sum: nat)
    requires i < |list|
    ensures Subtracted(list[i..], ptr, sum) ==
      Subtracted(list[i + 1..], ptr, if list[i].ptr == ptr then (sum - list[i].size) % SIZE_LIMIT else sum)
  {
    assert list[i..][1..] == list[i + 1..];
  }

  /** Taking the sizes off one by one, with wrap-around, leaves the total of the rest of the list. */
  lemma {:induction false} SubtractedIsLive(list: seq<Allocation>, ptr: nat, sum: nat, others: nat)
    requires sum == (others + Total(list)) % SIZE_LIMIT
    ensures Subtracted(list, ptr, sum) == (others + Total(Without(list, ptr))) % SIZE_LIMIT
  {
    if list == [] {
    } else if list[0].ptr == ptr {
      ModSub(others + Total(list[1..]), list[0].size);
      SubtractedIsLive(list[1..], ptr, (sum - list[0].size) % SIZE_LIMIT, others);
    } else {
      SubtractedIsLive(list[1..], ptr, sum, others + list[0].size);
      WithoutKeeps(list, ptr);
    }
  }

  lemma WithoutKeeps(list: seq<Allocation>, ptr: nat)
    requires list != [] && list[0].ptr != ptr
    ensures Total(Without(list, ptr)) == list[0].size + Total(Without(list[1..], ptr))
  {
    assert Without(list, ptr)[1..] == Without(list[1..], ptr);
  }

  datatype CuResult = Success | OutOfMemory | DriverFailure

  class Ledger {
    var sumAllocated: nat
    var list: seq<Allocation>
    var gotMaxMemSize: bool
    var memAllocatable: nat
    const enableSingleOversub: bool

    /** The sum is that of the live list, up to wrap-around. */
    ghost predicate Valid()
      reads this
    {
      sumAllocated == Total(list) % SIZE_LIMIT
    }

    ghost function State(): Book
      reads this
    {
      Book(list, sumAllocated)
    }

    constructor (enableSingleOversub: bool)
      ensures Valid() && list == [] && !gotMaxMemSize && this.enableSingleOversub == enableSingleOversub
    {
      this.enableSingleOversub := enableSingleOversub;
      sumAllocated, list, gotMaxMemSize, memAllocatable := 0, [], false, 0;
    }

    method InsertAllocation(ptr: nat, size: nat)
      requires Valid()
      modifies this`sumAllocated, this`list
      ensures Valid() && list == old(list) + [Allocation(ptr, size)]
      ensures sumAllocated == (old(sumAllocated) + size) % SIZE_LIMIT
    {
      sumAllocated := (sumAllocated + size) % SIZE_LIMIT;
      TotalSnoc(list, Allocation(ptr, size));
      ModAdd(Total(list), size);
      list := list + [Allocation(ptr, size)];
    }

    /** Walks the list and unlinks every entry that starts at `ptr`. */
    method RemoveAllocation(ptr: nat)
      requires Valid()
      modifies this`sumAllocated, this`list
      ensures Valid() && list == Without(old(list), ptr)
      ensures sumAllocated == Subtracted(old(list), ptr, old(sumAllocated))
    {
      var before, kept := list, [];
      assert before[0..] == before;
      for i := 0 to |before|
        invariant list == kept + before[i..] && Valid()
        invariant kept + Without(before[i..], ptr) == Without(before, ptr)
        invariant Subtracted(before[i..], ptr, sumAllocated) == Subtracted(before, ptr, old(sumAllocated))
      {
        WithoutStep(kept, before, i, ptr);
        SubtractedStep(before, i, ptr, sumAllocated);
        kept := VisitEntry(kept, before, i, ptr);
      }
    }

    /** One turn of that walk. */
    method VisitEntry(kept: seq<Allocation>, before: seq<Allocation>, i: nat, ptr: nat) returns (kept': seq<Allocation>)
      requires i < |before| && Valid() && list == kept + before[i..]
      modifies this`sumAllocated, this`list
      ensures Valid() && list == kept' + before[i + 1..]
      ensures kept' == if before[i].ptr == ptr then kept else kept + [before[i]]
      ensures sumAllocated == if before[i].ptr == ptr then (old(sumAllocated) - before[i].size) % SIZE_LIMIT
                              else old(sumAllocated)
    {
      kept' := kept;
      if before[i].ptr == ptr {
        SumStep(kept, before, i, sumAllocated);
        sumAllocated := (sumAllocated - before[i].size) % SIZE_LIMIT;
        list := kept + before[i + 1..];
      } else {
        kept' := kept + [before[i]];
        assert before[i..] == [before[i]] + before[i + 1..];
      }
    }

    /**
      `cuMemAlloc`: `total` is what the first call's memory query reports, `driver`
      the pointer that the driver would return. With oversubscription off this is
      `Step` on the book; with it on, only the driver can refuse.
     */
    method MemAlloc(bytes: nat, total: nat, driver: Option<nat>) returns (r: CuResult)
      requires Valid() && bytes < SIZE_LIMIT && total < SIZE_LIMIT
      modifies this
      ensures Valid()
      ensures memAllocatable == if old(gotMaxMemSize) then old(memAllocatable) else Allocatable(total)
      ensures gotMaxMemSize
      ensures r == if (old(sumAllocated) + bytes) % SIZE_LIMIT > memAllocatable && !enableSingleOversub then OutOfMemory
                   else if driver.None? then DriverFailure else Success
      ensures list == if r == Success then old(list) + [Allocation(driver.value, bytes)] else old(list)
      ensures !enableSingleOversub && memAllocatable == Allocatable(total) ==>
        State() == Step(old(State()), Alloc(bytes, driver), total)
    {
      if !gotMaxMemSize {
        memAllocatable := Allocatable(total);
        gotMaxMemSize := true;
      }
      if (sumAllocated + bytes) % SIZE_LIMIT > memAllocatable && !enableSingleOversub {
        return OutOfMemory;
      }
      if driver.None? { return DriverFailure; }
      InsertAllocation(driver.value, bytes);
      return Success;
    }

    /** `cuMemFree`: the entry goes when the driver says so. */
    method MemFree(ptr: nat, freed: bool)
      requires Valid()
      modifies this`sumAllocated, this`list
      ensures Valid() && list == if freed then Without(old(list), ptr) else old(list)
      ensures forall total :: 0 <= total < SIZE_LIMIT ==> State() == Step(old(State()), Free(ptr, freed), total)
    {
      if freed { RemoveAllocation(ptr); }
    }
  }

  lemma ModAdd(a: nat, b: nat)
    ensures (a % SIZE_LIMIT + b) % SIZE_LIMIT == (a + b) % SIZE_LIMIT
  {
  }

  lemma ModSub(a: nat, b: nat)
    ensures ((a + b) % SIZE_LIMIT - b) % SIZE_LIMIT == a % SIZE_LIMIT
  {
  }

  // ------------------------------------------------------------------ whole histories

  datatype Op =
    | Alloc(bytes: nat, driver: Option<nat>)
    | Free(ptr: nat, freed: bool)

  /** The live list and the sum after a history, on a device with `total` bytes, oversubscription off. */
  datatype Book = Book(list: seq<Allocation>, sum: nat)

  predicate Accepts(b: Book, bytes: nat, total: nat)
    requires total < SIZE_LIMIT
  {
    (b.sum + bytes) % SIZE_LIMIT <= Allocatable(total)
  }

  function Step(b: Book, op: Op, total: nat): Book
    requires total < SIZE_LIMIT
  {
    match op
    case Alloc(bytes, driver) =>
      if Accepts(b, bytes, total) && driver.Some?
      then Book(b.list + [Allocation(driver.value, bytes)], (b.sum + bytes) % SIZE_LIMIT)
      else b
    case Free(ptr, freed) =>
      if freed then Book(Without(b.list, ptr), Subtracted(b.list, ptr, b.sum)) else b
  }

  function After(ops: seq<Op>, total: nat): Book
    requires total < SIZE_LIMIT
  {
    if ops == [] then Book([], 0) else Step(After(ops[..|ops| - 1], total), ops[|ops| - 1], total)
  }

  /** The one request that the limit does not stop although it should. */
  predicate Wraps(b: Book, op: Op, total: nat)
    requires total < SIZE_LIMIT
  {
    op.Alloc? && op.driver.Some? && Accepts(b, op.bytes, total) && b.sum + op.bytes >= SIZE_LIMIT
  }

  lemma {:induction false} SumIsLive(ops: seq<Op>, total: nat)
    requires total < SIZE_LIMIT
    ensures After(ops, total).sum == Total(After(ops, total).list) % SIZE_LIMIT
  {
    if ops == [] {
    } else {
      var b, op := After(ops[..|ops| - 1], total), ops[|ops| - 1];
      SumIsLive(ops[..|ops| - 1], total);
      if op.Free? {
        SubtractedIsLive(b.list, op.ptr, b.sum, 0);
      } else if op.driver.Some? {
        TotalSnoc(b.list, Allocation(op.driver.value, op.bytes));
        ModAdd(Total(b.list), op.bytes);
      }
    }
  }

  /** A step keeps the live total within the limit exactly when it does not wrap the sum. */
  lemma LimitKeptExactly(b: Book, op: Op, total: nat)
    requires RESERVE <= total < SIZE_LIMIT && b.sum == Total(b.list) <= total - RESERVE
    ensures Total(Step(b, op, total).list) <= total - RESERVE <==> !Wraps(b, op, total)
    ensures !Wraps(b, op, total) ==> Step(b, op, total).sum == Total(Step(b, op, total).list)
  {
    if op.Alloc? {
      if op.driver.Some? { TotalSnoc(b.list, Allocation(op.driver.value, op.bytes)); }
    } else {
      WithoutShrinks(b.list, op.ptr);
      SubtractedIsLive(b.list, op.ptr, b.sum, 0);
    }
  }

  /**
    What the limit lets through: as long as nothing wraps, a request the driver would grant is
    recorded if and only if it still fits into the device's memory less 1536 MiB.
   */
  lemma AcceptedExactly(b: Book, bytes: nat, driver: nat, total: nat)
    requires 1536 * 1024 * 1024 <= total < SIZE_LIMIT && b.sum == Total(b.list) && Total(b.list) + bytes < SIZE_LIMIT
    ensures var b' := Step(b, Alloc(bytes, Some(driver)), total);
      if Total(b.list) + bytes <= total - 1536 * 1024 * 1024
      then b'.list == b.list + [Allocation(driver, bytes)] && b'.sum == Total(b'.list)
      else b' == b
  {
    TotalSnoc(b.list, Allocation(driver, bytes));
  }

  /**
    Over every history in which no accepted request wraps the sum: the sum is that
    of the live list, and never exceeds the device's memory less the reserve.
   */
  lemma {:induction false} LedgerLimit(ops: seq<Op>, total: nat)
    requires 1536 * 1024 * 1024 <= total < SIZE_LIMIT
    requires forall k :: 0 <= k < |ops| ==> !Wraps(After(ops[..k], total), ops[k], total)
    ensures After(ops, total).sum == Total(After(ops, total).list) <= total - 1536 * 1024 * 1024
  {
    if ops == [] {
    } else {
      var n := |ops| - 1;
      var front := ops[..n];
      forall k | 0 <= k < n ensures !Wraps(After(front[..k], total), front[k], total) {
        assert front[..k] == ops[..k];
      }
      LedgerLimit(front, total);
      assert !Wraps(After(ops[..n], total), ops[n], total);
      LimitKeptExactly(After(front, total), ops[n], total);
    }
  }

  /**
    The wrap is real as far as this code goes: one byte allocated, then a request for
    all but one byte of the address space. It takes a driver that grants the request;
    the driver is an arbitrary parameter here, and nothing else stands in the way.
   */
  lemma WrapBeatsTheLimit(total: nat) returns (ops: seq<Op>)
    requires RESERVE < total < SIZE_LIMIT
    ensures Total(After(ops, total).list) == SIZE_LIMIT > total - RESERVE && After(ops, total).sum == 0
  {
    var one := [Alloc(1, Some(0))];
    ops := [Alloc(1, Some(0)), Alloc(SIZE_LIMIT - 1, Some(1))];
    assert ops[..1] == one && one[..0] == [];
    assert After(one, total) == Book([Allocation(0, 1)], 1);
    assert After(ops, total).list == [Allocation(0, 1), Allocation(1, SIZE_LIMIT - 1)];
    TotalSnoc([Allocation(0, 1)], Allocation(1, SIZE_LIMIT - 1));
    assert [Allocation(0, 1)] + [Allocation(1, SIZE_LIMIT - 1)] == After(ops, total).list;
  }
}
