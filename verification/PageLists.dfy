/**
 The block lists of a page as the linked lists they are (page.cpp:209-286, 581-673;
 alloc.cpp:39-57). A block is known by its index; `next` is the link stored in each block.
 */
module PageLists {
  import opened Sequences
  import opened Words

  const MAX_SLICE_SHIFT: nat := 6

  type Links = seq<Option<nat>>

  function NextOf(l: seq<nat>, i: nat): Option<nat>
    requires i < |l|
  {
    if i + 1 < |l| then Some(l[i + 1]) else None
  }

  predicate LinkAt(next: Links, l: seq<nat>, i: nat) {
    i < |l| && l[i] < |next| && next[l[i]] == NextOf(l, i)
  }

  /** From `head`, the links lead through exactly `l`. */
  ghost predicate Linked(next: Links, head: Option<nat>, l: seq<nat>) {
    && head == First(l)
    && forall i {:trigger LinkAt(next, l, i)} :: 0 <= i < |l| ==> LinkAt(next, l, i)
  }

  /** The blocks of `order` are linked one after the other; where the last one leads is open. */
  ghost predicate InOrder(next: Links, order: seq<nat>) {
    forall i {:trigger LinkAt(next, order, i)} :: 0 <= i < |order| - 1 ==> LinkAt(next, order, i)
  }

  /** Links of other blocks do not matter. */
  lemma LinkedSame(next: Links, next': Links, head: Option<nat>, l: seq<nat>)
    requires Linked(next, head, l) && |next'| == |next|
    requires forall b :: b in l && b < |next| ==> next'[b] == next[b]
    ensures Linked(next', head, l)
  {
    forall i: nat | i < |l| ensures LinkAt(next', l, i) {
      assert LinkAt(next, l, i) && l[i] in l;
    }
  }

  /** The last block of one list is linked to the first of another. */
  lemma LinkedJoin(next: Links, l: seq<nat>, m: seq<nat>, mhead: Option<nat>)
    requires l != [] && Linked(next, Some(l[0]), l) && Linked(next, mhead, m) && l[|l| - 1] < |next|
    requires NoDup(l) && forall b :: b in l ==> b !in m
    ensures Linked(next[l[|l| - 1] := mhead], Some(l[0]), l + m)
  {
    var r := l + m;
    var next' := next[l[|l| - 1] := mhead];
    forall i: nat | i < |r| ensures LinkAt(next', r, i) {
      if i < |l| {
        assert LinkAt(next, l, i);
      } else {
        assert LinkAt(next, m, i - |l|) && m[i - |l|] in m;
        assert l[|l| - 1] in l;
      }
    }
  }

  lemma LinkedTail(next: Links, head: Option<nat>, l: seq<nat>)
    requires Linked(next, head, l) && l != []
    ensures l[0] < |next| && Linked(next, next[l[0]], l[1..])
  {
    assert LinkAt(next, l, 0);
    forall i: nat | i < |l[1..]| ensures LinkAt(next, l[1..], i) { assert LinkAt(next, l, i + 1); }
  }

  /** All members of `l` are below `n`. */
  predicate Below(l: seq<nat>, n: nat) {
    forall b :: b in l ==> b < n
  }

  ghost predicate Apart(l: seq<nat>, m: seq<nat>) {
    NoDup(l) && NoDup(m) && forall b :: b in l ==> b !in m
  }

  lemma JoinApart(l: seq<nat>, m: seq<nat>)
    requires Apart(l, m)
    ensures NoDup(l + m) && forall b :: b in l + m <==> b in l || b in m
  {
    forall i, j | 0 <= i < j < |l + m| ensures (l + m)[i] != (l + m)[j] {
      if i < |l| <= j { assert (l + m)[i] in l && (l + m)[j] in m; }
    }
  }

  /** A list of different blocks is no longer than there are blocks. */
  lemma NoLonger(l: seq<nat>, n: nat)
    requires NoDup(l) && Below(l, n)
    ensures |l| <= n
  {
    NoDupSize(l, Between(0, n));
  }

  class PageBlocks {
    const next: array<Option<nat>>
    var free: Option<nat>
    var localFree: Option<nat>
    var capacity: nat
    var used: int
    ghost var freeList: seq<nat>
    ghost var localList: seq<nat>

    ghost predicate Valid()
      reads this, next
    {
      && capacity <= next.Length
      && Linked(next[..], free, freeList) && Linked(next[..], localFree, localList)
      && Apart(freeList, localList) && Below(freeList, capacity) && Below(localList, capacity)
    }

    /** A page with room for `reserved` blocks, none of them usable yet. */
    constructor (reserved: nat)
      ensures Valid() && next.Length == reserved && capacity == 0 && used == 0 && freeList == [] && localList == []
    {
      next := new Option<nat>[reserved](_ => None);
      free, localFree, capacity, used := None, None, 0, 0;
      freeList, localList := [], [];
    }

    /** `_mi_page_malloc`, the fast path; none when the free list is empty. */
    method Malloc() returns (block: Option<nat>)
      requires Valid()
      modifies this`free, this`used, this`freeList
      ensures Valid()
      ensures old(freeList) == [] ==> block == None && freeList == [] && used == old(used)
      ensures old(freeList) != [] ==> block == Some(old(freeList)[0]) && freeList == old(freeList)[1..] && used == old(used) + 1
    {
      if free.None? {
        return None;
      }
      LinkedTail(next[..], free, freeList);
      block := free;
      used := used + 1;
      free := next[block.value];
      assert forall b :: b in freeList[1..] ==> b in freeList;
      freeList := freeList[1..];
    }

    /** The local part of `_mi_free_block`. */
    method FreeLocal(b: nat)
      requires Valid() && b < capacity && b !in freeList && b !in localList
      modifies this`localFree, this`used, this`localList, next
      ensures Valid() && localList == [b] + old(localList) && used == old(used) - 1
    {
      next[b] := localFree;
      LinkedSame(old(next[..]), next[..], free, freeList);
      LinkedSame(old(next[..]), next[..], localFree, localList);
      localFree := Some(b);
      used := used - 1;
      ghost var l := [b] + localList;
      forall i: nat | i < |l| ensures LinkAt(next[..], l, i) {
        if i > 0 { assert LinkAt(next[..], localList, i - 1); }
      }
      assert forall x :: x in l <==> x == b || x in localList;
      localList := l;
    }

    /**
     `_mi_page_thread_free_collect` after the exchange that took the list `chain` of other threads.
     A list of blocks of the page is never found to be corrupted.
     */
    method CollectThreadFree(head: Option<nat>, ghost chain: seq<nat>) returns (corrupted: bool)
      requires Valid() && Linked(next[..], head, chain) && Below(chain, capacity)
      requires Apart(chain, freeList) && Apart(chain, localList)
      modifies this`localFree, this`used, this`localList, next
      ensures Valid() && !corrupted
      ensures localList == chain + old(localList) && used == old(used) - |chain|
    {
      corrupted := false;
      if head.None? {
        return;
      }
      NoLonger(chain, capacity);
      var maxCount := capacity;
      var count: nat := 1;
      var tail := head.value;
      assert LinkAt(next[..], chain, 0);
      while next[tail].Some? && count <= maxCount
        invariant 1 <= count <= |chain| && chain[count - 1] == tail && tail < next.Length
        decreases |chain| - count
      {
        assert LinkAt(next[..], chain, count - 1);
        assert LinkAt(next[..], chain, count);
        count := count + 1;
        tail := next[tail].value;
      }
      assert LinkAt(next[..], chain, count - 1);
      if count > maxCount {
        corrupted := true;
        return;
      }
      LinkedJoin(next[..], chain, localList, localFree);
      next[tail] := localFree;
      LinkedSame(old(next[..]), next[..], free, freeList);
      JoinApart(chain, localList);
      localFree := head;
      used := used - count;
      localList := chain + localList;
    }

    /** The second half of `_mi_page_free_collect`: the local list becomes the free list, or its front. */
    method CollectLocal(force: bool)
      requires Valid()
      modifies this`free, this`localFree, this`freeList, this`localList, next
      ensures Valid()
      ensures if old(localList) == [] || (old(freeList) != [] && !force)
              then freeList == old(freeList) && localList == old(localList)
              else freeList == old(localList) + old(freeList) && localList == []
    {
      if localFree.None? {
        return;
      }
      if free.None? {
        free, localFree := localFree, None;
        freeList, localList := localList + freeList, [];
        assert freeList == old(localList);
      } else if force {
        var tail := localFree.value;
        ghost var k := 0;
        assert LinkAt(next[..], localList, 0);
        while next[tail].Some?
          invariant k < |localList| && localList[k] == tail && tail < next.Length
          decreases |localList| - k
        {
          assert LinkAt(next[..], localList, k);
          assert LinkAt(next[..], localList, k + 1);
          tail := next[tail].value;
          k := k + 1;
        }
        assert LinkAt(next[..], localList, k);
        LinkedJoin(next[..], localList, freeList, free);
        next[tail] := free;
        free, localFree := localFree, None;
        JoinApart(localList, freeList);
        freeList, localList := localList + freeList, [];
      }
    }

    // -------------------------------------------------------------- extending the free list

    /** The last steps of both ways to extend: link to the old list, and the new capacity. */
    method Attach(ghost order: seq<nat>, ghost before: Links, first: nat, last: nat, extend: nat)
      requires Permutes(order, capacity, extend) && 0 < extend && capacity + extend <= next.Length == |before|
      requires first == order[0] && last == order[extend - 1]
      requires InOrder(next[..], order)
      requires forall b :: 0 <= b < capacity ==> next[b] == before[b]
      requires Linked(before, free, freeList) && Linked(before, localFree, localList)
      requires Apart(freeList, localList) && Below(freeList, capacity) && Below(localList, capacity)
      modifies this`free, this`capacity, this`freeList, next
      ensures Valid() && capacity == old(capacity) + extend && freeList == order + old(freeList)
    {
      assert last in order;
      next[last] := free;
      forall j: nat | j < extend - 1 ensures LinkAt(next[..], order, j) { assert LinkAt(old(next[..]), order, j); }
      Prepended(before, next[..], free, freeList, localFree, localList, order, capacity);
      free := Some(first);
      freeList := order + freeList;
      capacity := capacity + extend;
    }

    /** `mi_page_free_list_extend` and the new capacity: the new blocks in order, then the old list. */
    method Extend(extend: nat)
      requires Valid() && 0 < extend && capacity + extend <= next.Length
      modifies this`free, this`capacity, this`freeList, next
      ensures Valid() && capacity == old(capacity) + extend
      ensures freeList == Counting(old(capacity), extend) + old(freeList)
    {
      var start := capacity;
      var last := capacity + extend - 1;
      var block := start;
      while block <= last
        modifies next
        invariant start <= block <= last + 1
        invariant forall b :: start <= b < block ==> next[b] == Some(b + 1)
        invariant forall b :: 0 <= b < start ==> next[b] == old(next[b])
      {
        next[block] := Some(block + 1);
        block := block + 1;
      }
      assert InOrder(next[..], Counting(start, extend));
      Attach(Counting(start, extend), old(next[..]), start, last, extend);
    }

    /** The new blocks, taken from slices in an order that the random numbers decide (page.cpp:594-641). */
    method LinkRandomly(extend: nat, start: nat, pick: nat -> nat) returns (first: nat, last: nat, ghost order: seq<nat>)
      requires 0 < extend && capacity + extend <= next.Length
      modifies next
      ensures Permutes(order, capacity, extend) && first == order[0] && last == order[extend - 1]
      ensures InOrder(next[..], order)
      ensures AsPicked(order, capacity, extend, start, pick)
      ensures forall b :: 0 <= b < capacity ==> next[b] == old(next[b])
    {
      var n := SliceCount(extend);
      var blocks, counts, bound := MakeSlices(capacity, extend, n);
      var current := start % n;
      assert bound[current] < bound[current + 1];
      counts[current] := counts[current] - 1;
      first := blocks[current];
      FirstThreaded(blocks[..], counts[..], bound, current);
      FirstPicked(bound, n, current, start, pick);
      last, order := LinkRest(blocks, counts, bound, n, current, start, pick, extend);
      AllPicked(bound, n, order, capacity, extend, start, pick);
    }

    /** The loop over the other blocks (page.cpp:619-641). */
    method LinkRest(blocks: array<nat>, counts: array<nat>, ghost bound: seq<nat>, n: nat, current0: nat, ghost start: nat, pick: nat -> nat, extend: nat)
      returns (last: nat, ghost order: seq<nat>)
      requires blocks != counts && n == blocks.Length == counts.Length && current0 < n && 0 < extend
      requires Threaded(blocks[..], counts[..], bound, current0, [blocks[current0]])
      requires capacity == bound[0] && bound[n] == capacity + extend && capacity + extend <= next.Length
      requires PickedSoFar(bound, n, [blocks[current0]], start, pick)
      modifies next, blocks, counts
      ensures Permutes(order, capacity, extend) && order[0] == old(blocks[current0]) && last == order[extend - 1]
      ensures InOrder(next[..], order) && PickedSoFar(bound, n, order, start, pick)
      ensures forall b :: 0 <= b < capacity ==> next[b] == old(next[b])
    {
      var current := current0;
      order := [blocks[current]];
      for i := 1 to extend
        modifies next, blocks, counts
        invariant |order| == i && order[0] == old(blocks[current0])
        invariant Threaded(blocks[..], counts[..], bound, current, order)
        invariant InOrder(next[..], order) && PickedSoFar(bound, n, order, start, pick)
        invariant forall b :: 0 <= b < capacity ==> next[b] == old(next[b])
      {
        current := Round(blocks, counts, bound, n, current, order, start, pick, pick(i) % n, extend);
        order := order + [blocks[current]];
      }
      AllThreaded(blocks[..], counts[..], bound, current, order);
      last := blocks[current];
    }

    /** One round of the loop (page.cpp:621-640): the next slice that has blocks left, and its first one. */
    method Round(blocks: array<nat>, counts: array<nat>, ghost bound: seq<nat>, n: nat, current: nat, ghost order: seq<nat>,
                 ghost start: nat, ghost pick: nat -> nat, from: nat, ghost extend: nat)
      returns (current': nat)
      requires blocks != counts && n == blocks.Length == counts.Length && n > 0 && from == From(|order|, n, start, pick)
      requires Threaded(blocks[..], counts[..], bound, current, order) && capacity == bound[0] && bound[n] == capacity + extend && capacity + extend <= next.Length
      requires InOrder(next[..], order) && PickedSoFar(bound, n, order, start, pick) && |order| < extend
      modifies next, blocks, counts
      ensures current' < n && Threaded(blocks[..], counts[..], bound, current', order + [blocks[current']])
      ensures InOrder(next[..], order + [blocks[current']]) && PickedSoFar(bound, n, order + [blocks[current']], start, pick)
      ensures forall b :: 0 <= b < capacity ==> next[b] == old(next[b])
    {
      SomeLeft(blocks[..], counts[..], bound, current, order, extend);
      var slice := NextSlice(counts, n, from);
      NextPicked(blocks[..], counts[..], bound, current, order, from, slice);
      StillPicked(bound, n, order, Unused(blocks[..], slice, current), start, pick);
      current' := Step(blocks, counts, bound, current, slice, order, capacity + extend);
    }

    /** One round: the current block is linked to the first unused one of the slice (page.cpp:636-640). */
    method Step(blocks: array<nat>, counts: array<nat>, ghost bound: seq<nat>, current: nat, slice: nat, ghost order: seq<nat>, ghost end: nat)
      returns (current': nat)
      requires blocks != counts && blocks.Length == counts.Length && slice < counts.Length && counts[slice] > 0
      requires Threaded(blocks[..], counts[..], bound, current, order) && capacity == bound[0] && bound[blocks.Length] == end && capacity <= end <= next.Length
      requires InOrder(next[..], order)
      modifies next, blocks, counts
      ensures current' == slice && Threaded(blocks[..], counts[..], bound, slice, order + [blocks[slice]])
      ensures blocks[slice] == old(Unused(blocks[..], slice, current))
      ensures InOrder(next[..], order + [blocks[slice]])
      ensures forall b :: 0 <= b < capacity ==> next[b] == old(next[b])
    {
      ghost var blocks0, counts0 := blocks[..], counts[..];
      counts[slice] := counts[slice] - 1;
      var block := blocks[current];
      blocks[current] := block + 1;
      assert counts[..] == counts0[slice := counts0[slice] - 1] && blocks[..] == blocks0[current := blocks0[current] + 1];
      NextThreaded(blocks0, blocks[..], counts0, counts[..], bound, current, slice, order);
      assert block in order;
      next[block] := Some(blocks[slice]);
      ghost var order1 := order + [blocks[slice]];
      forall j: nat | j < |order1| - 1 ensures LinkAt(next[..], order1, j) {
        if j < |order| - 1 { assert LinkAt(old(next[..]), order, j) && order[j] != block; }
      }
      current' := slice;
    }

    /**
     `mi_page_free_list_extend_secure` and the new capacity. `start` and `pick` are what the random
     generator yields: for all of them the new blocks come once each, then the old list.
     */
    method ExtendSecure(extend: nat, start: nat, pick: nat -> nat) returns (ghost order: seq<nat>)
      requires Valid() && 0 < extend && capacity + extend <= next.Length
      modifies this`free, this`capacity, this`freeList, next
      ensures Valid() && capacity == old(capacity) + extend
      ensures Permutes(order, old(capacity), extend) && freeList == order + old(freeList)
      ensures AsPicked(order, old(capacity), extend, start, pick)
    {
      var first, last;
      first, last, order := LinkRandomly(extend, start, pick);
      Attach(order, old(next[..]), first, last, extend);
    }
  }

  // ---------------------------------------------------------------- new blocks

  function Counting(lo: nat, n: nat): (s: seq<nat>)
    ensures |s| == n && forall j :: 0 <= j < n ==> s[j] == lo + j
    ensures forall b :: lo <= b < lo + n ==> b in s
  {
    if n == 0 then [] else Counting(lo, n - 1) + [lo + n - 1]
  }

  /** Each of the `n` blocks from `lo` on, once. */
  ghost predicate Permutes(order: seq<nat>, lo: nat, n: nat) {
    NoDup(order) && |order| == n && forall b :: b in order <==> lo <= b < lo + n
  }

  /** New blocks in some order, linked one after the other and then to the old list. */
  lemma Prepended(next: Links, next': Links, free: Option<nat>, l: seq<nat>, localFree: Option<nat>, m: seq<nat>, order: seq<nat>, lo: nat)
    requires |next'| == |next| && order != [] && Linked(next, free, l) && Linked(next, localFree, m)
    requires Below(l, lo) && Below(m, lo) && Apart(l, m)
    requires NoDup(order) && forall b :: b in order ==> lo <= b < |next|
    requires InOrder(next', order)
    requires order[|order| - 1] < |next| && next'[order[|order| - 1]] == free
    requires forall b :: 0 <= b < lo && b < |next| ==> next'[b] == next[b]
    ensures Linked(next', Some(order[0]), order + l) && Linked(next', localFree, m)
    ensures Apart(order + l, m) && forall b :: b in order + l <==> b in order || b in l
  {
    var r := order + l;
    forall i: nat | i < |r| ensures LinkAt(next', r, i) {
      if i < |order| {
        assert r[i] == order[i] && order[i] in order;
        assert i < |order| - 1 ==> LinkAt(next', order, i);
      } else {
        assert LinkAt(next, l, i - |order|) && l[i - |order|] in l;
      }
    }
    LinkedSame(next, next', localFree, m);
    JoinApart(order, l);
  }

  // ---------------------------------------------------------------- slices of new blocks

  /** Slice `k` has the blocks from `bound[k]` up to `bound[k + 1]`. */
  ghost predicate Bounds(bound: seq<nat>, n: nat, lo: nat, hi: nat) {
    && n > 0 && |bound| == n + 1 && bound[0] == lo && bound[n] == hi
    && forall k :: 0 <= k < n ==> bound[k] < bound[k + 1]
  }

  /** Where slice `i` starts when all have `size` blocks. */
  function Offset(i: nat, size: nat): nat {
    if i == 0 then 0 else Offset(i - 1, size) + size
  }

  /** How many slices there are: a power of two, and not more than blocks (page.cpp:596-601). */
  method SliceCount(extend: nat) returns (n: nat)
    requires 0 < extend
    ensures n == Slices(extend) && 0 < n <= extend && n <= Pow2(MAX_SLICE_SHIFT)
  {
    var shift: nat := MAX_SLICE_SHIFT;
    n := Pow2(shift);
    while extend < Pow2(shift)
      invariant n == Pow2(shift) && n <= Pow2(MAX_SLICE_SHIFT) && shift <= MAX_SLICE_SHIFT
      invariant shift == MAX_SLICE_SHIFT || extend < Pow2(shift + 1)
    {
      shift := shift - 1;
      n := Pow2(shift);
    }
    PowersBelow(shift);
  }

  /** The largest power of two that is not above `extend` nor above 64. */
  function Slices(extend: nat): nat {
    if extend >= 64 then 64 else if extend >= 32 then 32 else if extend >= 16 then 16
    else if extend >= 8 then 8 else if extend >= 4 then 4 else if extend >= 2 then 2 else 1
  }

  lemma PowersBelow(shift: nat)
    requires shift <= 6
    ensures Pow2(shift) == [1, 2, 4, 8, 16, 32, 64][shift] && (shift < 6 ==> Pow2(shift + 1) == [1, 2, 4, 8, 16, 32, 64][shift + 1])
  {
    assert Pow2(0) == 1;
    assert Pow2(1) == 2 && Pow2(2) == 4;
    assert Pow2(3) == 8 && Pow2(4) == 16;
    assert Pow2(5) == 32 && Pow2(6) == 64;
  }

  /** Where slice `k` of the new blocks begins: all have the same size, and the last one gets what is left over. */
  function BoundAt(lo: nat, extend: nat, n: nat, k: nat): nat
    requires n > 0
  {
    if k < n then lo + k * (extend / n) else lo + extend
  }

  ghost predicate EqualBounds(bound: seq<nat>, lo: nat, extend: nat, n: nat)
    requires n > 0
  {
    |bound| == n + 1 && forall k: nat :: k <= n ==> bound[k] == BoundAt(lo, extend, n, k)
  }

  /** `n` slices of the same size, one after the other. */
  method EqualSlices(lo: nat, n: nat, size: nat) returns (blocks: array<nat>, counts: array<nat>)
    ensures fresh(blocks) && fresh(counts) && blocks != counts && blocks.Length == n && counts.Length == n
    ensures forall k :: 0 <= k < n ==> blocks[k] == lo + Offset(k, size) && counts[k] == size
  {
    blocks, counts := new nat[n], new nat[n];
    for i := 0 to n
      invariant forall k :: 0 <= k < i ==> blocks[k] == lo + Offset(k, size) && counts[k] == size
    {
      blocks[i] := lo + Offset(i, size);
      counts[i] := size;
    }
  }

  /** The slices; the last one also gets what is left over. */
  method MakeSlices(lo: nat, extend: nat, n: nat) returns (blocks: array<nat>, counts: array<nat>, ghost bound: seq<nat>)
    requires 0 < n <= extend
    ensures fresh(blocks) && fresh(counts) && blocks != counts && blocks.Length == n && counts.Length == n
    ensures Bounds(bound, n, lo, lo + extend) && EqualBounds(bound, lo, extend, n)
    ensures forall k :: 0 <= k < n ==> blocks[k] == bound[k] && counts[k] == bound[k + 1] - bound[k]
  {
    var sliceExtend, rest := SliceSize(extend, n);
    blocks, counts := EqualSlices(lo, n, sliceExtend);
    counts[n - 1] := counts[n - 1] + rest;
    bound := SliceBounds(lo, extend, n, sliceExtend, rest);
    forall k: nat | k < n ensures Offset(k, sliceExtend) == k * (extend / n) { OffsetIs(k, sliceExtend); }
  }

  lemma SliceBounds(lo: nat, extend: nat, n: nat, size: nat, rest: nat) returns (bound: seq<nat>)
    requires n > 0 && size > 0 && Offset(n, size) + rest == extend
    ensures Bounds(bound, n, lo, lo + extend)
    ensures forall k :: 0 <= k < n ==> bound[k] == lo + Offset(k, size) && bound[k + 1] - bound[k] == if k == n - 1 then size + rest else size
  {
    bound := seq(n + 1, k requires 0 <= k <= n => if k < n then lo + Offset(k, size) else lo + extend);
    forall k | 0 <= k < n ensures bound[k + 1] - bound[k] == if k == n - 1 then size + rest else size {
      assert Offset(k + 1, size) == Offset(k, size) + size;
    }
  }

  /** `slice_extend`, and what the last slice gets in addition. */
  method SliceSize(extend: nat, n: nat) returns (size: nat, rest: nat)
    requires 0 < n <= extend
    ensures size == extend / n && size >= 1 && rest < n && Offset(n, size) + rest == extend
  {
    size, rest := extend / n, extend % n;
    OffsetIs(n, size);
  }

  lemma {:induction false} OffsetIs(i: nat, size: nat)
    ensures Offset(i, size) == i * size
  {
    if i > 0 { OffsetIs(i - 1, size); }
  }

  /** The first block of slice `k` that is not in the list. */
  function Unused(blocks: seq<nat>, k: nat, current: nat): nat
    requires k < |blocks|
  {
    if k == current then blocks[k] + 1 else blocks[k]
  }

  ghost predicate SliceOk(blocks: seq<nat>, counts: seq<nat>, bound: seq<nat>, current: nat, order: seq<nat>, k: nat) {
    && k < |blocks| == |counts| && k + 1 < |bound|
    && bound[k] <= Unused(blocks, k, current) && Unused(blocks, k, current) + counts[k] == bound[k + 1]
    && forall b :: bound[k] <= b < bound[k + 1] ==> (b in order <==> b < Unused(blocks, k, current))
  }

  /** `order` has, from each slice, the blocks before the first unused one; it ends at the current block. */
  ghost predicate Threaded(blocks: seq<nat>, counts: seq<nat>, bound: seq<nat>, current: nat, order: seq<nat>) {
    && |blocks| > 0 && |bound| == |blocks| + 1 && Bounds(bound, |blocks|, bound[0], bound[|blocks|]) && |counts| == |blocks| && current < |blocks|
    && (forall k {:trigger SliceOk(blocks, counts, bound, current, order, k)} :: 0 <= k < |blocks| ==> SliceOk(blocks, counts, bound, current, order, k))
    && NoDup(order) && order != [] && order[|order| - 1] == blocks[current]
    && forall b :: b in order ==> bound[0] <= b < bound[|blocks|]
  }

  lemma {:induction false} BoundsGrow(bound: seq<nat>, n: nat, j: nat, k: nat)
    requires |bound| == n + 1 && Bounds(bound, n, bound[0], bound[n]) && j <= k <= n
    ensures bound[j] <= bound[k]
    decreases k - j
  {
    if j < k {
      assert bound[j] < bound[j + 1];
      BoundsGrow(bound, n, j + 1, k);
    }
  }

  /** A block is in one slice only. */
  lemma OneSlice(bound: seq<nat>, n: nat, j: nat, k: nat, b: nat)
    requires |bound| == n + 1 && Bounds(bound, n, bound[0], bound[n]) && j < n && k < n
    requires bound[j] <= b < bound[j + 1] && bound[k] <= b < bound[k + 1]
    ensures j == k
  {
    if j < k { BoundsGrow(bound, n, j + 1, k); }
    if k < j { BoundsGrow(bound, n, k + 1, j); }
  }

  lemma {:induction false} SliceOf(bound: seq<nat>, n: nat, b: nat, m: nat) returns (k: nat)
    requires |bound| == n + 1 && Bounds(bound, n, bound[0], bound[n]) && m <= n && bound[0] <= b < bound[m]
    ensures k < n && bound[k] <= b < bound[k + 1]
    decreases m
  {
    if bound[m - 1] <= b { k := m - 1; } else { k := SliceOf(bound, n, b, m - 1); }
  }

  lemma FirstThreaded(blocks: seq<nat>, counts: seq<nat>, bound: seq<nat>, current: nat)
    requires current < |blocks| == |counts| && |bound| == |blocks| + 1 && Bounds(bound, |blocks|, bound[0], bound[|blocks|])
    requires forall k :: 0 <= k < |blocks| ==> blocks[k] == bound[k] && counts[k] == bound[k + 1] - bound[k] - (if k == current then 1 else 0)
    ensures Threaded(blocks, counts, bound, current, [blocks[current]])
  {
    var n := |blocks|;
    var order := [blocks[current]];
    forall k: nat | k < n ensures SliceOk(blocks, counts, bound, current, order, k) {
      assert bound[k] < bound[k + 1] && bound[current] < bound[current + 1];
      forall b | bound[k] <= b < bound[k + 1] ensures b in order <==> b < Unused(blocks, k, current) {
        if b in order { OneSlice(bound, n, k, current, b); }
      }
    }
    BoundsGrow(bound, n, 0, current);
    BoundsGrow(bound, n, current + 1, n);
  }

  lemma {:induction false} CoverSize(order: seq<nat>, lo: nat, n: nat)
    requires forall b :: lo <= b < lo + n ==> b in order
    ensures |order| >= n
    decreases n
  {
    if n > 0 {
      var last := lo + n - 1;
      assert last in order;
      var k :| 0 <= k < |order| && order[k] == last;
      var rest := order[..k] + order[k + 1..];
      forall b | lo <= b < last ensures b in rest {
        assert b in order;
        var j :| 0 <= j < |order| && order[j] == b;
        assert rest[if j < k then j else j - 1] == b;
      }
      CoverSize(rest, lo, n - 1);
    }
  }

  /** As long as blocks are missing from the list, a slice has some left. */
  lemma SomeLeft(blocks: seq<nat>, counts: seq<nat>, bound: seq<nat>, current: nat, order: seq<nat>, total: nat)
    requires Threaded(blocks, counts, bound, current, order) && bound[|blocks|] == bound[0] + total && |order| < total
    ensures exists k :: 0 <= k < |counts| && counts[k] > 0
  {
    var n := |blocks|;
    if forall k :: 0 <= k < n ==> counts[k] == 0 {
      forall b: nat | bound[0] <= b < bound[0] + total ensures b in order {
        var k := SliceOf(bound, n, b, n);
        assert SliceOk(blocks, counts, bound, current, order, k);
      }
      CoverSize(order, bound[0], total);
    }
  }

  /** `while (counts[next] == 0)`: going round ends, because some slice has blocks left. */
  method NextSlice(counts: array<nat>, n: nat, from: nat) returns (k: nat)
    requires counts.Length == n && from < n && exists j :: 0 <= j < n && counts[j] > 0
    ensures k < n && counts[k] > 0
    ensures if from <= k then forall j :: from <= j < k ==> counts[j] == 0
            else forall j :: (from <= j < n || 0 <= j < k) ==> counts[j] == 0
  {
    ghost var j :| 0 <= j < n && counts[j] > 0;
    k := from;
    while counts[k] == 0
      invariant k < n
      invariant if from <= k then forall i :: from <= i < k ==> counts[i] == 0
                else forall i :: (from <= i < n || 0 <= i < k) ==> counts[i] == 0
      decreases if from <= k then n + n - k else from - k
    {
      k := k + 1;
      if k == n {
        k := 0;
      }
    }
  }

  lemma NextThreaded(blocks: seq<nat>, blocks': seq<nat>, counts: seq<nat>, counts': seq<nat>, bound: seq<nat>, current: nat, slice: nat, order: seq<nat>)
    requires Threaded(blocks, counts, bound, current, order) && slice < |counts| && counts[slice] > 0
    requires counts' == counts[slice := counts[slice] - 1] && blocks' == blocks[current := blocks[current] + 1]
    ensures Threaded(blocks', counts', bound, slice, order + [blocks'[slice]])
  {
    var n := |blocks|;
    var added := blocks'[slice];
    var order' := order + [added];
    assert SliceOk(blocks, counts, bound, current, order, slice);
    assert added == Unused(blocks, slice, current) && bound[slice] <= added < bound[slice + 1] && added !in order;
    forall k: nat | k < n ensures SliceOk(blocks', counts', bound, slice, order', k) {
      assert SliceOk(blocks, counts, bound, current, order, k);
      forall b | bound[k] <= b < bound[k + 1] ensures b in order' <==> b < Unused(blocks', k, slice) {
        if b == added { OneSlice(bound, n, k, slice, b); }
      }
    }
    BoundsGrow(bound, n, 0, slice);
    BoundsGrow(bound, n, slice + 1, n);
  }

  // ---------------------------------------------------------------- which block comes next

  /** Slice `k` has a block that is not among the first `i` of the list. */
  ghost predicate HasLeft(bound: seq<nat>, order: seq<nat>, i: nat, k: nat)
    requires k + 1 < |bound| && i <= |order|
  {
    exists b :: bound[k] <= b < bound[k + 1] && b !in order[..i]
  }

  /** Of the slices from `from` on, going round, `k` is the first that has a block left. */
  ghost predicate FirstLeft(bound: seq<nat>, n: nat, order: seq<nat>, i: nat, from: nat, k: nat)
    requires |bound| == n + 1 && i <= |order|
  {
    && k < n && HasLeft(bound, order, i, k)
    && if from <= k then forall j: nat {:trigger HasLeft(bound, order, i, j)} :: from <= j < k ==> !HasLeft(bound, order, i, j)
       else forall j: nat {:trigger HasLeft(bound, order, i, j)} :: j < n && (from <= j || j < k) ==> !HasLeft(bound, order, i, j)
  }

  /** Block `i` of the list is the lowest one of slice `k` that is not before it. */
  ghost predicate LowestOf(bound: seq<nat>, order: seq<nat>, i: nat, k: nat)
    requires k + 1 < |bound| && i < |order|
  {
    && bound[k] <= order[i] < bound[k + 1] && order[i] !in order[..i]
    && forall b :: bound[k] <= b < order[i] ==> b in order[..i]
  }

  ghost predicate Picked(bound: seq<nat>, n: nat, order: seq<nat>, i: nat, from: nat)
    requires |bound| == n + 1
  {
    i < |order| && exists k :: FirstLeft(bound, n, order, i, from, k) && LowestOf(bound, order, i, k)
  }

  /** The slice that the random numbers name for block `i`. */
  function From(i: nat, n: nat, start: nat, pick: nat -> nat): nat
    requires n > 0
  {
    (if i == 0 then start else pick(i)) % n
  }

  /**
   The order that the random numbers decide: each block is the lowest one left of the slice that its
   number names, or of the next slice, going round, that has any left.
   */
  ghost predicate AsPicked(order: seq<nat>, lo: nat, extend: nat, start: nat, pick: nat -> nat) {
    |order| == extend && exists bound :: EqualBounds(bound, lo, extend, Slices(extend)) && PickedSoFar(bound, Slices(extend), order, start, pick)
  }

  ghost predicate PickedAt(bound: seq<nat>, n: nat, order: seq<nat>, start: nat, pick: nat -> nat, i: nat)
    requires n > 0 && |bound| == n + 1
  {
    Picked(bound, n, order, i, From(i, n, start, pick))
  }

  ghost predicate PickedSoFar(bound: seq<nat>, n: nat, order: seq<nat>, start: nat, pick: nat -> nat) {
    n > 0 && |bound| == n + 1 && forall i: nat {:trigger PickedAt(bound, n, order, start, pick, i)} :: i < |order| ==> PickedAt(bound, n, order, start, pick, i)
  }

  lemma AllPicked(bound: seq<nat>, n: nat, order: seq<nat>, lo: nat, extend: nat, start: nat, pick: nat -> nat)
    requires n == Slices(extend) && |order| == extend && EqualBounds(bound, lo, extend, n) && PickedSoFar(bound, n, order, start, pick)
    ensures AsPicked(order, lo, extend, start, pick)
  {
  }

  lemma FirstPicked(bound: seq<nat>, n: nat, current: nat, start: nat, pick: nat -> nat)
    requires |bound| == n + 1 && n > 0 && current == start % n && bound[current] < bound[current + 1]
    ensures PickedSoFar(bound, n, [bound[current]], start, pick)
  {
    var order := [bound[current]];
    assert bound[current] !in order[..0];
    assert FirstLeft(bound, n, order, 0, current, current) && LowestOf(bound, order, 0, current);
  }

  /** Later blocks do not matter. */
  lemma PickedBefore(bound: seq<nat>, n: nat, order: seq<nat>, b: nat, i: nat, from: nat)
    requires |bound| == n + 1 && Picked(bound, n, order, i, from)
    ensures Picked(bound, n, order + [b], i, from)
  {
    var more := order + [b];
    assert more[..i] == order[..i] && more[i] == order[i];
    var k :| FirstLeft(bound, n, order, i, from, k) && LowestOf(bound, order, i, k);
    forall j: nat | j < n ensures HasLeft(bound, more, i, j) <==> HasLeft(bound, order, i, j) {}
    assert FirstLeft(bound, n, more, i, from, k) && LowestOf(bound, more, i, k);
  }

  lemma StillPicked(bound: seq<nat>, n: nat, order: seq<nat>, b: nat, start: nat, pick: nat -> nat)
    requires PickedSoFar(bound, n, order, start, pick) && Picked(bound, n, order + [b], |order|, From(|order|, n, start, pick))
    ensures PickedSoFar(bound, n, order + [b], start, pick)
  {
    forall i: nat | i < |order| ensures PickedAt(bound, n, order + [b], start, pick, i) {
      assert PickedAt(bound, n, order, start, pick, i);
      PickedBefore(bound, n, order, b, i, From(i, n, start, pick));
    }
  }

  /** A slice has blocks left exactly when its count says so. */
  lemma LeftIs(blocks: seq<nat>, counts: seq<nat>, bound: seq<nat>, current: nat, order: seq<nat>, more: seq<nat>, k: nat)
    requires SliceOk(blocks, counts, bound, current, order, k) && |order| <= |more| && more[..|order|] == order
    ensures HasLeft(bound, more, |order|, k) <==> counts[k] > 0
  {
    if counts[k] > 0 { assert Unused(blocks, k, current) !in order; }
  }

  lemma NextPicked(blocks: seq<nat>, counts: seq<nat>, bound: seq<nat>, current: nat, order: seq<nat>, from: nat, slice: nat)
    requires Threaded(blocks, counts, bound, current, order) && slice < |counts| && counts[slice] > 0
    requires if from <= slice then forall j :: from <= j < slice ==> counts[j] == 0
             else forall j :: (from <= j < |counts| || 0 <= j < slice) ==> counts[j] == 0
    ensures Picked(bound, |blocks|, order + [Unused(blocks, slice, current)], |order|, from)
  {
    var n := |blocks|;
    var more := order + [Unused(blocks, slice, current)];
    assert more[..|order|] == order;
    forall k: nat | k < n ensures HasLeft(bound, more, |order|, k) <==> counts[k] > 0 {
      assert SliceOk(blocks, counts, bound, current, order, k);
      LeftIs(blocks, counts, bound, current, order, more, k);
    }
    assert SliceOk(blocks, counts, bound, current, order, slice);
    assert FirstLeft(bound, n, more, |order|, from, slice) && LowestOf(bound, more, |order|, slice);
  }

  lemma AllThreaded(blocks: seq<nat>, counts: seq<nat>, bound: seq<nat>, current: nat, order: seq<nat>)
    requires Threaded(blocks, counts, bound, current, order) && bound[|blocks|] == bound[0] + |order|
    ensures Permutes(order, bound[0], |order|)
  {
    var range := Between(bound[0], |order|);
    NoDupSize(order, range);
  }

  function Between(lo: nat, n: nat): (r: set<nat>)
    ensures |r| == n && forall b :: b in r <==> lo <= b < lo + n
  {
    if n == 0 then {} else Between(lo, n - 1) + {lo + n - 1}
  }
}
