/**
 The slice allocator of normal segments (segment.cpp:738-1233, 1434-1632) as the object it is: a
 slice table that is updated in place, the queues of the owning thread, and the commit and purge
 masks. Every operation keeps the layout invariant of `SegmentLayout`.
 */
module Segments {
  import opened Sequences
  import opened CommitMasks
  import opened SliceTiling
  import opened SpanBins
  import opened SpanQueues
  import opened SegmentMasks
  import opened SegmentLayout

  /** What the operating system and its clock answer during one call. */
  datatype Os = Os(clock: Clock, decommits: nat -> bool, commitOk: bool)

  /** The queues of one thread: `tld->spans`. */
  class SegmentsTld {
    var bins: Bins

    constructor ()
      ensures BinsOk(bins)
      ensures forall r: Ref, b: nat :: !InBin(bins, r, b)
    {
      bins := seq(BIN_MAX + 1, _ => []);
    }
  }

  /** The members of `a` outside `[first, first + count)`. */
  function Outside(a: set<nat>, first: nat, count: nat): set<nat> {
    set j | j in a && !(first <= j < first + count)
  }

  lemma NeighboursFound(t: Table, starts: set<nat>, i: nat, p: nat, first: nat, end: nat)
    requires Tiles(t, starts) && i in starts && p in starts && p < i && End(t, p) == i
    requires first == if Used(t, p) then i else p
    requires var next := End(t, i); end == if next < |t| && !Used(t, next) then End(t, next) else next
    ensures Neighbours(t, starts, i, first, end)
  {
    assert Extent(t, starts, i) && Extent(t, starts, p);
    if End(t, i) < |t| { assert Extent(t, starts, End(t, i)); }
    forall q | q in starts && End(t, q) == i ensures q == p { assert Extent(t, starts, q); }
  }

  lemma RestOutside(t: Table, starts: set<nat>, i: nat, first: nat, count: nat, queued: set<nat>, rest: set<nat>)
    requires Tiles(t, starts) && i in starts && Neighbours(t, starts, i, first, first + count)
    requires queued <= starts - {i}
    requires rest == (if first + count == End(t, i) then queued else queued - {End(t, i)}) - (if first == i then {} else {first})
    ensures rest == Outside(queued, first, count)
  {
    NeighboursWhole(t, starts, i, first, first + count);
    assert Extent(t, starts, i);
  }

  lemma MergedIsFree(t: Table, starts: set<nat>, live: set<nat>, i: nat, first: nat, end: nat)
    requires Tiles(t, starts) && LiveHolds(t, starts, live, i) && i in starts
    requires Neighbours(t, starts, i, first, end)
    ensures first <= i < end <= |t| && Range(first, end - first) !! live
  {
    NeighboursWhole(t, starts, i, first, end);
    assert Extent(t, starts, i);
    assert SpanLive(t, i, live, i) && SpanLive(t, first, live, i);
    if End(t, i) < |t| { assert SpanLive(t, End(t, i), live, i); }
  }

  lemma FreedInHand(t: Table, t1: Table, t': Table, starts: set<nat>, info: nat, live: set<nat>, i: nat, first: nat, count: nat)
    requires Laid(t, starts, info, live, i) && Neighbours(t, starts, i, first, first + count)
    requires SameOutside(t, t1, first, count) && count > 0 && first + count <= |t| && t' == WriteFree(t1, first, count)
    ensures Laid(t', Merged(starts, first, count), info, live, -1) && SameOutside(t, t', first, count)
    ensures first <= i && End(t', first) == first + count && t'[first].count == count
    ensures first in FreeStarts(t', Merged(starts, first, count))
    ensures PageStarts(t', Merged(starts, first, count)) == PageStarts(t, starts) - {i}
    ensures FreeStarts(t', Merged(starts, first, count)) == FreeStarts(t, starts) * Merged(starts, first, count) + {first}
  {
    NeighboursWhole(t, starts, i, first, first + count);
    MergeLaid(t, t', starts, info, live, i, first, first + count);
  }

  lemma QueueFreed(bins: Bins, bins': Bins, addr: Addr, t: Table, t': Table, starts: set<nat>, queued: set<nat>, first: nat, count: nat)
    requires QueuesHold(bins, addr, t, Outside(queued, first, count)) && queued <= starts && first < |t|
    requires SameOutside(t, t', first, count) && t'[first].count == count <= SLICES_PER_SEGMENT
    requires bins' == Pushed(bins, Ref(addr, first), count) && count > 0
    ensures QueuesHold(bins', addr, t', queued * Merged(starts, first, count) + {first})
    ensures OthersSame(bins, bins', addr)
  {
    PushHolds(bins, addr, t, t', Outside(queued, first, count), first);
    assert Outside(queued, first, count) + {first} == queued * Merged(starts, first, count) + {first};
  }

  lemma AllWritten(t: Table, i: nat, count: nat, extra: nat)
    requires 0 < count && i + count <= |t| && extra <= count - 1 && (extra == count - 1 || extra == MAX_SLICE_OFFSET)
    requires t[i] == Slice(count, 0, count * SLICE_SIZE)
    requires forall j :: 0 < j <= extra ==> t[i + j] == Slice(0, j, 1)
    requires count > 1 ==> t[i + count - 1] == Slice(0, count - 1, 1)
    ensures WrittenUsed(t, i, count)
  {
    forall k | i < k < i + count && k - i <= MAX_SLICE_OFFSET ensures t[k] == Slice(0, k - i, 1) {
      assert t[i + (k - i)] == Slice(0, k - i, 1);
    }
  }

  lemma FirstLayout(t: Table, t': Table, info: nat, live: set<nat>)
    requires 0 < info < |t| <= SLICES_PER_SEGMENT
    requires WrittenUsed(t, 0, info) && t' == WriteFree(t, info, |t| - info) && live == Range(0, info)
    ensures Laid(t', {0, info}, info, live, -1)
    ensures PageStarts(t', {0, info}) == {} && FreeStarts(t', {0, info}) == {info}
  {
    var starts := {0, info};
    assert WrittenUsed(t', 0, info);
    WrittenTags(t', 0, info);
    FreeTag(t', info, |t| - info);
    assert Extent(t', starts, 0) && Extent(t', starts, info);
  }

  lemma FirstQueued(bins: Bins, seg: Addr, t: Table, info: nat)
    requires BinsOk(bins) && forall i, b :: !InBin(bins, Ref(seg, i), b)
    requires info < |t| && t[info].count <= SLICES_PER_SEGMENT
    ensures QueuesHold(Pushed(bins, Ref(seg, info), t[info].count), seg, t, {info})
    ensures OthersSame(bins, Pushed(bins, Ref(seg, info), t[info].count), seg)
  {
    assert QueuesHold(bins, seg, t, {});
    PushHolds(bins, seg, t, t, {}, info);
    assert {} + {info} == {info};
  }

  /** The pages `pages` are in both tables as they are. */
  predicate SamePages(t: Table, t': Table, pages: set<nat>) {
    forall j :: j in pages ==> j < |t| && j < |t'| && t'[j] == t[j]
  }

  lemma AllSame(t: Table, starts: set<nat>)
    requires Tiles(t, starts)
    ensures SamePages(t, t, PageStarts(t, starts))
  {
    forall j | j in PageStarts(t, starts) ensures j < |t| { assert Extent(t, starts, j); }
  }

  /** A change within a free span leaves all pages alone. */
  lemma PagesOutside(t: Table, t': Table, starts: set<nat>, info: nat, live: set<nat>, first: nat)
    requires Laid(t', starts, info, live, -1) && first in FreeStarts(t', starts) && first < |t'| && SameOutside(t, t', first, t'[first].count)
    ensures SamePages(t, t', PageStarts(t', starts))
  {
    assert Extent(t', starts, first);
    forall j | j in PageStarts(t', starts) ensures j < |t| && j < |t'| && t'[j] == t[j] { assert Extent(t', starts, j); }
  }

  class Segment {
    const addr: Addr
    const slices: array<Slice>
    const infoSlices: nat
    const masks: PurgeState
    var used: nat
    var abandoned: nat
    var owned: bool              // `thread_id != 0`
    ghost var starts: set<nat>   // the first slices of the spans
    ghost var left: set<nat>     // the pages whose heap is gone

    ghost function Pages(): set<nat>
      reads this, slices
    {
      PageStarts(slices[..], starts)
    }

    ghost function Free(): set<nat>
      reads this, slices
    {
      FreeStarts(slices[..], starts)
    }

    ghost predicate Shape(but: int)
      reads this, slices, masks
    {
      masks.Valid() && Laid(slices[..], starts, infoSlices, masks.live, but)
    }

    ghost predicate Counted()
      reads this, slices
    {
      used == |Pages()| && abandoned == |left| && left <= Pages()
    }

    /** `mi_segment_is_valid`, apart from the queues. */
    ghost predicate Valid()
      reads this, slices, masks
    {
      Shape(-1) && Counted() && (!owned ==> left == Pages())
    }

    /** Exactly the spans in `queued` are in the queues. */
    ghost predicate Queued(tld: SegmentsTld, queued: set<nat>)
      reads this, slices, tld
    {
      QueuesHold(tld.bins, addr, slices[..], queued)
    }

    /**
     `mi_segment_alloc` of a normal segment: the info span first, the rest one free span. What is
     committed at first covers the info slices.
     */
    constructor (addr: Addr, entries: nat, infoSlices: nat, commitMask: Mask, allowPurge: bool, tld: SegmentsTld, os: Os)
      requires 0 < infoSlices < entries <= SLICES_PER_SEGMENT
      requires Range(0, infoSlices) <= Bits(commitMask)
      requires BinsOk(tld.bins) && forall i, b :: !InBin(tld.bins, Ref(addr, i), b)
      modifies tld
      ensures Valid() && owned && this.addr == addr && Pages() == {} && fresh(slices) && fresh(masks)
      ensures starts == {0, infoSlices} && Queued(tld, Free()) && OthersSame(old(tld.bins), tld.bins, addr)
    {
      this.addr := addr;
      this.infoSlices := infoSlices;
      this.slices := new Slice[entries](_ => Slice(0, 0, 0));
      this.masks := new PurgeState(commitMask, allowPurge);
      this.used, this.abandoned, this.owned := 0, 0, true;
      this.starts, this.left := {0, infoSlices}, {};
      new;
      LayOut(tld, os);
    }

    /** The two spans of a new segment (segment.cpp:1109-1121). */
    method LayOut(tld: SegmentsTld, os: Os)
      requires 0 < infoSlices < slices.Length <= SLICES_PER_SEGMENT && owned
      requires masks.Valid() && masks.live == {} && Range(0, infoSlices) <= Bits(masks.commitMask)
      requires BinsOk(tld.bins) && forall i, b :: !InBin(tld.bins, Ref(addr, i), b)
      modifies this`used, slices, masks, tld
      ensures used == 0 && masks.Valid() && Laid(slices[..], {0, infoSlices}, infoSlices, masks.live, -1)
      ensures PageStarts(slices[..], {0, infoSlices}) == {} && FreeStarts(slices[..], {0, infoSlices}) == {infoSlices}
      ensures Queued(tld, {infoSlices}) && OthersSame(old(tld.bins), tld.bins, addr)
    {
      var ok := SpanAllocate(0, infoSlices, os);
      used := 0;
      ghost var t := slices[..];
      SpanFree(infoSlices, slices.Length - infoSlices, false, tld, os);
      FirstLayout(t, slices[..], infoSlices, masks.live);
      FirstQueued(old(tld.bins), addr, slices[..], infoSlices);
    }

    // -------------------------------------------------------------- pages and spans

    /**
     The entries of a page: its first, the early back offsets, and its last (segment.cpp:873-904).
     The clamps to the end of the table act on huge segments only.
     */
    method WriteUsed(i: nat, count: nat)
      requires 0 < count && i + count <= slices.Length
      modifies slices
      ensures WrittenUsed(slices[..], i, count) && SameOutside(old(slices[..]), slices[..], i, count)
    {
      slices[i] := Slice(count, 0, count * SLICE_SIZE);
      var extra := count - 1;
      if extra > MAX_SLICE_OFFSET {
        extra := MAX_SLICE_OFFSET;
      }
      for k: nat := 1 to extra + 1
        invariant slices[i] == Slice(count, 0, count * SLICE_SIZE)
        invariant forall j :: 0 < j < k ==> slices[i + j] == Slice(0, j, 1)
        invariant forall j :: 0 <= j < slices.Length && !(i <= j < i + count) ==> slices[j] == old(slices[j])
      {
        slices[i + k] := Slice(0, k, 1);
      }
      assert forall j :: 0 < j <= extra ==> slices[i + j] == Slice(0, j, 1);
      var last := i + count - 1;
      if last > i {
        slices[last] := Slice(0, last - i, 1);
      }
      AllWritten(slices[..], i, count, extra);
    }

    /** `mi_segment_span_allocate`: commit, then write the entries of a page. */
    method SpanAllocate(i: nat, count: nat, os: Os) returns (ok: bool)
      requires 0 < count && i + count <= slices.Length <= SLICES_PER_SEGMENT && masks.Valid()
      modifies this`used, slices, masks
      ensures masks.Valid()
      ensures ok <==> os.commitOk || Range(i, count) <= old(Bits(masks.commitMask))
      ensures ok ==> WrittenUsed(slices[..], i, count) && SameOutside(old(slices[..]), slices[..], i, count)
      ensures ok ==> masks.live == old(masks.live) + Range(i, count) && used == old(used) + 1
      ensures !ok ==> slices[..] == old(slices[..]) && masks.live == old(masks.live) && used == old(used)
    {
      ok := masks.EnsureCommitted(i, count, os.clock, os.commitOk);
      if !ok {
        return;
      }
      WriteUsed(i, count);
      masks.live := masks.live + Range(i, count);
      used := used + 1;
    }

    /** `mi_segment_span_free` */
    method SpanFree(i: nat, count: nat, allowPurge: bool, tld: SegmentsTld, os: Os)
      requires 0 < count && i + count <= slices.Length <= SLICES_PER_SEGMENT
      requires masks.Valid() && (allowPurge ==> Range(i, count) !! masks.live)
      modifies slices, masks`commitMask, masks`purgeMask, masks`purgeExpire, tld
      ensures masks.Valid()
      ensures slices[..] == WriteFree(old(slices[..]), i, count)
      ensures tld.bins == if owned then Pushed(old(tld.bins), Ref(addr, i), count) else old(tld.bins)
      ensures allowPurge && masks.allowPurge ==> masks.Now() == Scheduled(old(masks.Now()), i, count, os.clock, os.decommits)
      ensures !(allowPurge && masks.allowPurge) ==> masks.Now() == old(masks.Now())
      ensures !allowPurge ==> masks.commitMask == old(masks.commitMask)
    {
      slices[i] := slices[i].(count := count, offset := 0);
      if count > 1 {
        slices[i + count - 1] := Slice(0, count - 1, 0);
      }
      if allowPurge {
        masks.SchedulePurge(i, count, os.clock, os.decommits);
      }
      if owned {
        tld.bins := Pushed(tld.bins, Ref(addr, i), count);
      }
      slices[i] := slices[i].(xblock := 0);
    }

    /** `mi_segment_span_remove_from_queue` */
    method RemoveFromQueue(i: nat, tld: SegmentsTld)
      requires i < slices.Length
      modifies slices, tld
      ensures slices[..] == Take(old(slices[..]), i)
      ensures tld.bins == Removed(old(tld.bins), Ref(addr, i), old(slices[i].count))
    {
      tld.bins := Removed(tld.bins, Ref(addr, i), slices[i].count);
      slices[i] := slices[i].(xblock := 1);
    }

    /** A free span behind the one in hand leaves its queue (segment.cpp:811-822). */
    method AbsorbNext(i: nat, tld: SegmentsTld, ghost queued: set<nat>) returns (count: nat)
      requires Tiles(slices[..], starts) && i in starts && slices.Length <= SLICES_PER_SEGMENT
      requires owned ==> Queued(tld, queued)
      modifies slices, tld
      ensures old(i < slices.Length && i + slices[i].count <= slices.Length)
      ensures var t := old(slices[..]); var next := End(t, i);
              if next < |t| && !Used(t, next)
              then count == t[i].count + t[next].count && slices[..] == (if owned then Take(t, next) else t)
              else count == t[i].count && slices[..] == t
      ensures owned ==> QueuesHold(tld.bins, addr, old(slices[..]), queued - (if count == old(slices[i].count) then {} else {i + old(slices[i].count)}))
      ensures owned ==> OthersSame(old(tld.bins), tld.bins, addr)
      ensures !owned ==> tld.bins == old(tld.bins)
    {
      ghost var t := slices[..];
      assert Extent(t, starts, i);
      count := slices[i].count;
      var next := i + count;
      if next < slices.Length && slices[next].xblock == 0 {
        assert Extent(t, starts, next);
        count := count + slices[next].count;
        if owned {
          RemoveHolds(tld.bins, addr, t, t, queued, next);
          RemoveFromQueue(next, tld);
        }
      }
    }

    /** A free span before the one in hand leaves its queue (segment.cpp:823-838). */
    method AbsorbPrev(i: nat, count: nat, tld: SegmentsTld, ghost t: Table, ghost p: nat, ghost queued: set<nat>) returns (first: nat, total: nat)
      requires p < i < |t| == slices.Length && slices[p] == t[p] && t[p].count <= SLICES_PER_SEGMENT
      requires slices[i - 1].offset == i - 1 - p
      requires owned ==> QueuesHold(tld.bins, addr, t, queued)
      modifies slices, tld
      ensures if Used(t, p) then first == i && total == count && slices[..] == old(slices[..])
              else first == p && total == count + t[p].count && slices[..] == if owned then Take(old(slices[..]), p) else old(slices[..])
      ensures owned ==> QueuesHold(tld.bins, addr, t, if Used(t, p) then queued else queued - {p})
      ensures owned ==> OthersSame(old(tld.bins), tld.bins, addr)
      ensures !owned ==> tld.bins == old(tld.bins)
    {
      var prev := i - 1 - slices[i - 1].offset;
      first, total := i, count;
      if slices[prev].xblock == 0 {
        total := total + slices[prev].count;
        if owned {
          RemoveHolds(tld.bins, addr, t, t, queued, prev);
          RemoveFromQueue(prev, tld);
        }
        first := prev;
      }
    }

    /** The free neighbours of the span in hand leave their queues (segment.cpp:811-838). */
    method AbsorbNeighbours(i: nat, tld: SegmentsTld, ghost queued: set<nat>) returns (first: nat, count: nat)
      requires Tiles(slices[..], starts) && TagsBut(slices[..], starts, i) && slices.Length <= SLICES_PER_SEGMENT
      requires i in starts && i > 0
      requires owned ==> Queued(tld, queued) && queued <= starts - {i}
      modifies slices, tld
      ensures Neighbours(old(slices[..]), starts, i, first, first + count)
      ensures SameOutside(old(slices[..]), slices[..], first, count)
      ensures owned ==> QueuesHold(tld.bins, addr, old(slices[..]), Outside(queued, first, count))
      ensures owned ==> OthersSame(old(tld.bins), tld.bins, addr)
      ensures !owned ==> tld.bins == old(tld.bins)
    {
      ghost var t := slices[..];
      ghost var p := SpanBefore(t, starts, i, i);
      assert Extent(t, starts, p) && Extent(t, starts, i);
      count := AbsorbNext(i, tld, queued);
      ghost var rest := queued - (if count == t[i].count then {} else {End(t, i)});
      first, count := AbsorbPrev(i, count, tld, t, p, rest);
      NeighboursFound(t, starts, i, p, first, first + count);
      if owned {
        RestOutside(t, starts, i, first, count, queued, if first == i then rest else rest - {p});
      }
    }

    /**
     `mi_segment_span_free_coalesce` of the span in hand. `queued` are the spans that are in a queue;
     during reclaim that need not be all free ones.
     */
    method Coalesce(i: nat, tld: SegmentsTld, os: Os, ghost queued: set<nat>) returns (first: nat)
      requires Shape(i) && i > 0
      requires owned ==> Queued(tld, queued) && queued <= Free() - {i}
      modifies this`starts, slices, masks`commitMask, masks`purgeMask, masks`purgeExpire, tld
      ensures Shape(-1) && first in Free() && first <= i
      ensures Neighbours(old(slices[..]), old(starts), i, first, End(slices[..], first))
      ensures starts == Merged(old(starts), first, slices[first].count)
      ensures SameOutside(old(slices[..]), slices[..], first, slices[first].count)
      ensures Pages() == old(Pages()) - {i}
      ensures Free() == old(Free()) * starts + {first}
      ensures masks.Now() == if masks.allowPurge then Scheduled(old(masks.Now()), first, slices[first].count, os.clock, os.decommits) else old(masks.Now())
      ensures owned ==> Queued(tld, queued * starts + {first}) && OthersSame(old(tld.bins), tld.bins, addr)
      ensures !owned ==> tld.bins == old(tld.bins)
    {
      ghost var t := slices[..];
      var count;
      first, count := AbsorbNeighbours(i, tld, queued);
      ghost var bins := tld.bins;
      MergedIsFree(t, starts, masks.live, i, first, first + count);
      ghost var t1 := slices[..];
      SpanFree(first, count, true, tld, os);
      FreedInHand(t, t1, slices[..], starts, infoSlices, masks.live, i, first, count);
      starts := Merged(starts, first, count);
      if owned {
        QueueFreed(bins, tld.bins, addr, t, slices[..], old(starts), queued, first, count);
      }
    }

    // -------------------------------------------------------------- allocating pages

    /** `mi_segment_slice_split` */
    method SliceSplit(i: nat, count: nat, tld: SegmentsTld, os: Os)
      requires i < slices.Length <= SLICES_PER_SEGMENT && 0 < count && i + slices[i].count <= slices.Length && masks.Valid()
      modifies slices, masks`commitMask, masks`purgeMask, masks`purgeExpire, tld
      ensures masks.Valid()
      ensures var t := old(slices[..]);
              if t[i].count <= count then slices[..] == t && tld.bins == old(tld.bins)
              else && slices[..] == Split(t, i, count)
                   && tld.bins == if owned then Pushed(old(tld.bins), Ref(addr, i + count), t[i].count - count) else old(tld.bins)
      ensures masks.Now() == old(masks.Now()) && masks.commitMask == old(masks.commitMask)
    {
      if slices[i].count <= count {
        return;
      }
      var next := i + count;
      var nextCount := slices[i].count - count;
      SpanFree(next, nextCount, false, tld, os);
      slices[i] := slices[i].(count := count);
    }

    /** The first `count` slices of a free span are taken in hand (segment.cpp:943-948). */
    method TakeSpan(i: nat, count: nat, tld: SegmentsTld, os: Os)
      requires Shape(-1) && owned && Queued(tld, Free()) && i in Free() && i < slices.Length && 0 < count <= slices[i].count
      modifies this`starts, slices, masks`commitMask, masks`purgeMask, masks`purgeExpire, tld
      ensures Shape(i) && Queued(tld, Free()) && OthersSame(old(tld.bins), tld.bins, addr)
      ensures FrontTaken(old(slices[..]), slices[..], i, count) && starts == TakeStarts(old(slices[..]), old(starts), i, count)
      ensures Pages() == old(Pages()) + {i} && i !in old(Pages())
      ensures masks.Now() == old(masks.Now()) && masks.commitMask == old(masks.commitMask)
    {
      ghost var t := slices[..];
      ghost var bins := tld.bins;
      assert Extent(t, starts, i);
      RemoveFromQueue(i, tld);
      ghost var bins1 := tld.bins;
      SliceSplit(i, count, tld, os);
      starts := TakeStarts(t, starts, i, count);
      TakenSpan(bins, bins1, tld.bins, addr, t, slices[..], old(starts), starts, infoSlices, masks.live, i, count);
    }

    /** `mi_segment_span_allocate` of the span in hand. */
    method PageInHand(i: nat, tld: SegmentsTld, os: Os) returns (ok: bool)
      requires Shape(i) && Queued(tld, Free()) && i < slices.Length && Used(slices[..], i)
      modifies this`used, slices, masks
      ensures old(0 < slices[i].count && End(slices[..], i) <= slices.Length)
      ensures ok <==> os.commitOk || Range(i, old(slices[i].count)) <= old(Bits(masks.commitMask))
      ensures ok ==> Shape(-1) && used == old(used) + 1 && slices[i].count == old(slices[i].count)
      ensures ok ==> Queued(tld, Free()) && Pages() == old(Pages()) && Free() == old(Free())
      ensures ok ==> SameOutside(old(slices[..]), slices[..], i, old(slices[i].count))
      ensures !ok ==> slices[..] == old(slices[..]) && masks.Valid() && masks.live == old(masks.live) && used == old(used)
    {
      ghost var t := slices[..];
      ghost var live := masks.live;
      assert Extent(t, starts, i);
      ok := SpanAllocate(i, slices[i].count, os);
      if ok {
        PageQueues(tld.bins, addr, t, slices[..], starts, infoSlices, live, masks.live, i);
      }
    }

    /** The commit failed: the span in hand becomes what it was, in the table `t` (segment.cpp:951-956). */
    method GiveBack(i: nat, tld: SegmentsTld, os: Os, ghost t: Table, ghost starts0: set<nat>)
      requires Laid(t, starts0, infoSlices, masks.live, -1) && i in FreeStarts(t, starts0)
      requires i < slices.Length && FrontTaken(t, slices[..], i, slices[i].count) && starts == TakeStarts(t, starts0, i, slices[i].count)
      requires Shape(i) && owned && Queued(tld, Free())
      modifies this`starts, slices, masks`commitMask, masks`purgeMask, masks`purgeExpire, tld
      ensures Shape(-1) && Queued(tld, Free()) && OthersSame(old(tld.bins), tld.bins, addr)
      ensures starts == starts0 && Pages() == PageStarts(t, starts) && Free() == FreeStarts(t, starts)
      ensures forall j :: j in starts ==> j < slices.Length && j < |t| && slices[j].count == t[j].count
    {
      ghost var count := slices[i].count;
      ghost var t2 := slices[..];
      var first := Coalesce(i, tld, os, Free());
      Undone(t, t2, slices[..], starts0, i, count, first);
    }

    /** What `mi_segments_page_find_and_allocate` does with the span it found (segment.cpp:942-957). */
    method AllocateAt(i: nat, count: nat, tld: SegmentsTld, os: Os) returns (ok: bool)
      requires Valid() && owned && Queued(tld, Free()) && i in Free() && i < slices.Length && 0 < count <= slices[i].count
      modifies this`used, this`starts, slices, masks, tld
      ensures Valid() && Queued(tld, Free()) && OthersSame(old(tld.bins), tld.bins, addr)
      ensures ok <==> os.commitOk || Range(i, count) <= old(Bits(masks.commitMask))
      ensures ok ==> i in starts && i < slices.Length && slices[i].count == count
      ensures ok ==> Pages() == old(Pages()) + {i} && i !in old(Pages())
      ensures ok ==> starts == TakeStarts(old(slices[..]), old(starts), i, count) && SameOutside(old(slices[..]), slices[..], i, old(slices[i].count))
      ensures !ok ==> starts == old(starts) && Pages() == old(Pages()) && Free() == old(Free())
      ensures !ok ==> forall j :: j in starts ==> j < slices.Length && slices[j].count == old(slices[..])[j].count
    {
      ghost var t := slices[..];
      ghost var starts0 := starts;
      ghost var pages := Pages();
      assert left <= pages && used == |pages|;
      TakeSpan(i, count, tld, os);
      ok := PageInHand(i, tld, os);
      if !ok {
        GiveBack(i, tld, os, t, starts0);
      }
    }

    // -------------------------------------------------------------- freeing pages

    /** `mi_segment_page_clear`: the page's span is free from here on, and may be purged. */
    method PageClear(i: nat, tld: SegmentsTld, os: Os, ghost queued: set<nat>) returns (first: nat)
      requires Shape(-1) && i in Pages() && used > 0
      requires owned ==> Queued(tld, queued) && queued <= Free()
      modifies this`used, this`starts, slices, masks, tld
      ensures used == old(used) - 1
      ensures Shape(-1) && first in Free() && first <= i
      ensures Neighbours(old(slices[..]), old(starts), i, first, End(slices[..], first))
      ensures starts == Merged(old(starts), first, slices[first].count)
      ensures SameOutside(old(slices[..]), slices[..], first, slices[first].count)
      ensures Pages() == old(Pages()) - {i}
      ensures Free() == old(Free()) * starts + {first}
      ensures masks.Now() == if masks.allowPurge then Scheduled(old(masks.Now()), first, slices[first].count, os.clock, os.decommits) else old(masks.Now())
      ensures masks.allowPurge && os.clock.delay != 0 && !Overdue(old(masks.purgeExpire), os.clock) ==>
                && Bits(masks.purgeMask) == old(Bits(masks.purgeMask)) + old(Bits(masks.commitMask)) * Range(first, slices[first].count)
                && Bits(masks.commitMask) == old(Bits(masks.commitMask))
      ensures owned ==> Queued(tld, queued * starts + {first}) && OthersSame(old(tld.bins), tld.bins, addr)
      ensures !owned ==> tld.bins == old(tld.bins)
    {
      ghost var t := slices[..];
      TakePage(i, tld, queued);
      first := Coalesce(i, tld, os, queued);
      NeighboursTaken(t, old(starts), i, first, End(slices[..], first));
      used := used - 1;
    }

    /** The page is taken in hand: its slices are in use no more (segment.cpp:1198-1202). */
    method TakePage(i: nat, tld: SegmentsTld, ghost queued: set<nat>)
      requires Shape(-1) && i in Pages()
      requires owned ==> Queued(tld, queued) && queued <= Free()
      modifies slices, masks`live
      ensures Shape(i) && i > 0 && i < slices.Length && slices[..] == Take(old(slices[..]), i)
      ensures Pages() == old(Pages()) && Free() == old(Free()) && i !in Free()
      ensures owned ==> Queued(tld, queued)
    {
      ghost var t := slices[..];
      ghost var live := masks.live;
      assert Extent(t, starts, i);
      slices[i] := slices[i].(xblock := 1);
      masks.live := masks.live - Range(i, slices[i].count);
      TakeLaid(t, starts, infoSlices, live, masks.live, i);
      assert slices[..] == Take(t, i);
      if owned {
        SameQueues(tld.bins, addr, t, slices[..], queued);
      }
    }

    /** `mi_segment_free`: the free spans leave the queues; `spans` is the `page_count` of the source. */
    method Release(tld: SegmentsTld) returns (ghost spans: nat)
      requires Valid() && owned && Queued(tld, Free()) && used == 0
      modifies slices, tld
      ensures QueuesHold(tld.bins, addr, [], {}) && OthersSame(old(tld.bins), tld.bins, addr)
      ensures spans == 2
    {
      ghost var t := slices[..];
      LaidCoalesced(t, starts, infoSlices, masks.live);
      assert forall j {:trigger Used(t, j)} :: j in starts && Used(t, j) ==> j == 0 by {
        assert forall j :: j in starts && Used(t, j) && j > 0 ==> j in Pages();
      }
      OnlyOneFree(t, starts);
      spans := 0;
      var slice := 0;
      while slice < slices.Length
        invariant slice in starts || slice == slices.Length
        invariant spans == if slice == 0 then 0 else if slice == infoSlices then 1 else 2
        invariant forall j :: 0 <= j < slices.Length ==> slices[j].count == t[j].count && (j >= slice ==> slices[j] == t[j])
        invariant QueuesHold(tld.bins, addr, t, From(FreeStarts(t, starts), slice))
        invariant OthersSame(old(tld.bins), tld.bins, addr)
        decreases slices.Length - slice
      {
        NextStart(t, starts, slice);
        Unqueued(tld.bins, addr, t, FreeStarts(t, starts), slice, End(t, slice));
        if slices[slice].xblock == 0 {
          RemoveFromQueue(slice, tld);
        }
        spans := spans + 1;
        slice := slice + slices[slice].count;
      }
      assert From(FreeStarts(t, starts), slice) == {};
    }

    /** `mi_segment_abandon`; `force` is the option to purge at once. */
    method Abandon(tld: SegmentsTld, os: Os, force: bool)
      requires Valid() && owned && Queued(tld, Free()) && left == Pages()
      modifies this`owned, slices, masks`commitMask, masks`purgeMask, masks`purgeExpire, tld
      ensures Valid() && !owned && slices[..] == old(slices[..])
      ensures Queued(tld, {}) && OthersSame(old(tld.bins), tld.bins, addr)
      ensures masks.Now() == if masks.allowPurge then Tried(old(masks.Now()), force, os.clock, os.decommits) else old(masks.Now())
    {
      ghost var t := slices[..];
      var slice := 0;
      while slice < slices.Length
        invariant slice in starts || slice == slices.Length
        invariant slices[..] == t
        invariant QueuesHold(tld.bins, addr, t, From(FreeStarts(t, starts), slice))
        invariant OthersSame(old(tld.bins), tld.bins, addr)
        modifies slices, tld
        decreases slices.Length - slice
      {
        NextStart(t, starts, slice);
        Unqueued(tld.bins, addr, t, FreeStarts(t, starts), slice, End(t, slice));
        if slices[slice].xblock == 0 {
          RemoveFromQueue(slice, tld);
          slices[slice] := slices[slice].(xblock := 0);
          assert slices[..] == t;
        }
        slice := slice + slices[slice].count;
      }
      assert From(FreeStarts(t, starts), slice) == {};
      masks.TryPurge(force, os.clock, os.decommits);
      owned := false;
    }

    /** `_mi_segment_page_free` of a page that was not abandoned. */
    method PageFree(i: nat, tld: SegmentsTld, os: Os, force: bool) returns (released: bool)
      requires Valid() && owned && Queued(tld, Free()) && i in Pages() && i !in left
      modifies this`used, this`starts, this`owned, slices, masks, tld
      ensures released <==> old(Pages()) == {i}
      ensures released ==> QueuesHold(tld.bins, addr, [], {})
      ensures !released ==> Valid() && Pages() == old(Pages()) - {i} && (owned <==> left != Pages())
      ensures !released ==> Queued(tld, if owned then Free() else {})
      ensures !released ==> SamePages(old(slices[..]), slices[..], Pages())
      ensures OthersSame(old(tld.bins), tld.bins, addr)
    {
      ClearOwned(i, tld, os);
      released := Settle(tld, os, force);
    }

    /** A page of a segment that is owned is cleared; the other pages are as they were. */
    method ClearOwned(i: nat, tld: SegmentsTld, os: Os)
      requires Shape(-1) && Counted() && owned && Queued(tld, Free()) && i in Pages() && i !in left
      modifies this`used, this`starts, slices, masks, tld
      ensures Shape(-1) && Counted() && Queued(tld, Free())
      ensures Pages() == old(Pages()) - {i} && SamePages(old(slices[..]), slices[..], Pages())
      ensures OthersSame(old(tld.bins), tld.bins, addr)
    {
      ghost var pages, t := Pages(), slices[..];
      var first := PageClear(i, tld, os, Free());
      PagesOutside(t, slices[..], starts, infoSlices, masks.live, first);
      assert pages == Pages() + {i};
    }

    /** What follows when a page is gone: the segment is released, abandoned, or stays (segment.cpp:1223-1232). */
    method Settle(tld: SegmentsTld, os: Os, force: bool) returns (released: bool)
      requires Shape(-1) && Counted() && owned && Queued(tld, Free())
      modifies this`owned, slices, masks`commitMask, masks`purgeMask, masks`purgeExpire, tld
      ensures released <==> old(Pages()) == {}
      ensures released ==> QueuesHold(tld.bins, addr, [], {})
      ensures !released ==> Valid() && slices[..] == old(slices[..]) && (owned <==> left != Pages())
      ensures !released ==> Queued(tld, if owned then Free() else {})
      ensures OthersSame(old(tld.bins), tld.bins, addr)
    {
      SubsetSize(left, Pages());
      released := used == 0;
      if released {
        var spans := Release(tld);
      } else if used == abandoned {
        Abandon(tld, os, force);
      }
    }

    /** `_mi_segment_page_abandon`: the segment is abandoned exactly when its last page is. */
    method PageAbandon(i: nat, tld: SegmentsTld, os: Os, force: bool)
      requires Valid() && owned && Queued(tld, Free()) && i in Pages() && i !in left
      modifies this`abandoned, this`left, this`owned, slices, masks`commitMask, masks`purgeMask, masks`purgeExpire, tld
      ensures Valid() && slices[..] == old(slices[..]) && left == old(left) + {i}
      ensures owned <==> left != Pages()
      ensures Queued(tld, if owned then Free() else {}) && OthersSame(old(tld.bins), tld.bins, addr)
    {
      abandoned := abandoned + 1;
      left := left + {i};
      SubsetSize(left, Pages());
      if used == abandoned {
        Abandon(tld, os, force);
      }
    }

    // -------------------------------------------------------------- abandoned segments

    /**
     `mi_segment_check_free` on an abandoned segment. `allFree` says which pages turn out to be all
     free, `available` which of the others have blocks of the size that is wanted.
     */
    method CheckFree(needed: nat, allFree: nat -> bool, available: nat -> bool, tld: SegmentsTld, os: Os) returns (hasPage: bool)
      requires Valid() && !owned
      modifies this`used, this`abandoned, this`starts, this`left, slices, masks, tld
      ensures Valid() && tld.bins == old(tld.bins)
      ensures Pages() == Kept(old(Pages()), slices.Length, allFree)
      ensures hasPage <==> Found(slices[..], starts, slices.Length, needed, available)
      ensures SamePages(old(slices[..]), slices[..], Pages())
    {
      ghost var pages, t := Pages(), slices[..];
      AllSame(t, starts);
      hasPage := false;
      NextStart(slices[..], starts, 0);
      var slice := slices[0].count;
      while slice < slices.Length
        invariant Valid() && 0 < slice && (slice in starts || slice == slices.Length)
        invariant tld.bins == old(tld.bins) && Pages() == Kept(pages, slice, allFree) && SamePages(t, slices[..], Pages())
        invariant hasPage <==> Found(slices[..], starts, slice, needed, available)
        decreases slices.Length - slice
      {
        var next, found := CheckSpan(slice, needed, allFree, available, tld, os, pages);
        slice := next;
        hasPage := hasPage || found;
      }
    }

    /** One round of the loop of `mi_segment_check_free` (segment.cpp:1511-1551). */
    method CheckSpan(i: nat, needed: nat, allFree: nat -> bool, available: nat -> bool, tld: SegmentsTld, os: Os, ghost pages: set<nat>)
      returns (next: nat, found: bool)
      requires Valid() && !owned && 0 < i < slices.Length && i in starts && Pages() == Kept(pages, i, allFree)
      modifies this`used, this`abandoned, this`starts, this`left, slices, masks, tld
      ensures Valid() && tld.bins == old(tld.bins)
      ensures i < next <= slices.Length && (next in starts || next == slices.Length)
      ensures Pages() == Kept(pages, next, allFree)
      ensures Found(slices[..], starts, next, needed, available) <==> found || Found(old(slices[..]), old(starts), i, needed, available)
      ensures SamePages(old(slices[..]), slices[..], Pages())
    {
      ghost var t := slices[..];
      ghost var now := Pages();
      NextStart(t, starts, i);
      if slices[i].xblock > 0 && allFree(i) {
        next, found := CheckEmpty(i, needed, available, tld, os);
        KeptPast(pages, now, i, next, allFree);
      } else {
        AllSame(t, starts);
        next := i + slices[i].count;
        FoundNext(t, starts, i, needed, available);
        KeptPast(pages, now, i, next, allFree);
        found := if slices[i].xblock > 0 then available(i) else slices[i].count >= needed;
      }
    }

    /** A page that turns out to be all free (segment.cpp:1520-1532). */
    method CheckEmpty(i: nat, needed: nat, available: nat -> bool, tld: SegmentsTld, os: Os) returns (next: nat, found: bool)
      requires Valid() && !owned && i in Pages()
      modifies this`used, this`abandoned, this`starts, this`left, slices, masks, tld
      ensures Valid() && tld.bins == old(tld.bins)
      ensures i < next <= slices.Length && (next in starts || next == slices.Length)
      ensures Pages() == old(Pages()) - {i} && forall j :: j in old(Pages()) && i < j ==> next <= j
      ensures Found(slices[..], starts, next, needed, available) <==> found || Found(old(slices[..]), old(starts), i, needed, available)
      ensures SamePages(old(slices[..]), slices[..], Pages())
    {
      ghost var t := slices[..];
      ghost var starts0 := starts;
      assert i in left;
      abandoned := abandoned - 1;
      left := left - {i};
      var slice := PageClear(i, tld, os, {});
      next := slice + slices[slice].count;
      PagesOutside(t, slices[..], starts, infoSlices, masks.live, slice);
      NextStart(slices[..], starts, slice);
      WalkMerged(t, slices[..], starts0, i, slice, next);
      FoundMerged(t, slices[..], starts0, i, slice, next, needed, available);
      found := slices[slice].count >= needed;
    }

    /** `mi_segment_reclaim`: the pages get a heap again, and the free spans a queue. */
    method Reclaim(allFree: nat -> bool, tld: SegmentsTld, os: Os) returns (released: bool)
      requires Valid() && !owned && Queued(tld, {})
      modifies this`used, this`abandoned, this`owned, this`starts, this`left, slices, masks, tld
      ensures released <==> Kept(old(Pages()), slices.Length, allFree) == {}
      ensures released ==> QueuesHold(tld.bins, addr, [], {})
      ensures !released ==> Valid() && owned && left == {} && Queued(tld, Free())
      ensures !released ==> Pages() == Kept(old(Pages()), slices.Length, allFree)
      ensures OthersSame(old(tld.bins), tld.bins, addr)
      ensures !released ==> SamePages(old(slices[..]), slices[..], Pages())
    {
      ghost var pages, t := Pages(), slices[..];
      AllSame(t, starts);
      owned := true;
      NextStart(slices[..], starts, 0);
      var slice := slices[0].count;
      assert Below(Free(), slice) == {};
      while slice < slices.Length
        invariant Shape(-1) && owned && 0 < slice && (slice in starts || slice == slices.Length)
        invariant used == |Pages()| && abandoned == |left| && left == From(Pages(), slice)
        invariant Queued(tld, Below(Free(), slice)) && OthersSame(old(tld.bins), tld.bins, addr)
        invariant Pages() == Kept(pages, slice, allFree) && SamePages(t, slices[..], Pages())
        decreases slices.Length - slice
      {
        slice := ReclaimSpan(slice, allFree, tld, os, pages);
      }
      assert left == {};
      assert Below(Free(), slice) == Free();
      released := used == 0;
      if released {
        var spans := Release(tld);
      }
    }

    /** One round of the loop of `mi_segment_reclaim` (segment.cpp:1576-1619). */
    method ReclaimSpan(i: nat, allFree: nat -> bool, tld: SegmentsTld, os: Os, ghost pages: set<nat>) returns (next: nat)
      requires Shape(-1) && owned && 0 < i < slices.Length && i in starts
      requires used == |Pages()| && abandoned == |left| && left == From(Pages(), i)
      requires Queued(tld, Below(Free(), i)) && Pages() == Kept(pages, i, allFree)
      modifies this`used, this`abandoned, this`starts, this`left, slices, masks, tld
      ensures Shape(-1) && i < next <= slices.Length && (next in starts || next == slices.Length)
      ensures used == |Pages()| && abandoned == |left| && left == From(Pages(), next)
      ensures Queued(tld, Below(Free(), next)) && OthersSame(old(tld.bins), tld.bins, addr)
      ensures Pages() == Kept(pages, next, allFree)
      ensures SamePages(old(slices[..]), slices[..], Pages())
    {
      ghost var t := slices[..];
      ghost var now := Pages();
      NextStart(t, starts, i);
      if slices[i].xblock == 0 {
        next := ReclaimFree(i, tld, os);
        KeptPast(pages, now, i, next, allFree);
        return;
      }
      assert i in left;
      abandoned := abandoned - 1;
      left := left - {i};
      if allFree(i) {
        next := ReclaimEmpty(i, tld, os);
        KeptPast(pages, now, i, next, allFree);
      } else {
        AllSame(t, starts);
        next := i + slices[i].count;
        WalkPage(t, starts, i);
        KeptPast(pages, now, i, next, allFree);
      }
    }

    /** A page that turns out to be all free (segment.cpp:1594-1598). */
    method ReclaimEmpty(i: nat, tld: SegmentsTld, os: Os) returns (next: nat)
      requires Shape(-1) && owned && i in Pages() && used > 0 && Queued(tld, Below(Free(), i))
      modifies this`used, this`starts, slices, masks, tld
      ensures Shape(-1) && i < next <= slices.Length && (next in starts || next == slices.Length)
      ensures Queued(tld, Below(Free(), next)) && OthersSame(old(tld.bins), tld.bins, addr)
      ensures used == old(used) - 1 && Pages() == old(Pages()) - {i}
      ensures From(Pages(), next) == From(old(Pages()), i) - {i}
      ensures forall j :: j in old(Pages()) && i < j ==> next <= j
      ensures SamePages(old(slices[..]), slices[..], Pages())
    {
      ghost var t := slices[..];
      ghost var starts0 := starts;
      var slice := PageClear(i, tld, os, Below(Free(), i));
      next := slice + slices[slice].count;
      PagesOutside(t, slices[..], starts, infoSlices, masks.live, slice);
      NextStart(slices[..], starts, slice);
      NeighboursWhole(t, starts0, i, slice, next);
      WalkMerged(t, slices[..], starts0, i, slice, next);
    }

    /** A free span is added to the queues again (segment.cpp:1612-1616). */
    method ReclaimFree(i: nat, tld: SegmentsTld, os: Os) returns (next: nat)
      requires Shape(-1) && owned && i > 0 && i in Free() && Queued(tld, Below(Free(), i))
      modifies this`starts, slices, masks`commitMask, masks`purgeMask, masks`purgeExpire, tld
      ensures Shape(-1) && i < next <= slices.Length && (next in starts || next == slices.Length)
      ensures Queued(tld, Below(Free(), next)) && OthersSame(old(tld.bins), tld.bins, addr)
      ensures Pages() == old(Pages()) && From(Pages(), next) == From(old(Pages()), i)
      ensures forall j :: j in old(Pages()) && i < j ==> next <= j
      ensures SamePages(old(slices[..]), slices[..], Pages())
    {
      ghost var t := slices[..];
      ghost var starts0 := starts;
      HoldFree(t, starts, infoSlices, masks.live, i);
      var slice := Coalesce(i, tld, os, Below(Free(), i));
      next := slice + slices[slice].count;
      PagesOutside(t, slices[..], starts, infoSlices, masks.live, slice);
      NextStart(slices[..], starts, slice);
      NeighboursWhole(t, starts0, i, slice, next);
      WalkMerged(t, slices[..], starts0, i, slice, next);
    }
  }
}
