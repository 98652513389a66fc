/**
 What holds of the slice table of a normal segment between the steps of the allocator
 (`mi_segment_is_valid`, segment.cpp:305-361), and that each kind of table update keeps it.

 While a span is taken off its queue and not yet a page again, it is "in hand": `but` is its first
 slice, and -1 when there is none.
 */
module SegmentLayout {
  import opened Sequences
  import opened CommitMasks
  import opened SliceTiling
  import opened SpanBins
  import opened SpanQueues

  /** Exactly the slices of a page are live; a span in hand is not. */
  ghost predicate SpanLive(t: Table, i: nat, live: set<nat>, but: int) {
    forall k {:trigger k in live} :: i <= k < End(t, i) ==> (k in live <==> Used(t, i) && i != but)
  }

  ghost predicate LiveHolds(t: Table, starts: set<nat>, live: set<nat>, but: int) {
    forall i {:trigger SpanLive(t, i, live, but)} :: i in starts ==> SpanLive(t, i, live, but)
  }

  /** No two free spans are neighbours, the one in hand aside. */
  ghost predicate CoalescedBut(t: Table, starts: set<nat>, but: int) {
    forall i {:trigger UsedAfter(t, i)} :: i in starts && i != but && End(t, i) != but ==> UsedAfter(t, i)
  }

  /** The first span holds the segment itself. */
  predicate InfoFirst(t: Table, info: nat) {
    info < |t| <= SLICES_PER_SEGMENT && Used(t, 0) && t[0].count == info
  }

  ghost predicate Laid(t: Table, starts: set<nat>, info: nat, live: set<nat>, but: int) {
    && Tiles(t, starts) && TagsBut(t, starts, but) && CoalescedBut(t, starts, but)
    && LiveHolds(t, starts, live, but) && InfoFirst(t, info)
    && (but == -1 || (but in starts && but > 0))
  }

  lemma LaidCoalesced(t: Table, starts: set<nat>, info: nat, live: set<nat>)
    requires Laid(t, starts, info, live, -1)
    ensures Coalesced(t, starts)
  {
  }

  lemma RangeIsFree(t: Table, starts: set<nat>, live: set<nat>, but: int, i: nat)
    requires LiveHolds(t, starts, live, but) && i in starts && i < |t| && (!Used(t, i) || i == but)
    ensures Range(i, t[i].count) !! live
  {
    assert SpanLive(t, i, live, but);
  }

  // ---------------------------------------------------------------- taking a span in hand

  /** `mi_span_queue_delete` marks a free span as no longer free; `mi_segment_page_clear` a page as empty. */
  function Take(t: Table, i: nat): Table
    requires i < |t|
  {
    t[i := t[i].(xblock := 1)]
  }

  lemma SameTiles(t: Table, t': Table, starts: set<nat>)
    requires Tiles(t, starts) && |t'| == |t|
    requires forall j :: 0 <= j < |t| ==> t'[j].count == t[j].count && t'[j].offset == t[j].offset
    ensures Tiles(t', starts)
  {
    forall j | j in starts ensures Extent(t', starts, j) && End(t', j) == End(t, j) { assert Extent(t, starts, j); }
    SameEnds(t, t', starts);
  }

  lemma TakeTiles(t: Table, starts: set<nat>, i: nat)
    requires Tiles(t, starts) && i in starts && i < |t|
    ensures Tiles(Take(t, i), starts)
    ensures forall j {:trigger End(Take(t, i), j)} :: End(Take(t, i), j) == End(t, j)
  {
    SameTiles(t, Take(t, i), starts);
  }

  lemma TakeTags(t: Table, starts: set<nat>, i: nat, but: int)
    requires Tiles(t, starts) && TagsBut(t, starts, but) && i in starts && i < |t| && (but == -1 || but == i)
    ensures TagsBut(Take(t, i), starts, i)
  {
    var t' := Take(t, i);
    forall j | j in starts && j != i ensures Tags(t', j) {
      assert Tags(t, j) && Extent(t, starts, j);
      assert !(j <= i < End(t, j));
    }
  }

  lemma TakeCoalesced(t: Table, starts: set<nat>, i: nat, but: int)
    requires CoalescedBut(t, starts, but) && i < |t| && (but == -1 || but == i)
    ensures CoalescedBut(Take(t, i), starts, i)
  {
    var t' := Take(t, i);
    forall j | j in starts && j != i && End(t', j) != i ensures UsedAfter(t', j) {
      assert UsedAfter(t, j);
    }
  }

  lemma TakeLive(t: Table, starts: set<nat>, i: nat, live: set<nat>, live': set<nat>)
    requires Tiles(t, starts) && LiveHolds(t, starts, live, -1) && i in starts && i < |t|
    requires live' == live - Range(i, t[i].count)
    ensures LiveHolds(Take(t, i), starts, live', i)
  {
    var t' := Take(t, i);
    forall j | j in starts ensures SpanLive(t', j, live', i) {
      assert SpanLive(t, j, live, -1) && Extent(t, starts, j);
      assert End(t', j) == End(t, j);
    }
  }

  /** A page emptied by `mi_segment_page_clear`, or a free span deleted from its queue. */
  lemma TakeLaid(t: Table, starts: set<nat>, info: nat, live: set<nat>, live': set<nat>, i: nat)
    requires Laid(t, starts, info, live, -1) && i in starts && i > 0 && i < |t|
    requires live' == live - Range(i, t[i].count)
    ensures Laid(Take(t, i), starts, info, live', i)
    ensures PageStarts(Take(t, i), starts) == PageStarts(t, starts) + {i}
    ensures FreeStarts(Take(t, i), starts) == FreeStarts(t, starts) - {i}
  {
    TakeTiles(t, starts, i);
    TakeTags(t, starts, i, -1);
    TakeCoalesced(t, starts, i, -1);
    TakeLive(t, starts, i, live, live');
  }

  /** `mi_segment_reclaim` coalesces a free span that is in no queue yet as if it was in hand. */
  lemma HoldFree(t: Table, starts: set<nat>, info: nat, live: set<nat>, i: nat)
    requires Laid(t, starts, info, live, -1) && i in starts && i > 0 && !Used(t, i)
    ensures Laid(t, starts, info, live, i)
  {
    forall j | j in starts ensures SpanLive(t, j, live, i) { assert SpanLive(t, j, live, -1); }
  }

  // ---------------------------------------------------------------- splitting the span in hand

  function Split(t: Table, i: nat, count: nat): Table
    requires i < |t| && 0 < count < t[i].count && End(t, i) <= |t|
  {
    var t1 := WriteFree(t, i + count, t[i].count - count);
    t1[i := t1[i].(count := count)]
  }

  lemma SplitWritten(t: Table, i: nat, count: nat)
    requires i < |t| && 0 < count < t[i].count && End(t, i) <= |t|
    ensures WrittenSplit(t, Split(t, i, count), i, count)
    ensures SameOutside(t, Split(t, i, count), i, t[i].count)
  {
  }

  lemma SplitCoalesced(t: Table, t': Table, starts: set<nat>, i: nat, count: nat)
    requires Tiles(t, starts) && CoalescedBut(t, starts, i) && i in starts && i < |t| && 0 < count < t[i].count
    requires forall j {:trigger t'[j]} :: j in starts && j != i ==> j < |t'| && t'[j] == t[j]
    requires |t| == |t'| && End(t, i) <= |t| && (End(t, i) < |t| ==> Used(t, End(t, i)))
    requires WrittenSplit(t, t', i, count)
    ensures CoalescedBut(t', starts + {i + count}, i)
  {
    assert Extent(t, starts, i);
    forall j | j in starts + {i + count} && j != i && End(t', j) != i ensures UsedAfter(t', j) {
      if j != i + count { assert UsedAfter(t, j) && Extent(t, starts, j); }
    }
  }

  lemma SplitLive(t: Table, t': Table, starts: set<nat>, i: nat, count: nat, live: set<nat>)
    requires Tiles(t, starts) && LiveHolds(t, starts, live, i) && i in starts && i < |t| && 0 < count < t[i].count
    requires forall j {:trigger t'[j]} :: j in starts && j != i ==> j < |t'| && t'[j] == t[j]
    requires |t| == |t'| && End(t, i) <= |t| && WrittenSplit(t, t', i, count)
    ensures LiveHolds(t', starts + {i + count}, live, i)
  {
    assert SpanLive(t, i, live, i);
    forall j | j in starts + {i + count} ensures SpanLive(t', j, live, i) {
      if j in starts && j != i { assert SpanLive(t, j, live, i); }
    }
  }

  /** The front part stays in hand, the rear part is a free span of its own. */
  lemma SplitLaid(t: Table, starts: set<nat>, info: nat, live: set<nat>, i: nat, count: nat)
    requires Laid(t, starts, info, live, i) && i < |t| && 0 < count < t[i].count && End(t, i) <= |t| && Used(t, i)
    requires End(t, i) < |t| ==> Used(t, End(t, i))
    ensures i + count !in starts
    ensures Laid(Split(t, i, count), starts + {i + count}, info, live, i)
    ensures PageStarts(Split(t, i, count), starts + {i + count}) == PageStarts(t, starts)
    ensures FreeStarts(Split(t, i, count), starts + {i + count}) == FreeStarts(t, starts) + {i + count}
    ensures forall j {:trigger Split(t, i, count)[j]} :: j in starts && j != i ==> j < |t| && Split(t, i, count)[j] == t[j]
  {
    var t' := Split(t, i, count);
    SplitWritten(t, i, count);
    SplitTiles(t, t', starts, i, count);
    SplitCoalesced(t, t', starts, i, count);
    SplitLive(t, t', starts, i, count, live);
  }

  // ---------------------------------------------------------------- the span in hand becomes a page

  lemma PageCoalesced(t: Table, t': Table, starts: set<nat>, i: nat)
    requires Tiles(t, starts) && CoalescedBut(t, starts, i) && i in starts && |t'| == |t|
    requires forall j {:trigger t'[j]} :: j in starts && j != i ==> j < |t'| && t'[j] == t[j]
    requires Used(t', i)
    ensures CoalescedBut(t', starts, -1)
  {
    forall j | j in starts ensures UsedAfter(t', j) {
      assert Extent(t, starts, j);
      if j != i { assert UsedAfter(t, j) || End(t, j) == i; }
    }
  }

  lemma PageLive(t: Table, t': Table, starts: set<nat>, live: set<nat>, live': set<nat>, i: nat)
    requires Tiles(t, starts) && LiveHolds(t, starts, live, i) && i in starts && |t'| == |t|
    requires forall j {:trigger t'[j]} :: j in starts && j != i ==> j < |t'| && t'[j] == t[j]
    requires Used(t', i) && i < |t| && t'[i].count == t[i].count && live' == live + Range(i, t[i].count)
    ensures LiveHolds(t', starts, live', -1)
  {
    forall j | j in starts ensures SpanLive(t', j, live', -1) {
      assert SpanLive(t, j, live, i) && Extent(t, starts, j);
      if j != i {
        assert t'[j] == t[j] && End(t', j) == End(t, j) && Used(t', j) == Used(t, j);
        SpanApart(t, starts, i, j);
      }
    }
  }

  /** Two spans share no slice. */
  lemma SpanApart(t: Table, starts: set<nat>, i: nat, j: nat)
    requires Tiles(t, starts) && i in starts && j in starts && j != i && i < |t|
    ensures forall k: nat :: j <= k < End(t, j) ==> k !in Range(i, t[i].count)
  {
    assert Extent(t, starts, i) && Extent(t, starts, j);
  }

  lemma PageLaid(t: Table, t': Table, starts: set<nat>, info: nat, live: set<nat>, live': set<nat>, i: nat)
    requires Laid(t, starts, info, live, i) && i < |t| && t[i].count > 0 && End(t, i) <= |t|
    requires SameOutside(t, t', i, t[i].count) && WrittenUsed(t', i, t[i].count)
    requires live' == live + Range(i, t[i].count)
    ensures Laid(t', starts, info, live', -1)
    ensures PageStarts(t', starts) == PageStarts(t, starts) + {i}
    ensures FreeStarts(t', starts) == FreeStarts(t, starts) - {i}
    ensures forall j {:trigger t'[j]} :: j in starts && j != i ==> j < |t'| && t'[j] == t[j]
  {
    UsedTiled(t, t', starts, i, t[i].count, i);
    PageCoalesced(t, t', starts, i);
    PageLive(t, t', starts, live, live', i);
  }

  // ---------------------------------------------------------------- the span in hand is freed

  /** `[first, end)` is the span at `i` with its free neighbours. */
  ghost predicate Neighbours(t: Table, starts: set<nat>, i: nat, first: nat, end: nat) {
    && first in starts && i < |t|
    && (if first == i then forall p :: p in starts && End(t, p) == i ==> Used(t, p)
        else first < i && End(t, first) == i && !Used(t, first))
    && (if end == End(t, i) then end < |t| ==> Used(t, end)
        else End(t, i) < |t| && !Used(t, End(t, i)) && end == End(t, End(t, i)))
  }

  lemma NeighboursWhole(t: Table, starts: set<nat>, i: nat, first: nat, end: nat)
    requires Tiles(t, starts) && i in starts && Neighbours(t, starts, i, first, end)
    ensures first <= i < end <= |t| && (end < |t| ==> end in starts)
    ensures forall j :: j in starts && first <= j < end ==> j == first || j == i || j == End(t, i)
  {
    assert Extent(t, starts, i) && Extent(t, starts, first);
    if End(t, i) < |t| { assert Extent(t, starts, End(t, i)); }
    forall j | j in starts && first <= j < end ensures j == first || j == i || j == End(t, i) {
      assert Extent(t, starts, j);
    }
  }

  lemma MergeCoalesced(t: Table, t': Table, starts: set<nat>, i: nat, first: nat, end: nat)
    requires Tiles(t, starts) && CoalescedBut(t, starts, i) && i in starts && Neighbours(t, starts, i, first, end)
    requires first < end <= |t| && |t'| == |t| && t'[first] == Slice(end - first, 0, 0)
    requires forall j :: j in Merged(starts, first, end - first) && j != first ==> j < |t| && t'[j] == t[j] && (End(t, j) <= first || end <= j)
    requires end < |t| ==> end in starts
    ensures CoalescedBut(t', Merged(starts, first, end - first), -1)
  {
    assert Extent(t, starts, i) && Extent(t, starts, first);
    if End(t, i) < |t| { assert Extent(t, starts, End(t, i)); }
    var starts' := Merged(starts, first, end - first);
    if end < |t| {
      assert Used(t', end) by {
        assert end in starts';
        if end != End(t, i) { assert UsedAfter(t, End(t, i)); }
      }
    }
    forall j | j in starts' ensures UsedAfter(t', j) {
      if j != first {
        assert Extent(t, starts, j);
        if End(t, j) == first && first != i { assert UsedAfter(t, j); }
        if End(t, j) != first && End(t, j) < |t| {
          assert End(t, j) in starts';
          assert UsedAfter(t, j);
        }
      }
    }
  }

  lemma MergeLive(t: Table, t': Table, starts: set<nat>, live: set<nat>, i: nat, first: nat, end: nat)
    requires Tiles(t, starts) && LiveHolds(t, starts, live, i) && i in starts && Neighbours(t, starts, i, first, end)
    requires first < end <= |t| && |t'| == |t| && t'[first] == Slice(end - first, 0, 0)
    requires forall j :: j in Merged(starts, first, end - first) && j != first ==> j < |t| && t'[j] == t[j] && (End(t, j) <= first || end <= j)
    ensures LiveHolds(t', Merged(starts, first, end - first), live, -1)
  {
    assert Extent(t, starts, i);
    assert SpanLive(t, i, live, i) && SpanLive(t, first, live, i);
    if End(t, i) < |t| { assert SpanLive(t, End(t, i), live, i); }
    forall j | j in Merged(starts, first, end - first) ensures SpanLive(t', j, live, -1) {
      if j != first { assert SpanLive(t, j, live, i); }
    }
  }

  /** `mi_segment_span_free_coalesce`: the span in hand and its free neighbours become one free span. */
  lemma MergeLaid(t: Table, t': Table, starts: set<nat>, info: nat, live: set<nat>, i: nat, first: nat, end: nat)
    requires Laid(t, starts, info, live, i) && i >= 0 && Neighbours(t, starts, i, first, end)
    requires first < end && SameOutside(t, t', first, end - first) && end <= |t|
    requires t'[first] == Slice(end - first, 0, 0) && (end - first > 1 ==> t'[end - 1] == Slice(0, end - first - 1, 0))
    ensures Laid(t', Merged(starts, first, end - first), info, live, -1)
    ensures PageStarts(t', Merged(starts, first, end - first)) == PageStarts(t, starts) - {i}
    ensures FreeStarts(t', Merged(starts, first, end - first)) == FreeStarts(t, starts) * Merged(starts, first, end - first) + {first}
    ensures forall j {:trigger t'[j]} :: j in Merged(starts, first, end - first) && j != first ==> j < |t'| && t'[j] == t[j]
  {
    var starts' := Merged(starts, first, end - first);
    NeighboursWhole(t, starts, i, first, end);
    FreeTiles(t, t', starts, first, end - first);
    FreeTags(t, t', starts, first, end - first, i);
    MergeCoalesced(t, t', starts, i, first, end);
    MergeLive(t, t', starts, live, i, first, end);
    assert first > 0;
    assert 0 in starts';
    MergeStarts(t, t', starts, i, first, end);
  }

  lemma MergeStarts(t: Table, t': Table, starts: set<nat>, i: nat, first: nat, end: nat)
    requires i in starts && first <= i < end <= |t| && |t'| == |t| && Neighbours(t, starts, i, first, end)
    requires forall j :: j in starts ==> j < |t|
    requires forall j :: j in starts && first <= j < end ==> j == first || j == i || j == End(t, i)
    requires forall j {:trigger t'[j]} :: j in Merged(starts, first, end - first) && j != first ==> j < |t'| && t'[j] == t[j]
    requires !Used(t', first)
    ensures PageStarts(t', Merged(starts, first, end - first)) == PageStarts(t, starts) - {i}
    ensures FreeStarts(t', Merged(starts, first, end - first)) == FreeStarts(t, starts) * Merged(starts, first, end - first) + {first}
  {
    var starts' := Merged(starts, first, end - first);
    forall j | j in starts ensures j in PageStarts(t', starts') <==> j in PageStarts(t, starts) - {i} {
      if j in starts' && j != first { assert t'[j] == t[j]; }
    }
  }

  // ---------------------------------------------------------------- the queues of a thread

  type Bins = seq<seq<Ref>>

  ghost predicate BinsOk(bins: Bins) {
    && |bins| == BIN_MAX + 1
    && forall b :: 0 <= b < |bins| ==> NoDup(bins[b])
  }

  predicate InBin(bins: Bins, r: Ref, b: nat) {
    b < |bins| && r in bins[b]
  }

  /** Exactly the spans `queued` of `seg` are queued, each in the queue for its size. */
  ghost predicate QueuesHold(bins: Bins, seg: Addr, t: Table, queued: set<nat>) {
    && BinsOk(bins)
    && (forall j :: j in queued ==> j < |t| && t[j].count <= SLICES_PER_SEGMENT)
    && (forall b: nat, j: nat {:trigger InBin(bins, Ref(seg, j), b)} ::
          InBin(bins, Ref(seg, j), b) <==> j in queued && b == Bin8(t[j].count))
  }

  /** The spans of other segments are queued as before. */
  ghost predicate OthersSame(bins: Bins, bins': Bins, seg: Addr) {
    forall r: Ref, b: nat {:trigger InBin(bins', r, b)} :: r.seg != seg ==> (InBin(bins', r, b) <==> InBin(bins, r, b))
  }

  /** `mi_span_queue_push` on the queue for the size. */
  function Pushed(bins: Bins, r: Ref, count: nat): Bins {
    var b := Bin8(count);
    if b < |bins| then bins[b := [r] + bins[b]] else bins
  }

  /** `mi_segment_span_remove_from_queue` */
  function Removed(bins: Bins, r: Ref, count: nat): Bins {
    var b := Bin8(count);
    if b < |bins| then bins[b := Without(bins[b], r)] else bins
  }

  lemma PushMembers(bins: Bins, r: Ref, count: nat)
    requires BinsOk(bins) && count <= SLICES_PER_SEGMENT && !InBin(bins, r, Bin8(count))
    ensures BinsOk(Pushed(bins, r, count))
    ensures forall s: Ref, b: nat {:trigger InBin(Pushed(bins, r, count), s, b)} ::
              InBin(Pushed(bins, r, count), s, b) <==> InBin(bins, s, b) || (s == r && b == Bin8(count))
  {
    BinInRange(count);
    var bins' := Pushed(bins, r, count);
    assert bins'[Bin8(count)] == [r] + bins[Bin8(count)];
  }

  lemma RemoveMembers(bins: Bins, r: Ref, count: nat)
    requires BinsOk(bins) && count <= SLICES_PER_SEGMENT
    ensures BinsOk(Removed(bins, r, count))
    ensures forall s: Ref, b: nat {:trigger InBin(Removed(bins, r, count), s, b)} ::
              InBin(Removed(bins, r, count), s, b) <==> InBin(bins, s, b) && !(s == r && b == Bin8(count))
  {
    BinInRange(count);
    WithoutMembers(bins[Bin8(count)], r);
  }

  lemma PushHolds(bins: Bins, seg: Addr, t: Table, t': Table, queued: set<nat>, i: nat)
    requires QueuesHold(bins, seg, t, queued) && i !in queued
    requires i < |t'| && t'[i].count <= SLICES_PER_SEGMENT
    requires forall j :: j in queued ==> j < |t'| && t'[j].count == t[j].count
    ensures QueuesHold(Pushed(bins, Ref(seg, i), t'[i].count), seg, t', queued + {i})
    ensures OthersSame(bins, Pushed(bins, Ref(seg, i), t'[i].count), seg)
  {
    PushMembers(bins, Ref(seg, i), t'[i].count);
  }

  lemma RemoveHolds(bins: Bins, seg: Addr, t: Table, t': Table, queued: set<nat>, i: nat)
    requires QueuesHold(bins, seg, t, queued) && i < |t| && t[i].count <= SLICES_PER_SEGMENT
    requires forall j :: j in queued && j != i ==> j < |t'| && t'[j].count == t[j].count
    ensures QueuesHold(Removed(bins, Ref(seg, i), t[i].count), seg, t', queued - {i})
    ensures OthersSame(bins, Removed(bins, Ref(seg, i), t[i].count), seg)
  {
    RemoveMembers(bins, Ref(seg, i), t[i].count);
  }

  lemma SameQueues(bins: Bins, seg: Addr, t: Table, t': Table, queued: set<nat>)
    requires QueuesHold(bins, seg, t, queued)
    requires forall j :: j in queued ==> j < |t'| && t'[j].count == t[j].count
    ensures QueuesHold(bins, seg, t', queued)
  {
  }

  // ---------------------------------------------------------------- a free span taken for a page

  function TakeFront(t: Table, i: nat, count: nat): Table
    requires i < |t| && 0 < count <= t[i].count && End(t, i) <= |t|
  {
    if count < t[i].count then Split(Take(t, i), i, count) else Take(t, i)
  }

  function TakeStarts(t: Table, starts: set<nat>, i: nat, count: nat): set<nat>
    requires i < |t|
  {
    if count < t[i].count then starts + {i + count} else starts
  }

  /** The first `count` slices of a free span are in hand, the others stay free. */
  lemma TakeFrontLaid(t: Table, starts: set<nat>, info: nat, live: set<nat>, i: nat, count: nat)
    requires Laid(t, starts, info, live, -1) && i in FreeStarts(t, starts)
    requires i < |t| && 0 < count <= t[i].count && End(t, i) <= |t|
    ensures Laid(TakeFront(t, i, count), TakeStarts(t, starts, i, count), info, live, i)
    ensures PageStarts(TakeFront(t, i, count), TakeStarts(t, starts, i, count)) == PageStarts(t, starts) + {i}
    ensures FreeStarts(TakeFront(t, i, count), TakeStarts(t, starts, i, count))
         == FreeStarts(t, starts) - {i} + (if count < t[i].count then {i + count} else {})
    ensures count < t[i].count ==> i + count !in starts
    ensures TakeFront(t, i, count)[i].count == count
    ensures forall j {:trigger TakeFront(t, i, count)[j]} :: j in starts && j != i ==> j < |t| && TakeFront(t, i, count)[j] == t[j]
  {
    RangeIsFree(t, starts, live, -1, i);
    assert live - Range(i, t[i].count) == live;
    TakeLaid(t, starts, info, live, live, i);
    if count < t[i].count {
      assert UsedAfter(t, i);
      SplitLaid(Take(t, i), starts, info, live, i, count);
    }
  }

  /** `TakeFront`, as far as the other entries of the table are concerned. */
  predicate FrontTaken(t: Table, t': Table, i: nat, count: nat) {
    && i < |t| && 0 < count <= t[i].count && End(t, i) <= |t| && SameOutside(t, t', i, t[i].count)
    && t'[i].count == count && Used(t', i)
    && (count < t[i].count ==> t'[i + count] == Slice(t[i].count - count, 0, 0))
  }

  lemma TakeFrontTaken(t: Table, i: nat, count: nat)
    requires i < |t| && 0 < count <= t[i].count && End(t, i) <= |t|
    ensures FrontTaken(t, TakeFront(t, i, count), i, count)
  {
  }

  /** When the commit fails, coalescing finds just the span that was taken. */
  lemma Restored(t: Table, t': Table, starts: set<nat>, i: nat, count: nat, first: nat, end: nat)
    requires Tiles(t, starts) && Coalesced(t, starts) && i in FreeStarts(t, starts) && FrontTaken(t, t', i, count)
    requires Neighbours(t', TakeStarts(t, starts, i, count), i, first, end)
    ensures first == i && end == End(t, i)
    ensures Merged(TakeStarts(t, starts, i, count), i, t[i].count) == starts
  {
    assert UsedAfter(t, i) && Extent(t, starts, i);
    assert first != i ==> first in starts && t'[first] == t[first] && (UsedAfter(t, first) ==> Used(t, i));
    assert first in starts ==> UsedAfter(t, first);
    NextStart(t, starts, i);
  }

  lemma TakenQueues(bins: Bins, seg: Addr, t: Table, t': Table, free: set<nat>, i: nat, count: nat)
    requires i in free && i < |t| <= SLICES_PER_SEGMENT && 0 < count <= t[i].count && End(t, i) <= |t|
    requires QueuesHold(bins, seg, t, free)
    requires forall j :: j in free && j != i ==> j < |t'| && t'[j].count == t[j].count
    requires count < t[i].count ==> i + count !in free && i + count < |t'| && t'[i + count].count == t[i].count - count
    ensures var bins1 := Removed(bins, Ref(seg, i), t[i].count);
            var bins2 := if count < t[i].count then Pushed(bins1, Ref(seg, i + count), t[i].count - count) else bins1;
            var queued := free - {i} + (if count < t[i].count then {i + count} else {});
            QueuesHold(bins2, seg, t', queued) && OthersSame(bins, bins2, seg)
  {
    RemoveHolds(bins, seg, t, t', free, i);
    if count < t[i].count {
      PushHolds(Removed(bins, Ref(seg, i), t[i].count), seg, t', t', free - {i}, i + count);
    }
  }

  lemma PageQueues(bins: Bins, seg: Addr, t: Table, t': Table, starts: set<nat>, info: nat, live: set<nat>, live': set<nat>, i: nat)
    requires Laid(t, starts, info, live, i) && i < |t| && t[i].count > 0 && End(t, i) <= |t| && Used(t, i)
    requires SameOutside(t, t', i, t[i].count) && WrittenUsed(t', i, t[i].count)
    requires live' == live + Range(i, t[i].count)
    requires QueuesHold(bins, seg, t, FreeStarts(t, starts))
    ensures Laid(t', starts, info, live', -1) && t'[i].count == t[i].count
    ensures PageStarts(t', starts) == PageStarts(t, starts) && FreeStarts(t', starts) == FreeStarts(t, starts)
    ensures QueuesHold(bins, seg, t', FreeStarts(t', starts))
  {
    PageLaid(t, t', starts, info, live, live', i);
    SameQueues(bins, seg, t, t', FreeStarts(t', starts));
  }

  /** The layout after a failed commit is the one before the span was taken. */
  lemma Undone(t: Table, t2: Table, t': Table, starts: set<nat>, i: nat, count: nat, first: nat)
    requires Tiles(t, starts) && Coalesced(t, starts) && i in FreeStarts(t, starts) && FrontTaken(t, t2, i, count)
    requires first < |t'| && Neighbours(t2, TakeStarts(t, starts, i, count), i, first, End(t', first))
    requires SameOutside(t2, t', first, t'[first].count)
    requires first in FreeStarts(t', Merged(TakeStarts(t, starts, i, count), first, t'[first].count))
    ensures Merged(TakeStarts(t, starts, i, count), first, t'[first].count) == starts
    ensures forall j :: j in starts ==> j < |t'| && j < |t| && t'[j].count == t[j].count && Used(t', j) == Used(t, j)
    ensures PageStarts(t', starts) == PageStarts(t, starts) && FreeStarts(t', starts) == FreeStarts(t, starts)
  {
    Restored(t, t2, starts, i, count, first, End(t', first));
    forall j | j in starts ensures j < |t'| && j < |t| && t'[j].count == t[j].count && Used(t', j) == Used(t, j) {
      assert Extent(t, starts, j) && Extent(t, starts, i);
    }
  }

  lemma TakenSpan(bins: Bins, bins1: Bins, bins2: Bins, seg: Addr, t: Table, t': Table, starts: set<nat>, starts': set<nat>, info: nat, live: set<nat>, i: nat, count: nat)
    requires Laid(t, starts, info, live, -1) && i in FreeStarts(t, starts) && i < |t| && 0 < count <= t[i].count && End(t, i) <= |t|
    requires QueuesHold(bins, seg, t, FreeStarts(t, starts))
    requires t' == TakeFront(t, i, count) && starts' == TakeStarts(t, starts, i, count)
    requires bins1 == Removed(bins, Ref(seg, i), t[i].count)
    requires bins2 == if count < t[i].count then Pushed(bins1, Ref(seg, i + count), t[i].count - count) else bins1
    ensures Laid(t', starts', info, live, i) && FrontTaken(t, t', i, count)
    ensures QueuesHold(bins2, seg, t', FreeStarts(t', starts')) && OthersSame(bins, bins2, seg)
    ensures PageStarts(t', starts') == PageStarts(t, starts) + {i}
  {
    TakeFrontTaken(t, i, count);
    TakeFrontLaid(t, starts, info, live, i, count);
    TakenQueues(bins, seg, t, t', FreeStarts(t, starts), i, count);
  }

  // ---------------------------------------------------------------- walking over the spans

  /** `slice + slice->slice_count` is the next span, or the end of the table. */
  lemma NextStart(t: Table, starts: set<nat>, i: nat)
    requires Tiles(t, starts) && i in starts
    ensures i < End(t, i) <= |t| && (End(t, i) < |t| ==> End(t, i) in starts)
    ensures forall j :: j in starts && i < j ==> End(t, i) <= j
  {
    assert Extent(t, starts, i);
  }

  ghost function From(a: set<nat>, i: nat): set<nat> {
    set j | j in a && j >= i
  }

  ghost function Below(a: set<nat>, i: nat): set<nat> {
    set j | j in a && j < i
  }

  lemma NeighboursTaken(t: Table, starts: set<nat>, i: nat, first: nat, end: nat)
    requires Tiles(t, starts) && i in starts && i < |t| && Used(t, i)
    requires Neighbours(Take(t, i), starts, i, first, end)
    ensures Neighbours(t, starts, i, first, end)
  {
    assert Extent(t, starts, i);
    forall p | p in starts && End(t, p) == i && first == i ensures Used(t, p) {
      assert End(Take(t, i), p) == i;
    }
  }

  lemma Unqueued(bins: Bins, seg: Addr, t: Table, free: set<nat>, i: nat, next: nat)
    requires QueuesHold(bins, seg, t, From(free, i)) && i < |t| && t[i].count <= SLICES_PER_SEGMENT
    requires i < next && forall j :: j in free && i < j ==> next <= j
    ensures i in free ==> QueuesHold(Removed(bins, Ref(seg, i), t[i].count), seg, t, From(free, next))
    ensures i in free ==> OthersSame(bins, Removed(bins, Ref(seg, i), t[i].count), seg)
    ensures i !in free ==> From(free, next) == From(free, i)
  {
    if i in free {
      RemoveHolds(bins, seg, t, t, From(free, i), i);
      assert From(free, i) - {i} == From(free, next);
    }
  }

  /** The pages of `pages` that are left when those before `i` that are all free have been cleared. */
  ghost function Kept(pages: set<nat>, i: nat, allFree: nat -> bool): set<nat> {
    set j | j in pages && (j < i ==> !allFree(j))
  }

  /** A walk that merges the span at `i` goes on behind the merged span, and misses nothing. */
  lemma WalkMerged(t: Table, t': Table, starts: set<nat>, i: nat, first: nat, end: nat)
    requires Tiles(t, starts) && i in starts && 0 < i && first <= i && Neighbours(t, starts, i, first, end) && end <= |t|
    requires SameOutside(t, t', first, end - first) && !Used(t', first)
    ensures var starts' := Merged(starts, first, end - first);
            && Below(FreeStarts(t', starts'), end) == Below(FreeStarts(t, starts), i) * starts' + {first}
            && From(PageStarts(t', starts'), end) == From(PageStarts(t, starts), i) - {i}
    ensures forall j :: j in PageStarts(t, starts) && i < j ==> end <= j
  {
    NeighboursWhole(t, starts, i, first, end);
    var starts' := Merged(starts, first, end - first);
    assert forall j :: j in starts' && first < j ==> end <= j;
    assert forall j :: j in starts' && j != first ==> t'[j] == t[j];
    assert first != i ==> first !in PageStarts(t, starts);
  }

  lemma WalkPage(t: Table, starts: set<nat>, i: nat)
    requires Tiles(t, starts) && i in PageStarts(t, starts)
    ensures Below(FreeStarts(t, starts), End(t, i)) == Below(FreeStarts(t, starts), i)
    ensures From(PageStarts(t, starts), End(t, i)) == From(PageStarts(t, starts), i) - {i}
  {
    NextStart(t, starts, i);
  }

  lemma KeptPast(pages: set<nat>, now: set<nat>, i: nat, end: nat, allFree: nat -> bool)
    requires now == Kept(pages, i, allFree) && i < end && forall j :: j in now && i < j ==> end <= j
    ensures Kept(pages, end, allFree) == if allFree(i) then now - {i} else now
  {
    assert forall j :: j in pages && i <= j ==> j in now;
  }

  /** A span that can serve a request: a free one of `needed` slices, or a page with room. */
  ghost predicate Serves(t: Table, i: nat, needed: nat, available: nat -> bool) {
    i < |t| && if Used(t, i) then available(i) else t[i].count >= needed
  }

  ghost predicate Found(t: Table, starts: set<nat>, end: nat, needed: nat, available: nat -> bool) {
    exists i :: i in starts && 0 < i < end && Serves(t, i, needed, available)
  }

  lemma FoundNext(t: Table, starts: set<nat>, i: nat, needed: nat, available: nat -> bool)
    requires Tiles(t, starts) && i in starts && i > 0
    ensures Found(t, starts, End(t, i), needed, available) <==> Found(t, starts, i, needed, available) || Serves(t, i, needed, available)
  {
    NextStart(t, starts, i);
    if Found(t, starts, End(t, i), needed, available) {
      var j :| j in starts && 0 < j < End(t, i) && Serves(t, j, needed, available);
    }
    if Serves(t, i, needed, available) { assert i in starts && 0 < i < End(t, i); }
  }

  lemma FoundMerged(t: Table, t': Table, starts: set<nat>, i: nat, first: nat, end: nat, needed: nat, available: nat -> bool)
    requires Tiles(t, starts) && i in starts && 0 < first <= i && Neighbours(t, starts, i, first, end) && end <= |t|
    requires SameOutside(t, t', first, end - first) && t'[first].count == end - first && !Used(t', first)
    ensures Found(t', Merged(starts, first, end - first), end, needed, available)
       <==> Found(t, starts, i, needed, available) || t'[first].count >= needed
  {
    var starts' := Merged(starts, first, end - first);
    NeighboursWhole(t, starts, i, first, end);
    if Found(t', starts', end, needed, available) {
      var j :| j in starts' && 0 < j < end && Serves(t', j, needed, available);
      assert j != first ==> t'[j] == t[j] && Serves(t, j, needed, available);
    }
    if Found(t, starts, i, needed, available) {
      var j :| j in starts && 0 < j < i && Serves(t, j, needed, available);
      if first <= j { assert j == first; } else { assert j in starts' && Serves(t', j, needed, available); }
    }
    if t'[first].count >= needed { assert first in starts' && Serves(t', first, needed, available); }
  }
}
