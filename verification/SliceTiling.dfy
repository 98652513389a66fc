/**
 The slice table of a segment (segment.cpp:191-362, 738-909). A span is a first entry with its
 length, and a boundary tag in its last entry that points back to the first. These lemmas relate
 the entries that the allocator writes to the tiling of the table by spans.
 */
module SliceTiling {
  /** MI_ALIGNMENT_MAX / MI_SEGMENT_SLICE_SIZE - 1 */
  const MAX_SLICE_OFFSET: nat := 255

  const SLICE_SIZE: nat := 65536

  /** `offset` counts slices; in memory it counts the bytes of their records. */
  datatype Slice = Slice(count: nat, offset: nat, xblock: nat)

  type Table = seq<Slice>

  predicate Used(t: Table, i: nat) {
    i < |t| && t[i].xblock > 0
  }

  /** One past the last slice of the span at `i`. */
  function End(t: Table, i: nat): nat {
    if i < |t| then i + t[i].count else i
  }

  /** From `i` to where the next span starts, or to the end. */
  predicate Extent(t: Table, starts: set<nat>, i: nat) {
    && i < |t| && t[i].offset == 0
    && i < End(t, i) <= |t|
    && (End(t, i) < |t| ==> End(t, i) in starts)
  }

  /** The last entry points back to the first; in a used span the first few entries do too. */
  predicate Tags(t: Table, i: nat) {
    && i < End(t, i) <= |t|
    && var last := End(t, i) - 1;
       && (last > i ==> t[last] == Slice(0, last - i, if Used(t, i) then 1 else 0))
       && (Used(t, i) ==> forall k :: i < k <= last && k - i <= MAX_SLICE_OFFSET ==> t[k] == Slice(0, k - i, 1))
  }

  /** The spans that start at `starts` cover the table side by side. */
  ghost predicate Tiles(t: Table, starts: set<nat>) {
    && |t| > 0 && 0 in starts
    && (forall i {:trigger Extent(t, starts, i)} :: i in starts ==> Extent(t, starts, i))
    && (forall i :: i in starts ==> i < |t|)
    && (forall i, j :: i in starts && j in starts && i < j ==> End(t, i) <= j)
  }

  /** All boundary tags are in place, except perhaps those inside the span at `but`. */
  ghost predicate TagsBut(t: Table, starts: set<nat>, but: int) {
    forall i {:trigger Tags(t, i)} :: i in starts && i != but ==> Tags(t, i)
  }

  ghost predicate Tiled(t: Table, starts: set<nat>) {
    Tiles(t, starts) && TagsBut(t, starts, -1)
  }

  predicate UsedAfter(t: Table, i: nat) {
    i < |t| && !Used(t, i) && End(t, i) < |t| ==> Used(t, End(t, i))
  }

  /** No two free spans are neighbours. */
  ghost predicate Coalesced(t: Table, starts: set<nat>) {
    forall i {:trigger UsedAfter(t, i)} :: i in starts ==> UsedAfter(t, i)
  }

  ghost function FreeStarts(t: Table, starts: set<nat>): set<nat> {
    set i | i in starts && !Used(t, i)
  }

  /** The used spans behind the info span. */
  ghost function PageStarts(t: Table, starts: set<nat>): set<nat> {
    set i | i in starts && i > 0 && Used(t, i)
  }

  // ---------------------------------------------------------------- every slice is in one span

  lemma {:induction false} SpanAround(t: Table, starts: set<nat>, k: nat) returns (i: nat)
    requires Tiles(t, starts) && k < |t|
    ensures i in starts && i <= k < End(t, i)
    ensures forall j :: j in starts && j <= k < End(t, j) ==> j == i
  {
    if k in starts {
      i := k;
    } else {
      i := SpanAround(t, starts, k - 1);
    }
    assert Extent(t, starts, i);
    forall j | j in starts && j <= k < End(t, j) ensures j == i {
      assert Extent(t, starts, j) && Extent(t, starts, i);
    }
  }

  /** The span just before a start; its boundary tag leads back to its first entry. */
  lemma SpanBefore(t: Table, starts: set<nat>, i: nat, but: int) returns (p: nat)
    requires Tiles(t, starts) && TagsBut(t, starts, but) && i in starts && 0 < i && (but == -1 || but == i)
    ensures p in starts && p < i && End(t, p) == i
    ensures t[i - 1].offset <= i - 1 && p == i - 1 - t[i - 1].offset
  {
    assert Extent(t, starts, i);
    p := SpanAround(t, starts, i - 1);
    assert Extent(t, starts, p);
    assert End(t, p) == i;
    assert Tags(t, p);
  }

  // ---------------------------------------------------------------- writing a free span

  /** `mi_segment_span_free`: the first and the last entry. */
  function WriteFree(t: Table, i: nat, count: nat): Table
    requires count > 0 && i + count <= |t|
  {
    var t1 := t[i := t[i].(count := count, offset := 0)];
    var t2 := if count > 1 then t1[i + count - 1 := Slice(0, count - 1, 0)] else t1;
    t2[i := t2[i].(xblock := 0)]
  }

  /** `t'` differs from `t` at most inside `[i, i + count)`. */
  predicate SameOutside(t: Table, t': Table, i: nat, count: nat) {
    && |t| == |t'|
    && forall k :: 0 <= k < |t| && !(i <= k < i + count) ==> t'[k] == t[k]
  }

  ghost function Merged(starts: set<nat>, i: nat, count: nat): set<nat> {
    set j | j in starts && !(i < j < i + count)
  }

  /** A span written free over some whole spans: the others tile the table as before. */
  lemma FreeTiles(t: Table, t': Table, starts: set<nat>, i: nat, count: nat)
    requires Tiles(t, starts) && i in starts && count > 0 && i + count <= |t|
    requires i + count < |t| ==> i + count in starts
    requires SameOutside(t, t', i, count)
    requires t'[i].count == count && t'[i].offset == 0
    ensures Tiles(t', Merged(starts, i, count))
    ensures forall j :: j in Merged(starts, i, count) && j != i ==> t'[j] == t[j] && (End(t, j) <= i || i + count <= j)
  {
    var starts' := Merged(starts, i, count);
    forall j | j in starts' && j != i ensures t'[j] == t[j] && (End(t, j) <= i || i + count <= j) {
      assert Extent(t, starts, j);
    }
    forall j | j in starts' ensures Extent(t', starts', j) {
      assert Extent(t, starts, j);
      if j != i && End(t, j) < |t| {
        var n := End(t, j);
        assert n in starts;
        if j < i { assert n <= i; } else { assert n > i + count; }
      }
    }
    forall j, k | j in starts' && k in starts' && j < k ensures End(t', j) <= k {
      if j == i { assert k >= i + count; } else { assert End(t, j) <= k; }
    }
  }

  lemma FreeTags(t: Table, t': Table, starts: set<nat>, i: nat, count: nat, but: int)
    requires Tiles(t, starts) && i in starts && count > 0 && i + count <= |t|
    requires i + count < |t| ==> i + count in starts
    requires TagsBut(t, starts, but) && (but == -1 || (but in starts && i <= but < i + count))
    requires SameOutside(t, t', i, count)
    requires t'[i] == Slice(count, 0, 0) && (count > 1 ==> t'[i + count - 1] == Slice(0, count - 1, 0))
    ensures Tiled(t', Merged(starts, i, count))
  {
    FreeTiles(t, t', starts, i, count);
    forall j | j in Merged(starts, i, count) ensures Tags(t', j) {
      if j != i {
        assert Tags(t, j) && Extent(t, starts, j);
        var last := End(t, j) - 1;
        assert !(i <= last < i + count);
        assert forall k :: j <= k <= last ==> t'[k] == t[k];
      }
    }
  }

  // ---------------------------------------------------------------- writing a used span

  /** `mi_segment_span_allocate`: the first entry, the early back offsets and the last entry. */
  predicate WrittenUsed(t: Table, i: nat, count: nat)
    requires count > 0 && i + count <= |t|
  {
    && t[i] == Slice(count, 0, count * SLICE_SIZE)
    && (count > 1 ==> t[i + count - 1] == Slice(0, count - 1, 1))
    && forall k :: i < k < i + count && k - i <= MAX_SLICE_OFFSET ==> t[k] == Slice(0, k - i, 1)
  }

  /** Spans other than the one at `i` are not touched by writes inside it. */
  lemma OtherSpan(t: Table, t': Table, starts: set<nat>, more: set<nat>, i: nat, j: nat)
    requires Tiles(t, starts) && i in starts && j in starts && j != i
    requires i < |t| && SameOutside(t, t', i, t[i].count)
    ensures j < |t| && t'[j] == t[j] && (End(t, j) <= i || End(t, i) <= j)
    ensures Tags(t, j) ==> Tags(t', j)
    ensures Extent(t', starts + more, j)
  {
    assert Extent(t, starts, j) && Extent(t, starts, i);
  }

  lemma SameEnds(t: Table, t': Table, starts: set<nat>)
    requires Tiles(t, starts) && forall j :: j in starts ==> End(t', j) == End(t, j)
    ensures forall j, k :: j in starts && k in starts && j < k ==> End(t', j) <= k
  {
  }

  lemma WrittenTags(t: Table, i: nat, count: nat)
    requires count > 0 && i + count <= |t| && WrittenUsed(t, i, count)
    ensures Tags(t, i) && End(t, i) == i + count
  {
  }

  lemma UsedTiled(t: Table, t': Table, starts: set<nat>, i: nat, count: nat, but: int)
    requires Tiles(t, starts) && i in starts && t[i].count == count && count > 0
    requires TagsBut(t, starts, but) && (but == -1 || but == i)
    requires SameOutside(t, t', i, count) && End(t, i) <= |t| && WrittenUsed(t', i, count)
    ensures Tiled(t', starts)
    ensures forall j {:trigger t'[j]} :: j in starts && j != i ==> t'[j] == t[j]
  {
    assert Extent(t, starts, i);
    forall j | j in starts && j != i ensures t'[j] == t[j] && Tags(t', j) && Extent(t', starts, j) {
      OtherSpan(t, t', starts, {}, i, j);
      assert starts + {} == starts;
      assert Tags(t, j);
    }
    WrittenTags(t', i, count);
    SameEnds(t, t', starts);
    assert Extent(t', starts, i);
  }

  // ---------------------------------------------------------------- splitting

  /** The writes of `mi_segment_slice_split`: the rear of the span at `i` becomes a free span. */
  predicate WrittenSplit(t: Table, t': Table, i: nat, count: nat)
    requires i < |t| && 0 < count < t[i].count && End(t, i) <= |t| && |t'| == |t|
  {
    var total := t[i].count;
    && t'[i] == t[i].(count := count)
    && t'[i + count] == Slice(total - count, 0, 0)
    && (total - count > 1 ==> t'[i + total - 1] == Slice(0, total - count - 1, 0))
  }

  lemma FreeTag(t: Table, i: nat, count: nat)
    requires count > 0 && i + count <= |t|
    requires t[i] == Slice(count, 0, 0) && (count > 1 ==> t[i + count - 1] == Slice(0, count - 1, 0))
    ensures Tags(t, i) && End(t, i) == i + count
  {
  }

  lemma SplitOthers(t: Table, t': Table, starts: set<nat>, i: nat, count: nat)
    requires Tiles(t, starts) && TagsBut(t, starts, i) && i in starts && 0 < count < t[i].count
    requires SameOutside(t, t', i, t[i].count) && End(t, i) <= |t| && WrittenSplit(t, t', i, count)
    ensures forall j {:trigger t'[j]} :: j in starts && j != i ==> t'[j] == t[j]
    ensures forall j {:trigger Tags(t', j)} :: j in starts && j != i ==> Tags(t', j)
    ensures forall j {:trigger Extent(t', starts + {i + count}, j)} :: j in starts && j != i ==> Extent(t', starts + {i + count}, j)
  {
    forall j | j in starts && j != i ensures t'[j] == t[j] && Tags(t', j) && Extent(t', starts + {i + count}, j) {
      OtherSpan(t, t', starts, {i + count}, i, j);
      assert Tags(t, j);
    }
  }

  lemma SplitApart(t: Table, t': Table, starts: set<nat>, i: nat, count: nat)
    requires Tiles(t, starts) && i in starts && i < |t| && 0 < count < t[i].count
    requires End(t', i) == i + count && End(t', i + count) == End(t, i)
    requires forall j {:trigger End(t', j)} :: j in starts && j != i ==> End(t', j) == End(t, j)
    ensures i + count !in starts
    ensures forall j, k {:trigger j in starts + {i + count}, k in starts + {i + count}} :: j in starts + {i + count} && k in starts + {i + count} && j < k ==> End(t', j) <= k
  {
    var m := i + count;
    forall j, k | j in starts + {m} && k in starts + {m} && j < k ensures End(t', j) <= k {
      if j in starts && k in starts { assert End(t, j) <= k; }
      assert j in starts && j != i && j < i ==> End(t, j) <= i;
      assert k in starts && i < k ==> End(t, i) <= k;
    }
  }

  /** After a split the front part lacks its boundary tag; everything else is in place. */
  lemma SplitTiles(t: Table, t': Table, starts: set<nat>, i: nat, count: nat)
    requires Tiles(t, starts) && TagsBut(t, starts, i) && i in starts && 0 < count < t[i].count
    requires SameOutside(t, t', i, t[i].count) && End(t, i) <= |t| && WrittenSplit(t, t', i, count)
    ensures i + count !in starts
    ensures Tiles(t', starts + {i + count}) && TagsBut(t', starts + {i + count}, i)
    ensures forall j {:trigger t'[j]} :: j in starts && j != i ==> t'[j] == t[j]
  {
    var starts' := starts + {i + count};
    assert Extent(t, starts, i);
    SplitOthers(t, t', starts, i, count);
    FreeTag(t', i + count, t[i].count - count);
    assert Extent(t', starts', i) && Extent(t', starts', i + count);
    SplitApart(t, t', starts, i, count);
  }

  // ---------------------------------------------------------------- a segment with no pages

  /** When no page is used, what is left is one free span behind the segment info. */
  lemma OnlyOneFree(t: Table, starts: set<nat>)
    requires Tiles(t, starts) && Coalesced(t, starts) && Used(t, 0)
    requires forall i {:trigger Used(t, i)} :: i in starts && Used(t, i) ==> i == 0
    ensures t[0].count < |t| ==> starts == {0, t[0].count} && End(t, t[0].count) == |t|
    ensures t[0].count == |t| ==> starts == {0}
  {
    assert Extent(t, starts, 0);
    var n := t[0].count;
    if n < |t| {
      assert Extent(t, starts, n);
      assert UsedAfter(t, n);
    }
    forall j | j in starts ensures j == 0 || (n < |t| && j == n) {
      assert Extent(t, starts, j);
      if j != 0 { assert n <= j; }
    }
  }
}
