/**
 `mi_segments_page_find_and_allocate` (segment.cpp:925-965) over all segments that a thread owns:
 the search through the span queues misses no span that could serve, and a page that it hands out
 keeps every segment of the thread valid.
 */
module SpanSearch {
  import opened Sequences
  import opened SliceTiling
  import opened SpanBins
  import opened SpanQueues
  import opened SegmentLayout
  import opened Segments

  /** The segments of the thread, by address. */
  type Owned = map<Addr, Segment>

  ghost function Parts(own: Owned): set<object> {
    (set a | a in own :: own[a] as object) + (set a | a in own :: own[a].slices as object) + (set a | a in own :: own[a].masks as object)
  }

  ghost predicate Apart(own: Owned) {
    forall a, b :: a in own && b in own && a != b ==> own[a].slices != own[b].slices && own[a].masks != own[b].masks
  }

  ghost predicate SegmentOk(s: Segment, a: Addr, bins: Bins)
    reads s, s.slices, s.masks
  {
    s.addr == a && s.Valid() && s.owned && QueuesHold(bins, a, s.slices[..], s.Free())
  }

  /** All segments of the thread but one are in order. */
  ghost predicate OthersOk(own: Owned, bins: Bins, but: Addr)
    reads Parts(own)
  {
    forall a {:trigger own[a]} :: a in own && a != but ==> SegmentOk(own[a], a, bins)
  }

  ghost predicate QueuedIn(bins: Bins, segs: set<Addr>) {
    forall r: Ref, b: nat {:trigger InBin(bins, r, b)} :: InBin(bins, r, b) ==> r.seg in segs
  }

  lemma StillQueuedIn(bins: Bins, bins': Bins, seg: Addr, segs: set<Addr>)
    requires QueuedIn(bins, segs) && OthersSame(bins, bins', seg) && seg in segs
    ensures QueuedIn(bins', segs)
  {
  }

  /** Every span that is queued belongs to one of the segments, and each of them is in order. */
  ghost predicate ThreadOk(own: Owned, tld: SegmentsTld)
    reads Parts(own), tld
  {
    && BinsOk(tld.bins) && Apart(own)
    && (forall a :: a in own ==> SegmentOk(own[a], a, tld.bins))
    && QueuedIn(tld.bins, own.Keys)
  }

  /** A request for no slices is served by a span of one. */
  function Need(count: nat): nat {
    if count == 0 then 1 else count
  }

  /** A queued span that can serve a request for `count` slices. */
  ghost predicate Fits(own: Owned, tld: SegmentsTld, suitable: Addr -> bool, count: nat, r: Ref, b: nat)
    reads Parts(own), tld
  {
    && InBin(tld.bins, r, b) && r.seg in own && suitable(r.seg)
    && r.index < own[r.seg].slices.Length && own[r.seg].slices[r.index].count >= count
  }

  lemma QueuedSpan(own: Owned, tld: SegmentsTld, r: Ref, b: nat)
    requires ThreadOk(own, tld) && InBin(tld.bins, r, b)
    ensures r.seg in own && r.index in own[r.seg].Free() && r.index < own[r.seg].slices.Length
    ensures b == Bin8(own[r.seg].slices[r.index].count)
  {
    assert SegmentOk(own[r.seg], r.seg, tld.bins);
    assert r == Ref(r.seg, r.index);
  }

  /** The queues before the one that the search starts at hold only spans that are too short. */
  lemma TooShort(own: Owned, tld: SegmentsTld, suitable: Addr -> bool, count: nat, r: Ref, b: nat)
    requires ThreadOk(own, tld) && b < Bin8(count)
    ensures !Fits(own, tld, suitable, Need(count), r, b)
  {
    if InBin(tld.bins, r, b) {
      QueuedSpan(own, tld, r, b);
      var c := own[r.seg].slices[r.index].count;
      if count <= c { BinMonotone(count, c); }
    }
  }

  /** No queue before `bin` holds a span that can serve. */
  ghost predicate NoneBelow(own: Owned, tld: SegmentsTld, suitable: Addr -> bool, need: nat, bin: nat)
    reads Parts(own), tld
  {
    forall r: Ref, b: nat {:trigger Fits(own, tld, suitable, need, r, b)} :: b < bin ==> !Fits(own, tld, suitable, need, r, b)
  }

  /** The slice tables of the segments. */
  ghost function Tables(own: Owned): map<Addr, Table>
    reads Parts(own)
  {
    map a | a in own :: own[a].slices[..]
  }

  /** In these tables the span can serve. */
  predicate Serves(tables: map<Addr, Table>, suitable: Addr -> bool, need: nat, r: Ref) {
    r.seg in tables && suitable(r.seg) && r.index < |tables[r.seg]| && tables[r.seg][r.index].count >= need
  }

  /** No span of the queue up to place `k` can serve. */
  predicate NoneServesBefore(queue: seq<Ref>, tables: map<Addr, Table>, suitable: Addr -> bool, need: nat, k: nat)
    requires k <= |queue|
  {
    forall j :: 0 <= j < k ==> !Serves(tables, suitable, need, queue[j])
  }

  /** The span is the first of its queue that can serve. */
  ghost predicate FirstFit(queue: seq<Ref>, tables: map<Addr, Table>, suitable: Addr -> bool, need: nat, r: Ref) {
    exists k :: 0 <= k < |queue| && queue[k] == r && NoneServesBefore(queue, tables, suitable, need, k)
  }

  ghost predicate EmptyBelow(bins: Bins, tables: map<Addr, Table>, suitable: Addr -> bool, need: nat, from: nat, bin: nat) {
    forall b: nat {:trigger bins[b]} :: from <= b < bin && b < |bins| ==> NoneServesBefore(bins[b], tables, suitable, need, |bins[b]|)
  }

  /** First fit within a queue, and the first queue from the size class of the request on. */
  ghost predicate BestFit(bins: Bins, tables: map<Addr, Table>, suitable: Addr -> bool, count: nat, r: Ref) {
    exists bin: nat ::
      && Bin8(count) <= bin < |bins| && FirstFit(bins[bin], tables, suitable, Need(count), r)
      && EmptyBelow(bins, tables, suitable, Need(count), Bin8(count), bin)
  }

  /** The first span in one queue that can serve (segment.cpp:934-960). */
  method FindIn(own: Owned, tld: SegmentsTld, suitable: Addr -> bool, need: nat, bin: nat, ghost tables: map<Addr, Table>) returns (found: Option<Ref>)
    requires ThreadOk(own, tld) && bin <= BIN_MAX && tables == Tables(own)
    ensures ThreadOk(own, tld) && tables == Tables(own) && tld.bins == old(tld.bins)
    ensures found.Some? ==> FirstFit(tld.bins[bin], tables, suitable, need, found.value) && Fits(own, tld, suitable, need, found.value, bin)
    ensures found.None? ==> NoneServesBefore(tld.bins[bin], tables, suitable, need, |tld.bins[bin]|)
  {
    var k := 0;
    while k < |tld.bins[bin]|
      invariant k <= |tld.bins[bin]| && NoneServesBefore(tld.bins[bin], tables, suitable, need, k)
      invariant ThreadOk(own, tld) && tables == Tables(own)
    {
      var r := tld.bins[bin][k];
      assert InBin(tld.bins, r, bin);
      QueuedSpan(own, tld, r, bin);
      assert tables[r.seg] == own[r.seg].slices[..];
      if own[r.seg].slices[r.index].count >= need {
        if suitable(r.seg) {
          return Some(r);
        }
      }
      k := k + 1;
    }
    return None;
  }

  lemma NoneFits(own: Owned, tld: SegmentsTld, suitable: Addr -> bool, need: nat, bin: nat, tables: map<Addr, Table>, r: Ref)
    requires bin < |tld.bins| && tables == Tables(own) && NoneServesBefore(tld.bins[bin], tables, suitable, need, |tld.bins[bin]|)
    ensures !Fits(own, tld, suitable, need, r, bin)
  {
    if r in tld.bins[bin] {
      var j :| 0 <= j < |tld.bins[bin]| && tld.bins[bin][j] == r;
    }
  }

  /** The queues before the size class of the request hold nothing that can serve, nor do those that were searched. */
  lemma Searched(own: Owned, tld: SegmentsTld, suitable: Addr -> bool, count: nat, bin: nat, tables: map<Addr, Table>)
    requires ThreadOk(own, tld) && tables == Tables(own) && EmptyBelow(tld.bins, tables, suitable, Need(count), Bin8(count), bin)
    ensures NoneBelow(own, tld, suitable, Need(count), bin)
  {
    forall r: Ref, b: nat | b < bin ensures !Fits(own, tld, suitable, Need(count), r, b) {
      if b < Bin8(count) {
        TooShort(own, tld, suitable, count, r, b);
      } else if b < |tld.bins| {
        NoneFits(own, tld, suitable, Need(count), b, tables, r);
      }
    }
  }

  lemma EmptyNext(bins: Bins, tables: map<Addr, Table>, suitable: Addr -> bool, need: nat, from: nat, bin: nat)
    requires EmptyBelow(bins, tables, suitable, need, from, bin) && bin < |bins| && NoneServesBefore(bins[bin], tables, suitable, need, |bins[bin]|)
    ensures EmptyBelow(bins, tables, suitable, need, from, bin + 1)
  {
  }

  lemma IsBestFit(bins: Bins, tables: map<Addr, Table>, suitable: Addr -> bool, count: nat, r: Ref, bin: nat)
    requires Bin8(count) <= bin < |bins| && FirstFit(bins[bin], tables, suitable, Need(count), r)
    requires EmptyBelow(bins, tables, suitable, Need(count), Bin8(count), bin)
    ensures BestFit(bins, tables, suitable, count, r)
  {
  }

  /** The search: best fit among the queues, first fit within a queue. */
  method Find(own: Owned, tld: SegmentsTld, suitable: Addr -> bool, count: nat, ghost tables: map<Addr, Table>) returns (found: Option<Ref>, bin: nat)
    requires ThreadOk(own, tld) && count <= SLICES_PER_SEGMENT && tables == Tables(own)
    ensures found.Some? ==> BestFit(old(tld.bins), tables, suitable, count, found.value)
    ensures NoneBelow(own, tld, suitable, Need(count), bin)
    ensures found.Some? ==> Fits(own, tld, suitable, Need(count), found.value, bin)
    ensures found.None? ==> bin == BIN_MAX + 1
    ensures ThreadOk(own, tld)
  {
    bin := Bin8(count);
    BinInRange(count);
    found := None;
    ghost var bins := tld.bins;
    while bin <= BIN_MAX && found.None?
      invariant ThreadOk(own, tld) && Bin8(count) <= bin <= BIN_MAX + 1 && |bins| == BIN_MAX + 1
      invariant tables == Tables(own) && tld.bins == bins
      invariant EmptyBelow(bins, tables, suitable, Need(count), Bin8(count), bin)
      invariant found.Some? ==> bin <= BIN_MAX && FirstFit(bins[bin], tables, suitable, Need(count), found.value)
      invariant found.Some? ==> Fits(own, tld, suitable, Need(count), found.value, bin)
      decreases BIN_MAX + 1 - bin, found.None?
    {
      found := FindIn(own, tld, suitable, Need(count), bin, tables);
      if found.None? {
        EmptyNext(bins, tables, suitable, Need(count), Bin8(count), bin);
        bin := bin + 1;
      }
    }
    Searched(own, tld, suitable, count, bin, tables);
    if found.Some? { IsBestFit(bins, tables, suitable, count, found.value, bin); }
  }

  /** A queued span in terms of the segments alone. */
  lemma FreeSpanFits(own: Owned, tld: SegmentsTld, suitable: Addr -> bool, count: nat, a: Addr, i: nat)
    requires ThreadOk(own, tld) && a in own && suitable(a) && i in own[a].Free()
    requires i < own[a].slices.Length && own[a].slices[i].count >= count
    ensures Fits(own, tld, suitable, count, Ref(a, i), Bin8(own[a].slices[i].count))
  {
    assert SegmentOk(own[a], a, tld.bins);
  }

  lemma NotFound(own: Owned, tld: SegmentsTld, suitable: Addr -> bool, need: nat, a: Addr, i: nat)
    requires ThreadOk(own, tld) && NoneBelow(own, tld, suitable, need, BIN_MAX + 1)
    requires a in own && suitable(a) && i in own[a].Free()
    ensures i < own[a].slices.Length && own[a].slices[i].count < need
  {
    assert SegmentOk(own[a], a, tld.bins);
    var s := own[a];
    assert Extent(s.slices[..], s.starts, i);
    if s.slices[i].count >= need {
      BinInRange(s.slices[i].count);
      FreeSpanFits(own, tld, suitable, need, a, i);
    }
  }

  /** Every free span of a suitable segment is too short. */
  ghost predicate NoneServes(own: Owned, suitable: Addr -> bool, need: nat)
    reads Parts(own)
  {
    forall a, i :: a in own && suitable(a) && i in own[a].Free() ==> i < own[a].slices.Length && own[a].slices[i].count < need
  }

  lemma NothingFound(own: Owned, tld: SegmentsTld, suitable: Addr -> bool, need: nat)
    requires ThreadOk(own, tld) && NoneBelow(own, tld, suitable, need, BIN_MAX + 1)
    ensures NoneServes(own, suitable, need)
  {
    forall a, i | a in own && suitable(a) && i in own[a].Free() ensures i < own[a].slices.Length && own[a].slices[i].count < need {
      NotFound(own, tld, suitable, need, a, i);
    }
  }

  lemma StillQueued(bins: Bins, bins': Bins, seg: Addr, a: Addr, t: Table, queued: set<nat>)
    requires QueuesHold(bins, a, t, queued) && OthersSame(bins, bins', seg) && a != seg && BinsOk(bins')
    ensures QueuesHold(bins', a, t, queued)
  {
  }

  /** Segments that were not touched stay in order when another segment's queue entries change. */
  lemma OthersStay(own: Owned, bins: Bins, bins': Bins, seg: Addr)
    requires OthersOk(own, bins, seg) && OthersSame(bins, bins', seg) && BinsOk(bins')
    ensures OthersOk(own, bins', seg)
  {
    forall a | a in own && a != seg ensures SegmentOk(own[a], a, bins') {
      StillQueued(bins, bins', seg, a, own[a].slices[..], own[a].Free());
    }
  }

  /** A segment is in order again, with other queues than before: so is the thread. */
  lemma Rejoin(own: Owned, bins: Bins, tld: SegmentsTld, seg: Addr)
    requires seg in own && Apart(own) && QueuedIn(bins, own.Keys) && OthersOk(own, bins, seg)
    requires OthersSame(bins, tld.bins, seg) && SegmentOk(own[seg], seg, tld.bins)
    ensures ThreadOk(own, tld)
  {
    OthersStay(own, bins, tld.bins, seg);
    StillQueuedIn(bins, tld.bins, seg, own.Keys);
    forall a | a in own ensures SegmentOk(own[a], a, tld.bins) {}
  }

  /** A page in the span that was found, as far as its segment goes. */
  method AllocateAlone(seg: Segment, tld: SegmentsTld, i: nat, count: nat, os: Os) returns (ok: bool)
    requires SegmentOk(seg, seg.addr, tld.bins) && i in seg.Free() && i < seg.slices.Length && 0 < count <= seg.slices[i].count
    modifies seg, seg.slices, seg.masks, tld
    ensures SegmentOk(seg, seg.addr, tld.bins) && OthersSame(old(tld.bins), tld.bins, seg.addr)
    ensures os.commitOk ==> ok
    ensures ok ==> seg.Pages() == old(seg.Pages()) + {i} && seg.slices[i].count == count
    ensures !ok ==> seg.Pages() == old(seg.Pages())
  {
    ok := seg.AllocateAt(i, count, tld, os);
  }

  /** The other segments are untouched. */
  method AllocateApart(own: Owned, tld: SegmentsTld, seg: Segment, i: nat, count: nat, os: Os) returns (ok: bool)
    requires seg.addr in own && own[seg.addr] == seg && SegmentOk(seg, seg.addr, tld.bins)
    requires OthersOk(own, tld.bins, seg.addr) && Apart(own)
    requires i in seg.Free() && i < seg.slices.Length && 0 < count <= seg.slices[i].count
    modifies seg, seg.slices, seg.masks, tld
    ensures SegmentOk(seg, seg.addr, tld.bins) && OthersSame(old(tld.bins), tld.bins, seg.addr)
    ensures OthersOk(own, old(tld.bins), seg.addr)
    ensures os.commitOk ==> ok
    ensures ok ==> seg.Pages() == old(seg.Pages()) + {i} && seg.slices[i].count == count
    ensures !ok ==> seg.Pages() == old(seg.Pages())
    ensures forall a {:trigger own[a]} :: a in own && a != seg.addr ==> own[a].Pages() == old(own[a].Pages())
  {
    ghost var bins := tld.bins;
    ok := AllocateAlone(seg, tld, i, count, os);
    forall a | a in own && a != seg.addr ensures SegmentOk(own[a], a, bins) && own[a].Pages() == old(own[a].Pages()) {
      assert own[a] != seg && own[a].slices != seg.slices && own[a].masks != seg.masks;
    }
  }

  /** A page in the span that was found; the other segments are as they were. */
  method AllocateIn(own: Owned, tld: SegmentsTld, r: Ref, count: nat, os: Os) returns (ok: bool)
    requires ThreadOk(own, tld) && r.seg in own && r.index in own[r.seg].Free()
    requires r.index < own[r.seg].slices.Length && 0 < count <= own[r.seg].slices[r.index].count
    modifies own[r.seg], own[r.seg].slices, own[r.seg].masks, tld
    ensures ThreadOk(own, tld)
    ensures os.commitOk ==> ok
    ensures ok ==> own[r.seg].Pages() == old(own[r.seg].Pages()) + {r.index} && own[r.seg].slices[r.index].count == count
    ensures !ok ==> own[r.seg].Pages() == old(own[r.seg].Pages())
    ensures forall a :: a in own && a != r.seg ==> own[a].Pages() == old(own[a].Pages())
  {
    ghost var bins := tld.bins;
    assert SegmentOk(own[r.seg], r.seg, bins);
    ok := AllocateApart(own, tld, own[r.seg], r.index, count, os);
    Rejoin(own, bins, tld, r.seg);
  }

  lemma Chosen(own: Owned, tld: SegmentsTld, suitable: Addr -> bool, need: nat, r: Ref, bin: nat)
    requires ThreadOk(own, tld) && Fits(own, tld, suitable, need, r, bin)
    ensures r.seg in own && suitable(r.seg) && r.index in own[r.seg].Free()
    ensures r.index < own[r.seg].slices.Length && need <= own[r.seg].slices[r.index].count
  {
    QueuedSpan(own, tld, r, bin);
  }

  /** A page of `count` slices was made where a free span of a suitable segment was. */
  twostate predicate Served(own: Owned, suitable: Addr -> bool, r: Ref, count: nat)
    reads Parts(own)
  {
    && r.seg in own && suitable(r.seg) && r.index in old(own[r.seg].Free())
    && own[r.seg].Pages() == old(own[r.seg].Pages()) + {r.index}
    && r.index < own[r.seg].slices.Length && own[r.seg].slices[r.index].count == count
  }

  /** The span that was found becomes a page, unless the commit fails. */
  method Serve(own: Owned, tld: SegmentsTld, suitable: Addr -> bool, r: Ref, bin: nat, count: nat, os: Os) returns (page: Option<Ref>)
    requires ThreadOk(own, tld) && Fits(own, tld, suitable, count, r, bin) && count > 0
    modifies Parts(own), tld
    ensures ThreadOk(own, tld) && (page == Some(r) || (page.None? && !os.commitOk))
    ensures page.Some? ==> Served(own, suitable, r, count)
    ensures forall a :: a in own && (page.None? || a != r.seg) ==> own[a].Pages() == old(own[a].Pages())
  {
    Chosen(own, tld, suitable, count, r, bin);
    var ok := AllocateIn(own, tld, r, count, os);
    page := if ok then Some(r) else None;
  }

  /** `mi_segments_page_find_and_allocate` */
  method FindAndAllocate(own: Owned, tld: SegmentsTld, suitable: Addr -> bool, count: nat, os: Os) returns (page: Option<Ref>)
    requires ThreadOk(own, tld) && count <= SLICES_PER_SEGMENT
    modifies Parts(own), tld
    ensures ThreadOk(own, tld)
    ensures page.None? && os.commitOk ==> NoneServes(own, suitable, Need(count))
    ensures page.Some? ==> Served(own, suitable, page.value, Need(count))
    ensures page.Some? ==> BestFit(old(tld.bins), old(Tables(own)), suitable, count, page.value)
    ensures forall a :: a in own && (page.None? || a != page.value.seg) ==> own[a].Pages() == old(own[a].Pages())
  {
    ghost var tables := Tables(own);
    var found, bin := Find(own, tld, suitable, count, tables);
    if found.None? {
      NothingFound(own, tld, suitable, Need(count));
      return None;
    }
    page := Serve(own, tld, suitable, found.value, bin, Need(count), os);
  }
}
