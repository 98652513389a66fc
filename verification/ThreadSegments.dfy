/**
 What a thread does with all of its segments (segment.cpp:1046-1233, 1434-1486, 1557-1632): pages
 are freed and abandoned, segments come, go, are abandoned and reclaimed, and each time the segments
 that are left and the shared span queues are in order.
 */
module ThreadSegments {
  import opened CommitMasks
  import opened SliceTiling
  import opened SpanBins
  import opened SpanQueues
  import opened SegmentLayout
  import opened Segments
  import opened SpanSearch

  /** No queue holds a span of the segment. */
  ghost predicate Gone(bins: Bins, seg: Addr) {
    QueuesHold(bins, seg, [], {})
  }

  lemma NoneQueued(bins: Bins, seg: Addr, t: Table, t': Table)
    requires QueuesHold(bins, seg, t, {})
    ensures QueuesHold(bins, seg, t', {})
  {
  }

  /** A segment leaves the thread, and with it all its spans leave the queues. */
  lemma Leave(own: Owned, bins: Bins, tld: SegmentsTld, seg: Addr)
    requires Apart(own) && QueuedIn(bins, own.Keys) && seg in own && OthersOk(own, bins, seg)
    requires OthersSame(bins, tld.bins, seg) && Gone(tld.bins, seg)
    ensures ThreadOk(own - {seg}, tld)
  {
    OthersStay(own, bins, tld.bins, seg);
    StillQueuedIn(bins, tld.bins, seg, own.Keys);
    var rest := own - {seg};
    forall a | a in rest ensures SegmentOk(rest[a], a, tld.bins) {
      assert rest[a] == own[a];
    }
    forall r: Ref, b: nat | InBin(tld.bins, r, b) ensures r.seg in rest {
      assert r.seg in own && Ref(r.seg, r.index) == r;
    }
  }

  // -------------------------------------------------------------- pages

  method FreeApart(own: Owned, tld: SegmentsTld, seg: Segment, i: nat, os: Os, force: bool) returns (stays: bool)
    requires seg.addr in own && own[seg.addr] == seg && SegmentOk(seg, seg.addr, tld.bins)
    requires OthersOk(own, tld.bins, seg.addr) && Apart(own)
    requires i in seg.Pages() && i !in seg.left
    modifies seg, seg.slices, seg.masks, tld
    ensures stays <==> old(seg.Pages()) - {i} != old(seg.left)
    ensures stays ==> SegmentOk(seg, seg.addr, tld.bins) && seg.Pages() == old(seg.Pages()) - {i}
    ensures !stays ==> Gone(tld.bins, seg.addr)
    ensures OthersSame(old(tld.bins), tld.bins, seg.addr) && OthersOk(own, old(tld.bins), seg.addr)
    ensures forall a {:trigger own[a]} :: a in own && a != seg.addr ==> own[a].Pages() == old(own[a].Pages())
  {
    ghost var bins := tld.bins;
    stays := FreeAlone(seg, tld, i, os, force);
    forall a | a in own && a != seg.addr ensures SegmentOk(own[a], a, bins) && own[a].Pages() == old(own[a].Pages()) {
      assert own[a] != seg && own[a].slices != seg.slices && own[a].masks != seg.masks;
    }
  }

  method FreeAlone(seg: Segment, tld: SegmentsTld, i: nat, os: Os, force: bool) returns (stays: bool)
    requires SegmentOk(seg, seg.addr, tld.bins) && i in seg.Pages() && i !in seg.left
    modifies seg, seg.slices, seg.masks, tld
    ensures stays <==> old(seg.Pages()) - {i} != old(seg.left)
    ensures stays ==> SegmentOk(seg, seg.addr, tld.bins) && seg.Pages() == old(seg.Pages()) - {i}
    ensures !stays ==> Gone(tld.bins, seg.addr)
    ensures OthersSame(old(tld.bins), tld.bins, seg.addr)
  {
    ghost var pages := seg.Pages();
    assert seg.left <= pages - {i};
    var released := seg.PageFree(i, tld, os, force);
    assert pages == {i} <==> pages - {i} == {};
    if released {
      return false;
    }
    if !seg.owned {
      NoneQueued(tld.bins, seg.addr, seg.slices[..], []);
    }
    return seg.owned;
  }

  /** `_mi_segment_page_free`: the segment stays with the thread unless only abandoned pages are left, or none. */
  method FreePage(own: Owned, tld: SegmentsTld, a: Addr, i: nat, os: Os, force: bool) returns (ghost own': Owned)
    requires ThreadOk(own, tld) && a in own && i in own[a].Pages() && i !in own[a].left
    modifies own[a], own[a].slices, own[a].masks, tld
    ensures ThreadOk(own', tld)
    ensures own' == if old(own[a].Pages()) - {i} != old(own[a].left) then own else own - {a}
    ensures a in own' ==> own[a].Pages() == old(own[a].Pages()) - {i}
    ensures forall b :: b in own && b != a ==> own[b].Pages() == old(own[b].Pages())
  {
    ghost var bins := tld.bins;
    assert SegmentOk(own[a], a, bins);
    var stays := FreeApart(own, tld, own[a], i, os, force);
    if stays {
      Rejoin(own, bins, tld, a);
      own' := own;
    } else {
      Leave(own, bins, tld, a);
      own' := own - {a};
    }
  }

  method AbandonPageAlone(seg: Segment, tld: SegmentsTld, i: nat, os: Os, force: bool) returns (stays: bool)
    requires SegmentOk(seg, seg.addr, tld.bins) && i in seg.Pages() && i !in seg.left
    modifies seg, seg.slices, seg.masks, tld
    ensures stays <==> old(seg.left) + {i} != old(seg.Pages())
    ensures stays ==> SegmentOk(seg, seg.addr, tld.bins)
    ensures !stays ==> Gone(tld.bins, seg.addr)
    ensures seg.Pages() == old(seg.Pages()) && seg.left == old(seg.left) + {i}
    ensures OthersSame(old(tld.bins), tld.bins, seg.addr)
  {
    seg.PageAbandon(i, tld, os, force);
    if !seg.owned {
      NoneQueued(tld.bins, seg.addr, seg.slices[..], []);
    }
    return seg.owned;
  }

  method AbandonPageApart(own: Owned, tld: SegmentsTld, seg: Segment, i: nat, os: Os, force: bool) returns (stays: bool)
    requires seg.addr in own && own[seg.addr] == seg && SegmentOk(seg, seg.addr, tld.bins)
    requires OthersOk(own, tld.bins, seg.addr) && Apart(own)
    requires i in seg.Pages() && i !in seg.left
    modifies seg, seg.slices, seg.masks, tld
    ensures stays <==> old(seg.left) + {i} != old(seg.Pages())
    ensures stays ==> SegmentOk(seg, seg.addr, tld.bins)
    ensures !stays ==> Gone(tld.bins, seg.addr)
    ensures seg.Pages() == old(seg.Pages()) && seg.left == old(seg.left) + {i}
    ensures OthersSame(old(tld.bins), tld.bins, seg.addr) && OthersOk(own, old(tld.bins), seg.addr)
    ensures forall a {:trigger own[a]} :: a in own && a != seg.addr ==> own[a].Pages() == old(own[a].Pages())
  {
    ghost var bins := tld.bins;
    stays := AbandonPageAlone(seg, tld, i, os, force);
    forall a | a in own && a != seg.addr ensures SegmentOk(own[a], a, bins) && own[a].Pages() == old(own[a].Pages()) {
      assert own[a] != seg && own[a].slices != seg.slices && own[a].masks != seg.masks;
    }
  }

  /** `_mi_segment_page_abandon`: the segment stays with the thread unless this was its last page that was not abandoned. */
  method AbandonPage(own: Owned, tld: SegmentsTld, a: Addr, i: nat, os: Os, force: bool) returns (ghost own': Owned)
    requires ThreadOk(own, tld) && a in own && i in own[a].Pages() && i !in own[a].left
    modifies own[a], own[a].slices, own[a].masks, tld
    ensures ThreadOk(own', tld)
    ensures own' == if old(own[a].left) + {i} != old(own[a].Pages()) then own else own - {a}
    ensures own[a].left == old(own[a].left) + {i}
    ensures forall b :: b in own ==> own[b].Pages() == old(own[b].Pages())
  {
    ghost var bins := tld.bins;
    assert SegmentOk(own[a], a, bins);
    var stays := AbandonPageApart(own, tld, own[a], i, os, force);
    if stays {
      Rejoin(own, bins, tld, a);
      own' := own;
    } else {
      Leave(own, bins, tld, a);
      own' := own - {a};
    }
  }

  // -------------------------------------------------------------- segments

  /** A segment that is not one of the thread's, and shares nothing with them. */
  ghost predicate Stranger(own: Owned, seg: Segment) {
    seg.addr !in own && forall a {:trigger own[a]} :: a in own ==> own[a] != seg && own[a].slices != seg.slices && own[a].masks != seg.masks
  }

  lemma JoinApart(own: Owned, seg: Segment)
    requires Apart(own) && Stranger(own, seg)
    ensures Apart(own[seg.addr := seg])
  {
  }

  /** A segment joins the thread, with its free spans in the queues. */
  lemma Join(own: Owned, bins: Bins, tld: SegmentsTld, seg: Segment)
    requires Apart(own) && Stranger(own, seg) && QueuedIn(bins, own.Keys) && OthersOk(own, bins, seg.addr)
    requires OthersSame(bins, tld.bins, seg.addr) && SegmentOk(seg, seg.addr, tld.bins)
    ensures ThreadOk(own[seg.addr := seg], tld)
  {
    var all := own[seg.addr := seg];
    JoinApart(own, seg);
    forall a | a in all && a != seg.addr ensures SegmentOk(all[a], a, bins) {
      assert all[a] == own[a];
    }
    Rejoin(all, bins, tld, seg.addr);
  }

  /** A segment that did not join: nothing has changed for the thread. */
  lemma NotJoined(own: Owned, bins: Bins, tld: SegmentsTld, seg: Addr)
    requires Apart(own) && seg !in own && QueuedIn(bins, own.Keys) && OthersOk(own, bins, seg)
    requires OthersSame(bins, tld.bins, seg) && Gone(tld.bins, seg)
    ensures ThreadOk(own, tld)
  {
    OthersStay(own, bins, tld.bins, seg);
    forall r: Ref, b: nat | InBin(tld.bins, r, b) ensures r.seg in own {
      assert Ref(r.seg, r.index) == r;
    }
    forall a | a in own ensures SegmentOk(own[a], a, tld.bins) {}
  }

  method ReclaimAlone(seg: Segment, tld: SegmentsTld, allFree: nat -> bool, os: Os) returns (released: bool)
    requires seg.Valid() && !seg.owned && Gone(tld.bins, seg.addr)
    modifies seg, seg.slices, seg.masks, tld
    ensures released <==> Kept(old(seg.Pages()), seg.slices.Length, allFree) == {}
    ensures released ==> Gone(tld.bins, seg.addr)
    ensures !released ==> SegmentOk(seg, seg.addr, tld.bins) && seg.left == {}
    ensures !released ==> seg.Pages() == Kept(old(seg.Pages()), seg.slices.Length, allFree)
    ensures OthersSame(old(tld.bins), tld.bins, seg.addr)
  {
    NoneQueued(tld.bins, seg.addr, [], seg.slices[..]);
    released := seg.Reclaim(allFree, tld, os);
  }

  method ReclaimApart(own: Owned, tld: SegmentsTld, seg: Segment, allFree: nat -> bool, os: Os) returns (released: bool)
    requires seg.Valid() && !seg.owned && Gone(tld.bins, seg.addr)
    requires Stranger(own, seg) && OthersOk(own, tld.bins, seg.addr)
    modifies seg, seg.slices, seg.masks, tld
    ensures released <==> Kept(old(seg.Pages()), seg.slices.Length, allFree) == {}
    ensures released ==> Gone(tld.bins, seg.addr)
    ensures !released ==> SegmentOk(seg, seg.addr, tld.bins) && seg.left == {}
    ensures !released ==> seg.Pages() == Kept(old(seg.Pages()), seg.slices.Length, allFree)
    ensures OthersSame(old(tld.bins), tld.bins, seg.addr) && OthersOk(own, old(tld.bins), seg.addr)
    ensures forall a {:trigger own[a]} :: a in own ==> own[a].Pages() == old(own[a].Pages())
  {
    ghost var bins := tld.bins;
    released := ReclaimAlone(seg, tld, allFree, os);
    forall a | a in own ensures SegmentOk(own[a], a, bins) && own[a].Pages() == old(own[a].Pages()) {
      assert own[a] != seg && own[a].slices != seg.slices && own[a].masks != seg.masks;
    }
  }

  /** `mi_segment_reclaim`: the segment joins the thread unless no page of it is left. */
  method Reclaim(own: Owned, tld: SegmentsTld, seg: Segment, allFree: nat -> bool, os: Os) returns (ghost own': Owned)
    requires ThreadOk(own, tld) && Stranger(own, seg) && seg.Valid() && !seg.owned
    modifies seg, seg.slices, seg.masks, tld
    ensures ThreadOk(own', tld)
    ensures own' == if Kept(old(seg.Pages()), seg.slices.Length, allFree) == {} then own else own[seg.addr := seg]
    ensures seg.addr in own' ==> seg.left == {} && seg.Pages() == Kept(old(seg.Pages()), seg.slices.Length, allFree)
    ensures forall a :: a in own ==> own[a].Pages() == old(own[a].Pages())
  {
    ghost var bins := tld.bins;
    forall a | a in own && a != seg.addr ensures SegmentOk(own[a], a, bins) {}
    NotQueued(own, tld, seg.addr);
    var released := ReclaimApart(own, tld, seg, allFree, os);
    if released {
      NotJoined(own, bins, tld, seg.addr);
      own' := own;
    } else {
      Join(own, bins, tld, seg);
      own' := own[seg.addr := seg];
    }
  }

  lemma NotQueued(own: Owned, tld: SegmentsTld, seg: Addr)
    requires ThreadOk(own, tld) && seg !in own
    ensures Gone(tld.bins, seg) && forall i, b :: !InBin(tld.bins, Ref(seg, i), b)
  {
  }

  /** `mi_segment_alloc`: a new segment at an address that the thread does not use joins it. */
  method NewSegment(own: Owned, tld: SegmentsTld, addr: Addr, entries: nat, infoSlices: nat, commitMask: Mask, allowPurge: bool, os: Os)
    returns (seg: Segment, ghost own': Owned)
    requires ThreadOk(own, tld) && addr !in own && 0 < infoSlices < entries <= SLICES_PER_SEGMENT
    requires Range(0, infoSlices) <= Bits(commitMask)
    modifies tld
    ensures ThreadOk(own', tld) && own' == own[addr := seg] && seg.Pages() == {} && seg.starts == {0, infoSlices}
    ensures forall a :: a in own ==> own[a].Pages() == old(own[a].Pages())
  {
    ghost var bins := tld.bins;
    NotQueued(own, tld, addr);
    forall a | a in own && a != addr ensures SegmentOk(own[a], a, bins) {}
    seg := new Segment(addr, entries, infoSlices, commitMask, allowPurge, tld, os);
    own' := own[addr := seg];
    Join(own, bins, tld, seg);
  }
}
