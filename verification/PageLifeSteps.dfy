/** Pages coming and going, and the phases of abandoning a heap, keep the invariant. */
module PageLifeSteps {
  import opened Sequences
  import opened PageProtocol
  import opened PageInvariant
  import opened PageOwnerSteps

  // ---------------------------------------------------------------- owner and heap of a page change

  /** No heap holds a block of `p` outside of the page. */
  ghost predicate NoneHeld(spot: map<Block, Spot>, p: PageId) {
    forall b :: b in spot && b.page == p ==>
      !spot[b].Delayed? && !spot[b].Taken? && !spot[b].InHand? && !spot[b].ClearedBy?
  }

  /** `p` passes to another owner or heap; its lists and its flag stay. */
  ghost predicate Handed(s: State, p: PageId, pg: Page) {
    && p in s.pages && pg == s.pages[p].(owner := pg.owner, xheap := pg.xheap) && PageOk(pg)
    && s.pages[p].delay != DelayedFreeing
    && (pg.xheap == s.pages[p].xheap || (NoneHeld(s.spot, p) && (pg.xheap.Some? ==> pg.xheap.value in s.heaps)))
  }

  lemma HandedSpots(s: State, p: PageId, pg: Page)
    requires Spots(s) && Handed(s, p, pg)
    ensures Spots(SetPage(s, p, pg))
  {
  }

  lemma HandedRemotes(s: State, p: PageId, pg: Page)
    requires Remotes(s) && Handed(s, p, pg)
    ensures Remotes(SetPage(s, p, pg))
  {
    var s' := SetPage(s, p, pg);
    forall u | u in s'.remotes ensures RemoteOk(s'.spot, s'.pages, u, s'.remotes[u]) {
      assert RemoteOk(s.spot, s.pages, u, s.remotes[u]);
    }
  }

  lemma HandedGuards(s: State, p: PageId, pg: Page)
    requires GuardsOk(s) && Handed(s, p, pg)
    ensures GuardsOk(SetPage(s, p, pg))
  {
    var s' := SetPage(s, p, pg);
    assert forall u, q :: GuardOf(s', u, q) == GuardOf(s, u, q);
  }

  lemma HandedKeeps(s: State, p: PageId, pg: Page)
    requires Inv(s) && Handed(s, p, pg)
    requires Heaps(SetPage(s, p, pg))
    ensures Inv(SetPage(s, p, pg))
  {
    HandedSpots(s, p, pg);
    HandedRemotes(s, p, pg);
    HandedGuards(s, p, pg);
  }

  lemma AttachHeaps(s: State, h: HeapId, p: PageId)
    requires Heaps(s) && CanAttach(s, h, p)
    ensures Heaps(DoAttach(s, h, p))
  {
    var s' := DoAttach(s, h, p);
    forall k | k in s'.heaps ensures HeapOk(s'.spot, s'.pages, k, s'.heaps[k]) {
      assert HeapOk(s.spot, s.pages, k, s.heaps[k]);
    }
  }

  lemma AcquireHeaps(s: State, h: HeapId, p: PageId)
    requires Heaps(s) && CanAcquire(s, h, p)
    ensures Heaps(DoAcquire(s, h, p))
  {
    var s' := DoAcquire(s, h, p);
    forall k | k in s'.heaps ensures HeapOk(s'.spot, s'.pages, k, s'.heaps[k]) {
      assert HeapOk(s.spot, s.pages, k, s.heaps[k]);
    }
  }

  lemma GiveBackHeaps(s: State, h: HeapId, p: PageId)
    requires Heaps(s) && CanGiveBack(s, h, p)
    ensures Heaps(DoGiveBack(s, h, p))
  {
    var s' := DoGiveBack(s, h, p);
    forall k | k in s'.heaps ensures HeapOk(s'.spot, s'.pages, k, s'.heaps[k]) {
      assert HeapOk(s.spot, s.pages, k, s.heaps[k]);
    }
  }

  lemma AbandonHeaps(s: State, h: HeapId, p: PageId)
    requires Heaps(s) && CanAbandon(s, h, p)
    ensures Heaps(DoAbandon(s, h, p))
  {
    var s' := DoAbandon(s, h, p);
    forall k | k in s'.heaps ensures HeapOk(s'.spot, s'.pages, k, s'.heaps[k]) {
      assert HeapOk(s.spot, s.pages, k, s.heaps[k]);
    }
  }

  /** A heap that is done holds no block of any of its pages. */
  lemma DoneHoldsNone(s: State, h: HeapId, p: PageId)
    requires Local(s, p, h, NONE) && Owns(s, h, p) && s.heaps[h].phase == Done
    ensures NoneHeld(s.spot, p)
  {
    forall b | b in s.spot && b.page == p
      ensures !s.spot[b].Delayed? && !s.spot[b].Taken? && !s.spot[b].InHand? && !s.spot[b].ClearedBy?
    {
    }
  }

  /** Nor does any heap hold a block of a page that is attached to none. */
  lemma DetachedHoldsNone(s: State, p: PageId)
    requires Spots(s) && p in s.pages && s.pages[p].xheap == None
    ensures NoneHeld(s.spot, p)
  {
  }

  // ---------------------------------------------------------------- fresh pages

  lemma NothingAt(s: State, p: PageId)
    requires Spots(s) && p !in s.pages
    ensures PageLists(s.spot, p, Page(0, 0, [], [], [], UseDelayed, None, None))
  {
  }

  lemma FreshSpots(s: State, h: HeapId, p: PageId)
    requires Spots(s) && Pages(s) && CanFreshPage(s, h, p)
    ensures Spots(DoFreshPage(s, h, p)) && Pages(DoFreshPage(s, h, p))
  {
  }

  lemma FreshHeaps(s: State, h: HeapId, p: PageId)
    requires Heaps(s) && CanFreshPage(s, h, p)
    ensures Heaps(DoFreshPage(s, h, p))
  {
    var s' := DoFreshPage(s, h, p);
    forall k | k in s'.heaps ensures HeapOk(s'.spot, s'.pages, k, s'.heaps[k]) {
      assert HeapOk(s.spot, s.pages, k, s.heaps[k]);
    }
  }

  lemma FreshRemotes(s: State, h: HeapId, p: PageId)
    requires Remotes(s) && GuardsOk(s) && CanFreshPage(s, h, p)
    ensures var s' := DoFreshPage(s, h, p); Remotes(s') && GuardsOk(s')
  {
    var s' := DoFreshPage(s, h, p);
    assert forall u, q :: GuardOf(s', u, q) == GuardOf(s, u, q);
    forall u | u in s'.remotes ensures RemoteOk(s'.spot, s'.pages, u, s'.remotes[u]) {
      assert RemoteOk(s.spot, s.pages, u, s.remotes[u]);
    }
  }

  // ---------------------------------------------------------------- releasing a page

  /** All blocks of a page with `used == 0` are on its owner's two lists. */
  lemma AllFree(s: State, p: PageId)
    requires Inv(s) && p in s.pages && s.pages[p].used == 0
    ensures forall b :: b in s.spot && b.page == p ==> s.spot[b] == OnFree(p) || s.spot[b] == OnLocal(p)
  {
    assert PageLists(s.spot, p, s.pages[p]) && PageOk(s.pages[p]);
    AllListed(s, p);
  }

  lemma AllListed(s: State, p: PageId)
    requires Spots(s) && Pages(s) && p in s.pages && PageLists(s.spot, p, s.pages[p])
    requires |s.pages[p].free| + |s.pages[p].localFree| == s.pages[p].capacity
    ensures forall b :: b in s.spot && b.page == p ==> s.spot[b] == OnFree(p) || s.spot[b] == OnLocal(p)
  {
    var pg := s.pages[p];
    var blocks := multiset(pg.free) + multiset(pg.localFree);
    forall b | b in blocks ensures blocks[b] == 1 && b.page == p && b.index < pg.capacity {
      assert b in s.spot && SpotOk(s, b, s.spot[b]);
    }
    Pigeonhole(blocks, p, pg.capacity);
    forall b | b in s.spot && b.page == p ensures s.spot[b] == OnFree(p) || s.spot[b] == OnLocal(p) {
      assert b in blocks;
    }
  }

  /** So no freeing thread is anywhere near it. */
  lemma AllFreeQuiet(s: State, p: PageId)
    requires Remotes(s) && GuardsOk(s) && p in s.pages
    requires forall b :: b in s.spot && b.page == p ==> s.spot[b] == OnFree(p) || s.spot[b] == OnLocal(p)
    ensures s.pages[p].delay != DelayedFreeing
    ensures forall t :: t in s.remotes && s.remotes[t] != Quiet ==> s.remotes[t].b.page != p
  {
    forall t | t in s.remotes && s.remotes[t] != Quiet ensures s.remotes[t].b.page != p {
    }
    assert forall t :: !GuardOf(s, t, p);
  }

  lemma ReleasePageLists(s: State, p: PageId, q: PageId)
    requires q in s.pages && q != p && PageLists(s.spot, q, s.pages[q])
    requires forall b :: b in s.spot && b.page == p ==> s.spot[b] == OnFree(p) || s.spot[b] == OnLocal(p)
    ensures PageLists(map b | b in s.spot && b.page != p :: s.spot[b], q, s.pages[q])
  {
  }

  lemma ReleaseHeapLists(s: State, p: PageId, k: HeapId)
    requires k in s.heaps && HeapLists(s.spot, k, s.heaps[k])
    requires forall b :: b in s.spot && b.page == p ==> s.spot[b] == OnFree(p) || s.spot[b] == OnLocal(p)
    ensures HeapLists(map b | b in s.spot && b.page != p :: s.spot[b], k, s.heaps[k])
  {
  }

  lemma ReleaseSpots(s: State, h: HeapId, p: PageId)
    requires Spots(s) && Pages(s) && CanReleasePage(s, h, p)
    ensures Spots(DoReleasePage(s, h, p)) && Pages(DoReleasePage(s, h, p))
  {
  }

  lemma ReleaseHeaps(s: State, h: HeapId, p: PageId)
    requires Heaps(s) && CanReleasePage(s, h, p)
    requires forall b :: b in s.spot && b.page == p ==> s.spot[b] == OnFree(p) || s.spot[b] == OnLocal(p)
    ensures Heaps(DoReleasePage(s, h, p))
  {
    var s' := DoReleasePage(s, h, p);
    forall k | k in s'.heaps ensures HeapOk(s'.spot, s'.pages, k, s'.heaps[k]) {
      assert HeapOk(s.spot, s.pages, k, s.heaps[k]);
    }
  }

  lemma ReleaseRemotes(s: State, h: HeapId, p: PageId)
    requires Remotes(s) && GuardsOk(s) && CanReleasePage(s, h, p)
    requires forall t :: t in s.remotes && s.remotes[t] != Quiet ==> s.remotes[t].b.page != p
    ensures var s' := DoReleasePage(s, h, p); Remotes(s') && GuardsOk(s')
  {
    var s' := DoReleasePage(s, h, p);
    assert forall u, q :: GuardOf(s', u, q) == GuardOf(s, u, q);
    forall u | u in s'.remotes ensures RemoteOk(s'.spot, s'.pages, u, s'.remotes[u]) {
      assert RemoteOk(s.spot, s.pages, u, s.remotes[u]);
    }
  }

  lemma ReleaseKeeps(s: State, h: HeapId, p: PageId)
    requires Inv(s) && CanReleasePage(s, h, p)
    ensures Inv(DoReleasePage(s, h, p))
  {
    AllFree(s, p);
    AllFreeQuiet(s, p);
    var s' := DoReleasePage(s, h, p);
    forall q | q in s'.pages ensures PageLists(s'.spot, q, s'.pages[q]) {
      ReleasePageLists(s, p, q);
    }
    forall k | k in s'.heaps ensures HeapLists(s'.spot, k, s'.heaps[k]) {
      ReleaseHeapLists(s, p, k);
    }
    ReleaseSpots(s, h, p);
    ReleaseHeaps(s, h, p);
    ReleaseRemotes(s, h, p);
  }

  // ---------------------------------------------------------------- phases

  lemma PhaseKeeps(s: State, h: HeapId, phase: Phase)
    requires Inv(s) && h in s.heaps && s.heaps[h].pc == Ready
    requires
      || (CanBeginMark(s, h) && phase == Marking(PagesOf(s, h)))
      || (CanEndMark(s, h) && phase == Draining(false))
      || (CanEndDrain(s, h) && phase == Done)
    ensures Inv(SetHeap(s, h, s.heaps[h].(phase := phase)))
  {
    Locally(s, NONE, h, NONE);
    HeapPoint(s, h, s.heaps[h].(phase := phase));
  }

  lemma AbandonKeeps(s: State, h: HeapId, p: PageId)
    requires Inv(s) && CanAbandon(s, h, p)
    ensures Inv(DoAbandon(s, h, p))
  {
    Locally(s, p, h, NONE);
    DoneHoldsNone(s, h, p);
    AbandonHeaps(s, h, p);
    HandedKeeps(s, p, s.pages[p].(xheap := None, owner := None));
  }

  lemma FreshKeeps(s: State, h: HeapId, p: PageId)
    requires Inv(s) && CanFreshPage(s, h, p)
    ensures Inv(DoFreshPage(s, h, p))
  {
    NothingAt(s, p);
    FreshSpots(s, h, p);
    FreshHeaps(s, h, p);
    FreshRemotes(s, h, p);
  }

  lemma AcquireKeeps(s: State, h: HeapId, p: PageId)
    requires Inv(s) && CanAcquire(s, h, p)
    ensures Inv(DoAcquire(s, h, p))
  {
    Locally(s, p, h, NONE);
    AcquireHeaps(s, h, p);
    HandedKeeps(s, p, s.pages[p].(owner := Some(h)));
  }

  lemma GiveBackKeeps(s: State, h: HeapId, p: PageId)
    requires Inv(s) && CanGiveBack(s, h, p)
    ensures Inv(DoGiveBack(s, h, p))
  {
    Locally(s, p, h, NONE);
    GiveBackHeaps(s, h, p);
    HandedKeeps(s, p, s.pages[p].(owner := None));
  }

  lemma AttachKeeps(s: State, h: HeapId, p: PageId)
    requires Inv(s) && CanAttach(s, h, p)
    ensures Inv(DoAttach(s, h, p))
  {
    Locally(s, p, h, NONE);
    DetachedHoldsNone(s, p);
    AttachHeaps(s, h, p);
    HandedKeeps(s, p, s.pages[p].(xheap := Some(h)));
  }

  lemma LifeKeeps(s: State, a: LifeStep)
    requires Inv(s)
    ensures Inv(ApplyLifeStep(s, a))
  {
    if ApplyLifeStep(s, a) != s {
      match a
      case FreshPage(h, p) => FreshKeeps(s, h, p);
      case ReleasePage(h, p) => ReleaseKeeps(s, h, p);
      case BeginMark(h) => PhaseKeeps(s, h, Marking(PagesOf(s, h)));
      case EndMark(h) => PhaseKeeps(s, h, Draining(false));
      case EndDrain(h) => PhaseKeeps(s, h, Done);
      case Abandon(h, p) => AbandonKeeps(s, h, p);
      case Acquire(h, p) => AcquireKeeps(s, h, p);
      case GiveBack(h, p) => GiveBackKeeps(s, h, p);
      case Attach(h, p) => AttachKeeps(s, h, p);
    }
  }
}
