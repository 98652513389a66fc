/** Every step of a page's owner keeps the invariant. */
module PageOwnerSteps {
  import opened Sequences
  import opened PageProtocol
  import opened PageInvariant

  // ---------------------------------------------------------------- inside a page

  lemma MallocShape(s: State, h: HeapId, p: PageId, b: Block)
    requires Spots(s) && CanMalloc(s, h, p) && b == s.pages[p].free[0] && b in s.spot && s.spot[b] == OnFree(p)
    ensures Shape(s, DoMalloc(s, h, p), p, NONE, NONE)
  {
    var s' := DoMalloc(s, h, p);
    forall b' | b' in s.spot && s'.spot[b'] == s.spot[b'] ensures SpotOk(s', b', s.spot[b']) {
      assert SpotOk(s, b', s.spot[b']);
    }
  }

  lemma MallocRest(s: State, h: HeapId, p: PageId)
    requires ListsIn(s, p, NONE) && FactsIn(s, p, NONE, NONE) && CanMalloc(s, h, p)
    ensures ListsIn(DoMalloc(s, h, p), p, NONE) && FactsIn(DoMalloc(s, h, p), p, NONE, NONE)
  {
    ChainPop(s.spot, s.pages[p].free, OnFree(p), Live);
  }

  lemma LocalFreeShape(s: State, b: Block)
    requires Spots(s) && b in s.spot && s.spot[b] == Live && b.page in s.pages
    ensures Shape(s, PushLocal(s, b), b.page, NONE, NONE)
  {
    var s' := PushLocal(s, b);
    forall b' | b' in s.spot && s'.spot[b'] == s.spot[b'] ensures SpotOk(s', b', s.spot[b']) {
      assert SpotOk(s, b', s.spot[b']);
    }
  }

  lemma LocalFreeSound(s: State, b: Block)
    requires Local(s, b.page, NONE, NONE) && b in s.spot && s.spot[b] == Live && b.page in s.pages
    ensures Sound(s, PushLocal(s, b), b.page, NONE, NONE)
  {
    LocalFreeShape(s, b);
    ChainPush(s.spot, s.pages[b.page].localFree, b, OnLocal(b.page));
  }

  lemma MigrateShape(s: State, h: HeapId, p: PageId, force: bool)
    requires Spots(s) && CanMigrateLocal(s, h, p, force)
    ensures Shape(s, DoMigrateLocal(s, h, p, force), p, NONE, NONE)
  {
    var s' := DoMigrateLocal(s, h, p, force);
    forall b' | b' in s.spot && s'.spot[b'] == s.spot[b'] ensures SpotOk(s', b', s.spot[b']) {
      assert SpotOk(s, b', s.spot[b']);
    }
  }

  lemma MigrateRest(s: State, h: HeapId, p: PageId, force: bool)
    requires ListsIn(s, p, NONE) && FactsIn(s, p, NONE, NONE) && CanMigrateLocal(s, h, p, force)
    ensures ListsIn(DoMigrateLocal(s, h, p, force), p, NONE) && FactsIn(DoMigrateLocal(s, h, p, force), p, NONE, NONE)
  {
    ChainJoin(s.spot, s.pages[p].localFree, s.pages[p].free, OnLocal(p), OnFree(p));
  }

  /** Only the program point and phase of a heap change, and it is not about to splice. */
  lemma HeapPointSound(s: State, h: HeapId, hp: Heap)
    requires Local(s, NONE, h, NONE) && h in s.heaps && hp == s.heaps[h].(pc := hp.pc, phase := hp.phase)
    requires PcOk(s.pages, h, hp) && PhaseOk(s.pages, h, hp) && hp.collected == []
    ensures Sound(s, SetHeap(s, h, hp), NONE, h, NONE)
  {
    assert forall b :: multiset(hp.collected)[b] == 0;
  }

  lemma HeapPoint(s: State, h: HeapId, hp: Heap)
    requires Inv(s) && h in s.heaps && hp == s.heaps[h].(pc := hp.pc, phase := hp.phase)
    requires PcOk(s.pages, h, hp) && PhaseOk(s.pages, h, hp) && hp.collected == []
    ensures Inv(SetHeap(s, h, hp))
  {
    Locally(s, NONE, h, NONE);
    HeapPointSound(s, h, hp);
    NearStep(s, SetHeap(s, h, hp), NONE, h, NONE);
  }

  predicate AtCollect(s: State, h: HeapId, p: PageId) {
    h in s.heaps && s.heaps[h].pc.CollectLoaded? && s.heaps[h].pc.p == p && p in s.pages
  }

  lemma TakeThreadFreeMoves(s: State, h: HeapId, p: PageId)
    requires Spots(s) && AtCollect(s, h, p)
    ensures MovesOk(s, TakeThreadFree(s, h, p), p, h, NONE)
  {
    var s' := TakeThreadFree(s, h, p);
    forall b | b in s.spot && s.spot[b] != OnThread(p) ensures s'.spot[b] == s.spot[b] && SpotOk(s', b, s.spot[b]) {
      assert SpotOk(s, b, s.spot[b]);
    }
  }

  lemma TakeThreadFreeShape(s: State, h: HeapId, p: PageId)
    requires Spots(s) && AtCollect(s, h, p)
    ensures Shape(s, TakeThreadFree(s, h, p), p, h, NONE)
  {
    TakeThreadFreeMoves(s, h, p);
  }

  lemma TakeThreadFreeLists(s: State, h: HeapId, p: PageId)
    requires ListsIn(s, p, h) && AtCollect(s, h, p) && s.heaps[h].collected == []
    ensures ListsIn(TakeThreadFree(s, h, p), p, h)
  {
    ChainJoin(s.spot, s.pages[p].threadFree, s.heaps[h].collected, OnThread(p), Collected(h));
    assert s.pages[p].threadFree + [] == s.pages[p].threadFree;
  }

  lemma TakeThreadFreeFacts(s: State, h: HeapId, p: PageId)
    requires FactsIn(s, p, h, NONE) && AtCollect(s, h, p)
    ensures FactsIn(TakeThreadFree(s, h, p), p, h, NONE)
  {
    assert PageOk(TakeThreadFree(s, h, p).pages[p]);
  }

  predicate AtSplice(s: State, h: HeapId, p: PageId) {
    h in s.heaps && s.heaps[h].pc == Splicing(p) && p in s.pages
  }

  lemma SpliceMoves(s: State, h: HeapId, p: PageId)
    requires Spots(s) && AtSplice(s, h, p)
    ensures MovesOk(s, SpliceLocal(s, h, p), p, h, NONE)
  {
    var s' := SpliceLocal(s, h, p);
    forall b | b in s.spot && s.spot[b] != Collected(h) ensures s'.spot[b] == s.spot[b] && SpotOk(s', b, s.spot[b]) {
      assert SpotOk(s, b, s.spot[b]);
    }
  }

  lemma SpliceShape(s: State, h: HeapId, p: PageId)
    requires Spots(s) && AtSplice(s, h, p)
    ensures Shape(s, SpliceLocal(s, h, p), p, h, NONE)
  {
    SpliceMoves(s, h, p);
  }

  lemma SpliceLists(s: State, h: HeapId, p: PageId)
    requires ListsIn(s, p, h) && AtSplice(s, h, p)
    ensures ListsIn(SpliceLocal(s, h, p), p, h)
  {
    ChainJoin(s.spot, s.heaps[h].collected, s.pages[p].localFree, Collected(h), OnLocal(p));
  }

  lemma SpliceFacts(s: State, h: HeapId, p: PageId)
    requires FactsIn(s, p, h, NONE) && AtSplice(s, h, p)
    ensures FactsIn(SpliceLocal(s, h, p), p, h, NONE)
  {
    assert PageOk(SpliceLocal(s, h, p).pages[p]);
  }

  // ---------------------------------------------------------------- delayed frees

  lemma TakeDelayedMoves(s: State, h: HeapId)
    requires Spots(s) && h in s.heaps && s.heaps[h].pc.TakeLoaded?
    ensures MovesOk(s, TakeDelayed(s, h), NONE, h, NONE)
  {
    var s' := TakeDelayed(s, h);
    forall b | b in s.spot && s.spot[b] != Delayed(h) ensures s'.spot[b] == s.spot[b] && SpotOk(s', b, s.spot[b]) {
      assert SpotOk(s, b, s.spot[b]);
    }
  }

  lemma TakeDelayedShape(s: State, h: HeapId)
    requires Spots(s) && h in s.heaps && s.heaps[h].pc.TakeLoaded?
    ensures Shape(s, TakeDelayed(s, h), NONE, h, NONE)
  {
    TakeDelayedMoves(s, h);
  }

  lemma TakeDelayedRest(s: State, h: HeapId)
    requires ListsIn(s, NONE, h) && FactsIn(s, NONE, h, NONE) && h in s.heaps && s.heaps[h].pc.TakeLoaded?
    ensures ListsIn(TakeDelayed(s, h), NONE, h) && FactsIn(TakeDelayed(s, h), NONE, h, NONE)
  {
    ChainJoin(s.spot, s.heaps[h].delayed, s.heaps[h].taken, Delayed(h), Taken(h));
    assert s.heaps[h].delayed + [] == s.heaps[h].delayed;
  }

  lemma NextTakenShape(s: State, h: HeapId)
    requires Spots(s) && CanNextTaken(s, h) && s.heaps[h].taken[0] in s.spot && s.spot[s.heaps[h].taken[0]] == Taken(h)
    ensures Shape(s, DoNextTaken(s, h), NONE, h, NONE)
  {
    var s' := DoNextTaken(s, h);
    forall b' | b' in s.spot && s'.spot[b'] == s.spot[b'] ensures SpotOk(s', b', s.spot[b']) {
      assert SpotOk(s, b', s.spot[b']);
    }
  }

  lemma NextTakenRest(s: State, h: HeapId)
    requires ListsIn(s, NONE, h) && FactsIn(s, NONE, h, NONE) && CanNextTaken(s, h)
    ensures ListsIn(DoNextTaken(s, h), NONE, h) && FactsIn(DoNextTaken(s, h), NONE, h, NONE)
  {
    ChainPop(s.spot, s.heaps[h].taken, Taken(h), InHand(h));
  }

  lemma NextTakenKeeps(s: State, h: HeapId)
    requires Inv(s) && CanNextTaken(s, h)
    ensures Inv(DoNextTaken(s, h))
  {
    Locally(s, NONE, h, NONE);
    ChainPop(s.spot, s.heaps[h].taken, Taken(h), InHand(h));
    NextTakenShape(s, h);
    NextTakenRest(s, h);
    NearStep(s, DoNextTaken(s, h), NONE, h, NONE);
  }

  predicate AtSwitch(s: State, h: HeapId, p: PageId, purpose: Purpose) {
    && h in s.heaps && p in s.pages
    && (s.heaps[h].pc.Switching? || s.heaps[h].pc.SwitchLoaded?)
    && s.heaps[h].pc.p == p && s.heaps[h].pc.purpose == purpose
    && s.pages[p].delay != DelayedFreeing
    && (purpose == ForMark ==> s.pages[p].delay == NeverDelayed)
  }

  lemma ClearHandShape(s: State, h: HeapId, p: PageId)
    requires Spots(s) && FactsIn(s, p, h, NONE) && AtSwitch(s, h, p, ForDelayed)
    ensures Shape(s, Switched(s, h, p, ForDelayed), NONE, h, NONE)
  {
    var s' := Switched(s, h, p, ForDelayed);
    forall b' | b' in s.spot && s'.spot[b'] == s.spot[b'] ensures SpotOk(s', b', s.spot[b']) {
      assert SpotOk(s, b', s.spot[b']);
    }
  }

  lemma ClearHandLists(s: State, h: HeapId, p: PageId)
    requires h in s.heaps && HeapLists(s.spot, h, s.heaps[h]) && HandOk(s.spot, h, s.heaps[h].hand)
    ensures ListsIn(Switched(s, h, p, ForDelayed), NONE, h)
  {
    var hp := s.heaps[h];
    if hp.hand.Held? {
      ChainOther(s.spot, hp.delayed, Delayed(h), hp.hand.b, ClearedBy(h));
      ChainOther(s.spot, hp.taken, Taken(h), hp.hand.b, ClearedBy(h));
      ChainOther(s.spot, hp.collected, Collected(h), hp.hand.b, ClearedBy(h));
    }
  }

  lemma ClearHandFacts(s: State, h: HeapId, p: PageId)
    requires FactsIn(s, p, h, NONE) && AtSwitch(s, h, p, ForDelayed)
    ensures FactsIn(Switched(s, h, p, ForDelayed), NONE, h, NONE)
  {
  }

  lemma SwitchedKeeps(s: State, h: HeapId, p: PageId, purpose: Purpose)
    requires Inv(s) && AtSwitch(s, h, p, purpose)
    ensures Inv(Switched(s, h, p, purpose))
  {
    Locally(s, p, h, NONE);
    var s' := Switched(s, h, p, purpose);
    if purpose == ForDelayed {
      ClearHandShape(s, h, p);
      ClearHandLists(s, h, p);
      ClearHandFacts(s, h, p);
      NearStep(s, s', NONE, h, NONE);
    } else {
      HeapPoint(s, h, s'.heaps[h]);
    }
  }

  lemma FreeClearedShape(s: State, h: HeapId, b: Block)
    requires Spots(s) && CanFreeCleared(s, h) && b == s.heaps[h].hand.b && b in s.spot && s.spot[b] == ClearedBy(h)
    ensures Shape(s, DoFreeCleared(s, h), b.page, h, NONE)
  {
    var s' := DoFreeCleared(s, h);
    forall b' | b' in s.spot && s'.spot[b'] == s.spot[b'] ensures SpotOk(s', b', s.spot[b']) {
      assert SpotOk(s, b', s.spot[b']);
    }
  }

  lemma FreeClearedLists(s: State, h: HeapId, b: Block)
    requires ListsIn(s, b.page, h) && CanFreeCleared(s, h) && b == s.heaps[h].hand.b && b in s.spot && s.spot[b] == ClearedBy(h)
    ensures ListsIn(DoFreeCleared(s, h), b.page, h)
  {
    ChainPush(s.spot, s.pages[b.page].localFree, b, OnLocal(b.page));
  }

  lemma FreeClearedFacts(s: State, h: HeapId, b: Block)
    requires FactsIn(s, b.page, h, NONE) && CanFreeCleared(s, h) && b == s.heaps[h].hand.b
    ensures FactsIn(DoFreeCleared(s, h), b.page, h, NONE)
  {
  }

  lemma FreeClearedKeeps(s: State, h: HeapId)
    requires Inv(s) && CanFreeCleared(s, h)
    ensures Inv(DoFreeCleared(s, h))
  {
    var b := s.heaps[h].hand.b;
    Locally(s, b.page, h, NONE);
    FreeClearedShape(s, h, b);
    FreeClearedLists(s, h, b);
    FreeClearedFacts(s, h, b);
    NearStep(s, DoFreeCleared(s, h), b.page, h, NONE);
  }

  lemma ReinsertShape(s: State, h: HeapId)
    requires Spots(s) && CanReinsertCas(s, h, false) && s.heaps[h].pc.dhead == First(s.heaps[h].delayed)
    requires s.heaps[h].hand.b in s.spot && s.spot[s.heaps[h].hand.b] == InHand(h)
    ensures Shape(s, DoReinsertCas(s, h, false), NONE, h, NONE)
  {
    var s' := DoReinsertCas(s, h, false);
    forall b' | b' in s.spot && s'.spot[b'] == s.spot[b'] ensures SpotOk(s', b', s.spot[b']) {
      assert SpotOk(s, b', s.spot[b']);
    }
  }

  lemma ReinsertRest(s: State, h: HeapId)
    requires ListsIn(s, NONE, h) && FactsIn(s, NONE, h, NONE)
    requires CanReinsertCas(s, h, false) && s.heaps[h].pc.dhead == First(s.heaps[h].delayed)
    ensures ListsIn(DoReinsertCas(s, h, false), NONE, h) && FactsIn(DoReinsertCas(s, h, false), NONE, h, NONE)
  {
    ChainPush(s.spot, s.heaps[h].delayed, s.heaps[h].hand.b, Delayed(h));
  }

  // ---------------------------------------------------------------- dispatch

  lemma CollectCasKeeps(s: State, h: HeapId, spurious: bool)
    requires Inv(s) && CanCollectCas(s, h, spurious)
    ensures Inv(DoCollectCas(s, h, spurious))
  {
    var hp := s.heaps[h];
    var p := hp.pc.p;
    Locally(s, p, h, NONE);
    if spurious || hp.pc.seen != WordOf(s.pages[p]) {
      HeapPoint(s, h, hp.(pc := CollectLoaded(p, WordOf(s.pages[p]))));
    } else if s.pages[p].threadFree == [] {
      HeapPoint(s, h, hp.(pc := Ready));
    } else {
      TakeThreadFreeShape(s, h, p);
      TakeThreadFreeLists(s, h, p);
      TakeThreadFreeFacts(s, h, p);
      NearStep(s, TakeThreadFree(s, h, p), p, h, NONE);
    }
  }

  /** Distinct blocks of a page are at most as many as its capacity; if as many, all are there. */
  lemma {:induction false} Pigeonhole(blocks: multiset<Block>, p: PageId, n: nat)
    requires forall b :: b in blocks ==> blocks[b] == 1 && b.page == p && b.index < n
    ensures |blocks| <= n
    ensures |blocks| == n ==> forall b: Block :: b.page == p && b.index < n ==> b in blocks
  {
    if n > 0 {
      var last := Block(p, n - 1);
      var rest := blocks[last := 0];
      forall b | b in rest ensures rest[b] == 1 && b.page == p && b.index < n - 1 {
        assert b in blocks && b != last;
      }
      Pigeonhole(rest, p, n - 1);
      assert blocks == if last in blocks then rest + multiset{last} else rest;
      forall b: Block | |blocks| == n && b.page == p && b.index < n ensures b in blocks {
        if b != last { assert b in rest; }
      }
    } else {
      assert blocks == multiset{};
    }
  }

  /** The chain taken off a page's thread-free list is never longer than the capacity. */
  lemma CollectedBlock(s: State, h: HeapId, b: Block)
    requires Spots(s) && Pages(s) && h in s.heaps && HeapLists(s.spot, h, s.heaps[h])
    requires s.heaps[h].pc.Splicing? && s.heaps[h].pc.p in s.pages && b in multiset(s.heaps[h].collected)
    ensures multiset(s.heaps[h].collected)[b] == 1 && b.page == s.heaps[h].pc.p && b.index < s.pages[s.heaps[h].pc.p].capacity
  {
    assert b in s.spot && s.spot[b] == Collected(h);
  }

  lemma CollectedFits(s: State, h: HeapId)
    requires Inv(s) && h in s.heaps && s.heaps[h].pc.Splicing? && s.heaps[h].pc.p in s.pages
    ensures |s.heaps[h].collected| <= s.pages[s.heaps[h].pc.p].capacity
  {
    var hp := s.heaps[h];
    var p := hp.pc.p;
    var blocks := multiset(hp.collected);
    forall b | b in blocks ensures blocks[b] == 1 && b.page == p && b.index < s.pages[p].capacity {
      CollectedBlock(s, h, b);
    }
    Pigeonhole(blocks, p, s.pages[p].capacity);
  }

  lemma SpliceKeeps(s: State, h: HeapId)
    requires Inv(s) && CanSplice(s, h)
    ensures Inv(DoSplice(s, h))
  {
    CollectedFits(s, h);
    var p := s.heaps[h].pc.p;
    Locally(s, p, h, NONE);
    SpliceShape(s, h, p);
    SpliceLists(s, h, p);
    SpliceFacts(s, h, p);
    NearStep(s, SpliceLocal(s, h, p), p, h, NONE);
  }

  lemma TakeKeeps(s: State, h: HeapId)
    requires Inv(s) && (CanTakeLoad(s, h) || CanTakeCas(s, h, true))
    ensures Inv(SetHeap(s, h, TakeSeen(s.heaps[h])))
  {
    Locally(s, NONE, h, NONE);
    HeapPoint(s, h, TakeSeen(s.heaps[h]));
  }

  lemma TakeCasKeeps(s: State, h: HeapId, spurious: bool)
    requires Inv(s) && CanTakeCas(s, h, spurious)
    ensures Inv(DoTakeCas(s, h, spurious))
  {
    if spurious || Some(s.heaps[h].pc.first) != First(s.heaps[h].delayed) {
      TakeKeeps(s, h);
    } else {
      Locally(s, NONE, h, NONE);
      TakeDelayedShape(s, h);
      TakeDelayedRest(s, h);
      NearStep(s, TakeDelayed(s, h), NONE, h, NONE);
    }
  }

  lemma HandAttached(s: State, h: HeapId)
    requires Spots(s) && h in s.heaps && HandOk(s.spot, h, s.heaps[h].hand)
    ensures !s.heaps[h].hand.Empty? ==> AttachedTo(s.pages, s.heaps[h].hand.b, h)
  {
  }

  lemma SetDelayShape(s: State, h: HeapId, p: PageId, purpose: Purpose)
    requires Spots(s) && AtSwitchCas(s, h, p, purpose)
    ensures Shape(s, SetPage(s, p, s.pages[p].(delay := Want(purpose))), p, h, NONE)
  {
  }

  predicate AtSwitchCas(s: State, h: HeapId, p: PageId, purpose: Purpose) {
    && Owns(s, h, p) && s.heaps[h].pc.SwitchLoaded? && s.heaps[h].pc.p == p && s.heaps[h].pc.purpose == purpose
    && s.pages[p].delay != DelayedFreeing
  }

  lemma SetDelayKeeps(s: State, h: HeapId, p: PageId, purpose: Purpose)
    requires Inv(s) && AtSwitchCas(s, h, p, purpose) && (purpose == ForDelayed ==> s.pages[p].xheap == Some(h))
    ensures Inv(SetPage(s, p, s.pages[p].(delay := Want(purpose))))
  {
    Locally(s, p, h, NONE);
    SetDelayShape(s, h, p, purpose);
    NearStep(s, SetPage(s, p, s.pages[p].(delay := Want(purpose))), p, h, NONE);
  }

  lemma SwitchCasKeeps(s: State, h: HeapId, spurious: bool)
    requires Inv(s) && CanSwitchCas(s, h, spurious)
    ensures Inv(DoSwitchCas(s, h, spurious))
  {
    if spurious || s.heaps[h].pc.seen != WordOf(s.pages[s.heaps[h].pc.p]) {
      SwitchMissedKeeps(s, h);
    } else {
      SwitchHitKeeps(s, h);
    }
  }

  /** The program point after a CAS that failed. */
  function BackToLoad(hp: Heap): Heap
    requires hp.pc.SwitchLoaded?
  {
    hp.(pc := Switching(hp.pc.p, hp.pc.purpose, hp.pc.tries))
  }

  lemma SwitchMissedOk(s: State, h: HeapId)
    requires h in s.heaps && s.heaps[h].pc.SwitchLoaded? && HeapOk(s.spot, s.pages, h, s.heaps[h])
    ensures PcOk(s.pages, h, BackToLoad(s.heaps[h])) && PhaseOk(s.pages, h, BackToLoad(s.heaps[h])) && s.heaps[h].collected == []
  {
  }

  lemma SwitchMissedKeeps(s: State, h: HeapId)
    requires Inv(s) && h in s.heaps && s.heaps[h].pc.SwitchLoaded?
    ensures Inv(SetHeap(s, h, BackToLoad(s.heaps[h])))
  {
    Locally(s, NONE, h, NONE);
    SwitchMissedOk(s, h);
    HeapPoint(s, h, BackToLoad(s.heaps[h]));
  }

  lemma SwitchHitKeeps(s: State, h: HeapId)
    requires Inv(s) && CanSwitchCas(s, h, false) && s.heaps[h].pc.seen == WordOf(s.pages[s.heaps[h].pc.p])
    ensures Inv(DoSwitchCas(s, h, false))
  {
    var p, purpose := s.heaps[h].pc.p, s.heaps[h].pc.purpose;
    Locally(s, p, h, NONE);
    HandAttached(s, h);
    SetDelayKeeps(s, h, p, purpose);
    SwitchedKeeps(SetPage(s, p, s.pages[p].(delay := Want(purpose))), h, p, purpose);
  }

  lemma SwitchRetryOk(s: State, h: HeapId)
    requires FactsIn(s, NONE, h, NONE) && CanSwitchLoad(s, h)
    requires
      var pg, purpose := s.pages[s.heaps[h].pc.p], s.heaps[h].pc.purpose;
      pg.delay == DelayedFreeing || (pg.delay != Want(purpose) && (purpose == ForReclaim || pg.delay != NeverDelayed))
    requires s.heaps[h].pc.purpose == ForDelayed ==> s.pages[s.heaps[h].pc.p].xheap == Some(h)
    ensures
      var hp := DoSwitchLoad(s, h).heaps[h];
      && DoSwitchLoad(s, h) == SetHeap(s, h, hp) && hp == s.heaps[h].(pc := hp.pc)
      && PcOk(s.pages, h, hp) && PhaseOk(s.pages, h, hp) && hp.collected == []
  {
  }

  lemma SwitchLoadKeeps(s: State, h: HeapId)
    requires Inv(s) && CanSwitchLoad(s, h)
    ensures Inv(DoSwitchLoad(s, h))
  {
    var Switching(p, purpose, tries) := s.heaps[h].pc;
    var pg := s.pages[p];
    Locally(s, p, h, NONE);
    HandAttached(s, h);
    if pg.delay != DelayedFreeing && (pg.delay == Want(purpose) || (purpose != ForReclaim && pg.delay == NeverDelayed)) {
      SwitchedKeeps(s, h, p, purpose);
    } else {
      SwitchRetryOk(s, h);
      HeapPoint(s, h, DoSwitchLoad(s, h).heaps[h]);
    }
  }

  lemma ReinsertCasKeeps(s: State, h: HeapId, spurious: bool)
    requires Inv(s) && CanReinsertCas(s, h, spurious)
    ensures Inv(DoReinsertCas(s, h, spurious))
  {
    var hp := s.heaps[h];
    Locally(s, NONE, h, NONE);
    if spurious || hp.pc.dhead != First(hp.delayed) {
      HeapPoint(s, h, hp.(pc := Reinserting(First(hp.delayed))));
    } else {
      ReinsertShape(s, h);
      ReinsertRest(s, h);
      NearStep(s, DoReinsertCas(s, h, false), NONE, h, NONE);
    }
  }

  lemma SwitchBeginKeeps(s: State, h: HeapId, p: PageId, purpose: Purpose)
    requires Inv(s) && CanSwitchBegin(s, h, p, purpose)
    ensures Inv(DoSwitchBegin(s, h, p, purpose))
  {
    Locally(s, p, h, NONE);
    HeapPoint(s, h, s.heaps[h].(pc := Switching(p, purpose, 0)));
  }

  lemma ReinsertLoadKeeps(s: State, h: HeapId)
    requires Inv(s) && CanReinsertLoad(s, h)
    ensures Inv(DoReinsertLoad(s, h))
  {
    Locally(s, NONE, h, NONE);
    HeapPoint(s, h, s.heaps[h].(pc := Reinserting(First(s.heaps[h].delayed))));
  }

  lemma DelayKeeps(s: State, a: DelayStep)
    requires Inv(s)
    ensures Inv(ApplyDelayStep(s, a))
  {
    if ApplyDelayStep(s, a) != s {
      match a
      case TakeLoad(h) => TakeKeeps(s, h);
      case TakeCas(h, spurious) => TakeCasKeeps(s, h, spurious);
      case NextTaken(h) => NextTakenKeeps(s, h);
      case SwitchBegin(h, p, purpose) => SwitchBeginKeeps(s, h, p, purpose);
      case SwitchLoad(h) => SwitchLoadKeeps(s, h);
      case SwitchCas(h, spurious) => SwitchCasKeeps(s, h, spurious);
      case FreeCleared(h) => FreeClearedKeeps(s, h);
      case ReinsertLoad(h) => ReinsertLoadKeeps(s, h);
      case ReinsertCas(h, spurious) => ReinsertCasKeeps(s, h, spurious);
    }
  }

  // ---------------------------------------------------------------- capacity grows

  /** Chains after some blocks that had no spot appear at `to`. */
  lemma ChainGrow(spot: map<Block, Spot>, blocks: seq<Block>, l: seq<Block>, where: Spot, to: Spot)
    requires Chain(spot, l, where) && NoDup(blocks)
    requires forall b :: b in blocks ==> b !in spot
    ensures Chain(spot + (map b | b in blocks :: to), if where == to then blocks + l else l, where)
  {
    var spot' := spot + (map b | b in blocks :: to);
    var l' := if where == to then blocks + l else l;
    forall b ensures multiset(l')[b] == if b in spot' && spot'[b] == where then 1 else 0 {
      NoDupCount(blocks, b);
      assert multiset(blocks + l)[b] == multiset(blocks)[b] + multiset(l)[b];
    }
  }

  lemma {:induction false} NoDupCount<T>(l: seq<T>, x: T)
    requires NoDup(l)
    ensures multiset(l)[x] == if x in l then 1 else 0
  {
    if l != [] {
      assert l == [l[0]] + l[1..];
      NoDupCount(l[1..], x);
    }
  }

  lemma ExtendLists(s: State, h: HeapId, p: PageId, blocks: seq<Block>)
    requires Lists(s) && CanExtend(s, h, p, blocks)
    requires forall b :: b in blocks ==> b !in s.spot
    ensures Lists(DoExtend(s, h, p, blocks))
  {
    var s' := DoExtend(s, h, p, blocks);
    forall q | q in s'.pages ensures PageLists(s'.spot, q, s'.pages[q]) {
      ChainGrow(s.spot, blocks, s.pages[q].free, OnFree(q), OnFree(p));
      ChainGrow(s.spot, blocks, s.pages[q].localFree, OnLocal(q), OnFree(p));
      ChainGrow(s.spot, blocks, s.pages[q].threadFree, OnThread(q), OnFree(p));
    }
    forall k | k in s'.heaps ensures HeapLists(s'.spot, k, s'.heaps[k]) {
      ChainGrow(s.spot, blocks, s.heaps[k].delayed, Delayed(k), OnFree(p));
      ChainGrow(s.spot, blocks, s.heaps[k].taken, Taken(k), OnFree(p));
      ChainGrow(s.spot, blocks, s.heaps[k].collected, Collected(k), OnFree(p));
    }
  }

  lemma ExtendSpots(s: State, h: HeapId, p: PageId, blocks: seq<Block>)
    requires Spots(s) && CanExtend(s, h, p, blocks)
    ensures Spots(DoExtend(s, h, p, blocks))
  {
  }

  lemma ExtendPages(s: State, h: HeapId, p: PageId, blocks: seq<Block>)
    requires Pages(s) && CanExtend(s, h, p, blocks)
    ensures Pages(DoExtend(s, h, p, blocks))
  {
  }

  lemma ExtendHeaps(s: State, h: HeapId, p: PageId, blocks: seq<Block>)
    requires Heaps(s) && Pages(s) && CanExtend(s, h, p, blocks)
    ensures Heaps(DoExtend(s, h, p, blocks))
  {
    var s' := DoExtend(s, h, p, blocks);
    forall k | k in s'.heaps ensures HeapOk(s'.spot, s'.pages, k, s'.heaps[k]) {
      assert HeapOk(s.spot, s.pages, k, s.heaps[k]);
      ExtendHeap(s, h, p, blocks, k);
    }
  }

  lemma ExtendHeap(s: State, h: HeapId, p: PageId, blocks: seq<Block>, k: HeapId)
    requires Pages(s) && CanExtend(s, h, p, blocks) && k in s.heaps && HeapOk(s.spot, s.pages, k, s.heaps[k])
    ensures var s' := DoExtend(s, h, p, blocks); HeapOk(s'.spot, s'.pages, k, s.heaps[k])
  {
    var s' := DoExtend(s, h, p, blocks);
    assert forall b :: b in s.spot ==> b in s'.spot && s'.spot[b] == s.spot[b];
  }

  lemma ExtendRemotes(s: State, h: HeapId, p: PageId, blocks: seq<Block>)
    requires Remotes(s) && GuardsOk(s) && Pages(s) && CanExtend(s, h, p, blocks)
    ensures var s' := DoExtend(s, h, p, blocks); Remotes(s') && GuardsOk(s')
  {
    var s' := DoExtend(s, h, p, blocks);
    assert forall u, q :: GuardOf(s', u, q) == GuardOf(s, u, q);
    assert forall b :: b in s.spot ==> b in s'.spot && s'.spot[b] == s.spot[b];
  }

  lemma ExtendKeeps(s: State, h: HeapId, p: PageId, blocks: seq<Block>)
    requires Inv(s) && CanExtend(s, h, p, blocks)
    ensures Inv(DoExtend(s, h, p, blocks))
  {
    ExtendLists(s, h, p, blocks);
    ExtendSpots(s, h, p, blocks);
    ExtendPages(s, h, p, blocks);
    ExtendHeaps(s, h, p, blocks);
    ExtendRemotes(s, h, p, blocks);
  }

  lemma MallocKeeps(s: State, h: HeapId, p: PageId)
    requires Inv(s) && CanMalloc(s, h, p)
    ensures Inv(DoMalloc(s, h, p))
  {
    Locally(s, p, NONE, NONE);
    ChainPop(s.spot, s.pages[p].free, OnFree(p), Live);
    MallocShape(s, h, p, s.pages[p].free[0]);
    MallocRest(s, h, p);
    NearStep(s, DoMalloc(s, h, p), p, NONE, NONE);
  }

  lemma LocalFreeKeeps(s: State, h: HeapId, b: Block)
    requires Inv(s) && CanLocalFree(s, h, b)
    ensures Inv(PushLocal(s, b))
  {
    Locally(s, b.page, NONE, NONE);
    LocalFreeSound(s, b);
    NearStep(s, PushLocal(s, b), b.page, NONE, NONE);
  }

  lemma MigrateKeeps(s: State, h: HeapId, p: PageId, force: bool)
    requires Inv(s) && CanMigrateLocal(s, h, p, force)
    ensures Inv(DoMigrateLocal(s, h, p, force))
  {
    Locally(s, p, NONE, NONE);
    MigrateShape(s, h, p, force);
    MigrateRest(s, h, p, force);
    NearStep(s, DoMigrateLocal(s, h, p, force), p, NONE, NONE);
  }

  lemma CollectLoadKeeps(s: State, h: HeapId, p: PageId)
    requires Inv(s) && CanCollectLoad(s, h, p)
    ensures Inv(DoCollectLoad(s, h, p))
  {
    Locally(s, p, h, NONE);
    HeapPoint(s, h, s.heaps[h].(pc := CollectLoaded(p, WordOf(s.pages[p]))));
  }

  lemma PageKeeps(s: State, a: PageStep)
    requires Inv(s)
    ensures Inv(ApplyPageStep(s, a))
  {
    if ApplyPageStep(s, a) != s {
      match a
      case Malloc(h, p) => MallocKeeps(s, h, p);
      case LocalFree(h, b) => LocalFreeKeeps(s, h, b);
      case Extend(h, p, blocks) => ExtendKeeps(s, h, p, blocks);
      case CollectLoad(h, p) => CollectLoadKeeps(s, h, p);
      case CollectCas(h, spurious) => CollectCasKeeps(s, h, spurious);
      case Splice(h) => SpliceKeeps(s, h);
      case MigrateLocal(h, p, force) => MigrateKeeps(s, h, p, force);
    }
  }
}
