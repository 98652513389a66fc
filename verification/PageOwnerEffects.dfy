/**
 What the owner of a page does to it (page.cpp:68-156, 209-286, 365-394; heap.cpp:103-189), read off the
 lists, the flag and the counters: each operation from its first step to its last when no other thread
 comes in between, and what a step does when its word has changed meanwhile.
 */
module PageOwnerEffects {
  import opened Sequences
  import opened PageProtocol
  import opened PageInvariant
  import opened PageOwnerSteps
  import opened PageSafety
  import opened PageRemoteEffects

  /** The heap's thread is between two operations. */
  predicate Calm(s: State, h: HeapId) {
    h in s.heaps && s.heaps[h].pc.Ready?
  }

  /** And the page is one of its own. */
  predicate CalmOn(s: State, h: HeapId, p: PageId) {
    Calm(s, h) && p in s.pages && s.pages[p].owner == Some(h)
  }

  /** Page `p` and heap `h` become as given; all other pages and heaps, and all freeing threads, stay. */
  ghost predicate Become(s: State, s': State, p: PageId, pg: Page, h: HeapId, hp: Heap) {
    s'.pages == s.pages[p := pg] && s'.heaps == s.heaps[h := hp] && s'.remotes == s.remotes
  }

  /** Only the heap's own record changes. */
  ghost predicate OnlyHeap(s: State, s': State, h: HeapId, hp: Heap) {
    s'.pages == s.pages && s'.heaps == s.heaps[h := hp] && s'.remotes == s.remotes
  }

  lemma RunTwo(s: State, a: Action, b: Action)
    ensures Run(s, [a, b]) == Apply(Apply(s, a), b)
  {
    assert [a, b] == [a] + [b];
    RunBoth(s, [a], [b]);
    RunOne(s, a);
    RunOne(Apply(s, a), b);
  }

  // ---------------------------------------------------------------- allocation and local free

  /** `_mi_page_malloc`: the client gets the first block of the free list. */
  lemma MallocGives(s: State, h: HeapId, p: PageId)
    requires CalmOn(s, h, p) && s.pages[p].free != []
    ensures var pg := s.pages[p]; var s' := Apply(s, OfPage(Malloc(h, p)));
            && Become(s, s', p, pg.(free := pg.free[1..], used := pg.used + 1), h, s.heaps[h])
            && Count(s', pg.free[0], Live) == 1
  {
  }

  /** A free by the owner: the block goes to the front of the local list, and is not in use any more. */
  lemma LocalFreeTakes(s: State, h: HeapId, b: Block)
    requires CalmOn(s, h, b.page) && Count(s, b, Live) == 1
    ensures var pg := s.pages[b.page]; var s' := Apply(s, OfPage(LocalFree(h, b)));
            && Become(s, s', b.page, pg.(localFree := [b] + pg.localFree, used := pg.used - 1), h, s.heaps[h])
            && Count(s', b, Live) == 0
  {
  }

  /** `mi_page_extend_free`: new blocks come before the free ones. */
  lemma ExtendAdds(s: State, h: HeapId, p: PageId, blocks: seq<Block>)
    requires CalmOn(s, h, p) && NoDup(blocks)
    requires forall b: Block :: b in blocks <==> b.page == p && s.pages[p].capacity <= b.index < s.pages[p].capacity + |blocks|
    ensures var pg := s.pages[p];
            Become(s, Apply(s, OfPage(Extend(h, p, blocks))), p, pg.(free := blocks + pg.free, capacity := pg.capacity + |blocks|), h, s.heaps[h])
  {
    assert FreshBlocks(s.pages[p], p, blocks);
  }

  /** `_mi_page_free_collect`, second half: the local list goes before what is left of the free list. */
  lemma MigrateMoves(s: State, h: HeapId, p: PageId, force: bool)
    requires CalmOn(s, h, p) && s.pages[p].localFree != [] && (s.pages[p].free == [] || force)
    ensures var pg := s.pages[p];
            Become(s, Apply(s, OfPage(MigrateLocal(h, p, force))), p, pg.(free := pg.localFree + pg.free, localFree := []), h, s.heaps[h])
  {
  }

  // ---------------------------------------------------------------- collecting the thread-free list

  lemma CollectLoads(s: State, h: HeapId, p: PageId)
    requires CalmOn(s, h, p)
    ensures var pg := s.pages[p];
            Become(s, Apply(s, OfPage(CollectLoad(h, p))), p, pg, h, s.heaps[h].(pc := CollectLoaded(p, Word(First(pg.threadFree), pg.delay))))
  {
  }

  predicate AtCollect(s: State, h: HeapId, p: PageId, seen: Word) {
    h in s.heaps && p in s.pages && s.pages[p].owner == Some(h) && s.heaps[h].pc == CollectLoaded(p, seen)
  }

  /** The compare-and-swap takes the whole list and leaves the flag; an empty list ends the operation. */
  lemma CollectTakes(s: State, h: HeapId, p: PageId, seen: Word)
    requires AtCollect(s, h, p, seen) && seen.head == First(s.pages[p].threadFree) && seen.delay == s.pages[p].delay
    ensures var pg, hp := s.pages[p], s.heaps[h]; var s' := Apply(s, OfPage(CollectCas(h, false)));
            if pg.threadFree == [] then Become(s, s', p, pg, h, hp.(pc := Ready))
            else Become(s, s', p, pg.(threadFree := []), h, hp.(collected := pg.threadFree, pc := Splicing(p)))
  {
  }

  lemma CollectReloads(s: State, h: HeapId, p: PageId, seen: Word, spurious: bool)
    requires AtCollect(s, h, p, seen) && (spurious || seen.head != First(s.pages[p].threadFree) || seen.delay != s.pages[p].delay)
    ensures var pg := s.pages[p];
            Become(s, Apply(s, OfPage(CollectCas(h, spurious))), p, pg, h, s.heaps[h].(pc := CollectLoaded(p, Word(First(pg.threadFree), pg.delay))))
  {
  }

  lemma SpliceJoins(s: State, h: HeapId, p: PageId)
    requires h in s.heaps && p in s.pages && s.pages[p].owner == Some(h) && s.heaps[h].pc == Splicing(p) && |s.heaps[h].collected| <= s.pages[p].capacity
    ensures var pg, hp := s.pages[p], s.heaps[h];
            Become(s, Apply(s, OfPage(Splice(h))), p, pg.(localFree := hp.collected + pg.localFree, used := pg.used - |hp.collected|),
                   h, hp.(collected := [], pc := Ready))
  {
  }

  function Collect(h: HeapId, p: PageId): seq<Action> {
    [OfPage(CollectLoad(h, p)), OfPage(CollectCas(h, false)), OfPage(Splice(h))]
  }

  lemma ListFits(s: State, h: HeapId, p: PageId)
    requires Inv(s) && CalmOn(s, h, p)
    ensures |s.pages[p].threadFree| <= s.pages[p].capacity && s.heaps[h].collected == []
  {
    assert HeapOk(s.spot, s.pages, h, s.heaps[h]);
    if s.pages[p].threadFree != [] {
      StepKeeps(s, OfPage(CollectLoad(h, p)));
      CollectLoads(s, h, p);
      var u := Apply(s, OfPage(CollectLoad(h, p)));
      StepKeeps(u, OfPage(CollectCas(h, false)));
      CollectTakes(u, h, p, u.heaps[h].pc.seen);
      CollectedFits(Apply(u, OfPage(CollectCas(h, false))), h);
    }
  }

  lemma ReachableFits(s: State, h: HeapId, p: PageId)
    requires Reachable(s) && CalmOn(s, h, p)
    ensures |s.pages[p].threadFree| <= s.pages[p].capacity && s.heaps[h].collected == []
  {
    ReachableOk(s);
    ListFits(s, h, p);
  }

  /** `_mi_page_thread_free_collect`: all blocks that others freed become free locally; the flag stays as it is. */
  lemma CollectAlone(s: State, h: HeapId, p: PageId)
    requires Reachable(s) && CalmOn(s, h, p) && s.pages[p].threadFree != []
    ensures var pg := s.pages[p];
            Become(s, Run(s, Collect(h, p)), p, pg.(threadFree := [], localFree := pg.threadFree + pg.localFree, used := pg.used - |pg.threadFree|),
                   h, s.heaps[h])
  {
    ReachableFits(s, h, p);
    CollectRun(s, h, p);
  }

  lemma CollectRun(s: State, h: HeapId, p: PageId)
    requires CalmOn(s, h, p) && s.pages[p].threadFree != [] && |s.pages[p].threadFree| <= s.pages[p].capacity && s.heaps[h].collected == []
    ensures var pg := s.pages[p];
            Become(s, Run(s, Collect(h, p)), p, pg.(threadFree := [], localFree := pg.threadFree + pg.localFree, used := pg.used - |pg.threadFree|),
                   h, s.heaps[h])
  {
    RunThree(s, OfPage(CollectLoad(h, p)), OfPage(CollectCas(h, false)), OfPage(Splice(h)));
    CollectLoads(s, h, p);
    var u := Apply(s, OfPage(CollectLoad(h, p)));
    CollectTakes(u, h, p, u.heaps[h].pc.seen);
    SpliceJoins(Apply(u, OfPage(CollectCas(h, false))), h, p);
  }

  // ---------------------------------------------------------------- the delayed list

  /** What a sweep of the delayed list means for the phase of the heap. */
  function Swept(phase: Phase): Phase {
    match phase
    case Draining(_) => Draining(true)
    case _ => phase
  }

  predicate CanTake(s: State, h: HeapId) {
    Calm(s, h) && !s.heaps[h].phase.Marking? && s.heaps[h].taken == [] && s.heaps[h].hand == Empty
  }

  /** An empty list is only seen to be empty. */
  lemma TakeNothing(s: State, h: HeapId)
    requires CanTake(s, h) && s.heaps[h].delayed == []
    ensures var s' := Apply(s, OfDelay(TakeLoad(h)));
            s'.pages == s.pages && s'.remotes == s.remotes && s'.heaps == s.heaps[h := s.heaps[h].(phase := Swept(s.heaps[h].phase))]
  {
  }

  /** The whole list is taken over. */
  lemma TakeAlone(s: State, h: HeapId)
    requires CanTake(s, h) && s.heaps[h].delayed != []
    ensures var hp := s.heaps[h]; var s' := Run(s, [OfDelay(TakeLoad(h)), OfDelay(TakeCas(h, false))]);
            && s'.pages == s.pages && s'.remotes == s.remotes
            && s'.heaps == s.heaps[h := hp.(taken := hp.delayed, delayed := [], phase := Swept(hp.phase))]
  {
    RunTwo(s, OfDelay(TakeLoad(h)), OfDelay(TakeCas(h, false)));
    var hp := s.heaps[h];
    var u := Apply(s, OfDelay(TakeLoad(h)));
    assert u == s.(heaps := s.heaps[h := hp.(pc := TakeLoaded(hp.delayed[0]))]);
  }

  /** When the head of the list has changed, the thread looks again. */
  lemma TakeRetries(s: State, h: HeapId, first: Block, spurious: bool)
    requires h in s.heaps && s.heaps[h].pc == TakeLoaded(first) && (spurious || First(s.heaps[h].delayed) != Some(first))
    ensures var hp := s.heaps[h]; var s' := Apply(s, OfDelay(TakeCas(h, spurious)));
            && s'.pages == s.pages && s'.remotes == s.remotes
            && s'.heaps == s.heaps[h := if hp.delayed == [] then hp.(pc := Ready, phase := Swept(hp.phase)) else hp.(pc := TakeLoaded(hp.delayed[0]))]
  {
  }

  // ---------------------------------------------------------------- switching the flag

  predicate AtSwitch(s: State, h: HeapId, p: PageId, purpose: Purpose, tries: nat) {
    h in s.heaps && p in s.pages && s.pages[p].owner == Some(h) && s.heaps[h].pc == Switching(p, purpose, tries)
  }

  /** The heap after its thread is done with the flag of `p`. */
  function AfterSwitch(hp: Heap, p: PageId, purpose: Purpose): Heap {
    match purpose
    case ForDelayed => hp.(pc := Ready, hand := if hp.hand.Held? then Cleared(hp.hand.b) else hp.hand)
    case ForMark => hp.(pc := Ready, phase := if hp.phase.Marking? then Marking(hp.phase.todo - {p}) else hp.phase)
    case ForReclaim => hp.(pc := Ready)
  }

  /** The flag that the thread wants: NEVER_DELAYED to abandon the page, USE_DELAYED otherwise. */
  function Wanted(purpose: Purpose): Delay {
    match purpose
    case ForDelayed => UseDelayed
    case ForMark => NeverDelayed
    case ForReclaim => UseDelayed
  }

  /** It waits while the page is in DELAYED_FREEING; with a delayed block in hand, it gives up after four retries. */
  lemma SwitchWaits(s: State, h: HeapId, p: PageId, purpose: Purpose, tries: nat)
    requires AtSwitch(s, h, p, purpose, tries) && s.pages[p].delay == DelayedFreeing
    ensures Become(s, Apply(s, OfDelay(SwitchLoad(h))), p, s.pages[p], h,
                   s.heaps[h].(pc := if tries < 4 then Switching(p, purpose, tries + 1)
                                     else if purpose == ForDelayed then GivenUp else Switching(p, purpose, 0)))
  {
  }

  /** Nothing is to be done if the flag is as wanted, nor for a page that stays NEVER_DELAYED. */
  lemma SwitchNothing(s: State, h: HeapId, p: PageId, purpose: Purpose, tries: nat)
    requires AtSwitch(s, h, p, purpose, tries)
    requires s.pages[p].delay == Wanted(purpose) || (s.pages[p].delay == NeverDelayed && purpose != ForReclaim)
    ensures Become(s, Apply(s, OfDelay(SwitchLoad(h))), p, s.pages[p], h, AfterSwitch(s.heaps[h], p, purpose))
  {
  }

  predicate ToSwitch(pg: Page, purpose: Purpose) {
    pg.delay != DelayedFreeing && pg.delay != Wanted(purpose) && (pg.delay != NeverDelayed || purpose == ForReclaim)
  }

  lemma SwitchLoads(s: State, h: HeapId, p: PageId, purpose: Purpose, tries: nat)
    requires AtSwitch(s, h, p, purpose, tries) && ToSwitch(s.pages[p], purpose)
    ensures var pg := s.pages[p];
            Become(s, Apply(s, OfDelay(SwitchLoad(h))), p, pg, h, s.heaps[h].(pc := SwitchLoaded(p, purpose, tries, Word(First(pg.threadFree), pg.delay))))
  {
  }

  predicate AtSwitchCas(s: State, h: HeapId, p: PageId, purpose: Purpose, tries: nat, seen: Word) {
    h in s.heaps && p in s.pages && s.pages[p].owner == Some(h) && s.heaps[h].pc == SwitchLoaded(p, purpose, tries, seen)
  }

  /** Otherwise the flag becomes the one that is wanted; the thread-free list stays. */
  lemma SwitchSets(s: State, h: HeapId, p: PageId, purpose: Purpose, tries: nat, seen: Word)
    requires AtSwitchCas(s, h, p, purpose, tries, seen) && seen.head == First(s.pages[p].threadFree) && seen.delay == s.pages[p].delay
    ensures Become(s, Apply(s, OfDelay(SwitchCas(h, false))), p, s.pages[p].(delay := Wanted(purpose)), h, AfterSwitch(s.heaps[h], p, purpose))
  {
  }

  lemma SwitchRetries(s: State, h: HeapId, p: PageId, purpose: Purpose, tries: nat, seen: Word, spurious: bool)
    requires AtSwitchCas(s, h, p, purpose, tries, seen) && (spurious || seen.head != First(s.pages[p].threadFree) || seen.delay != s.pages[p].delay)
    ensures Become(s, Apply(s, OfDelay(SwitchCas(h, spurious))), p, s.pages[p], h, s.heaps[h].(pc := Switching(p, purpose, tries)))
  {
  }

  /** The steps of a switch that is not disturbed, on a page that is not in DELAYED_FREEING. */
  function Switch(h: HeapId, pg: Page, purpose: Purpose): seq<Action> {
    [OfDelay(SwitchLoad(h))] + if ToSwitch(pg, purpose) then [OfDelay(SwitchCas(h, false))] else []
  }

  /** The flag afterwards. */
  function FlagAfter(pg: Page, purpose: Purpose): Delay {
    if ToSwitch(pg, purpose) then Wanted(purpose) else pg.delay
  }

  lemma SwitchAlone(s: State, h: HeapId, p: PageId, purpose: Purpose)
    requires AtSwitch(s, h, p, purpose, 0) && s.pages[p].delay != DelayedFreeing
    ensures Become(s, Run(s, Switch(h, s.pages[p], purpose)), p, s.pages[p].(delay := FlagAfter(s.pages[p], purpose)), h, AfterSwitch(s.heaps[h], p, purpose))
  {
    var u := Apply(s, OfDelay(SwitchLoad(h)));
    RunOne(s, OfDelay(SwitchLoad(h)));
    if ToSwitch(s.pages[p], purpose) {
      RunTwo(s, OfDelay(SwitchLoad(h)), OfDelay(SwitchCas(h, false)));
      assert Switch(h, s.pages[p], purpose) == [OfDelay(SwitchLoad(h)), OfDelay(SwitchCas(h, false))];
      SwitchLoads(s, h, p, purpose, 0);
      SwitchSets(u, h, p, purpose, 0, u.heaps[h].pc.seen);
    } else {
      assert Switch(h, s.pages[p], purpose) == [OfDelay(SwitchLoad(h))];
      SwitchNothing(s, h, p, purpose, 0);
    }
  }

  // ---------------------------------------------------------------- one delayed block

  lemma NextTakes(s: State, h: HeapId)
    requires Calm(s, h) && s.heaps[h].hand == Empty && s.heaps[h].taken != []
    ensures var hp := s.heaps[h]; var s' := Apply(s, OfDelay(NextTaken(h)));
            && s'.pages == s.pages && s'.remotes == s.remotes
            && s'.heaps == s.heaps[h := hp.(hand := Held(hp.taken[0]), taken := hp.taken[1..])]
  {
  }

  lemma SwitchBegins(s: State, h: HeapId, p: PageId, purpose: Purpose)
    requires CalmOn(s, h, p)
    requires match purpose
             case ForDelayed => s.heaps[h].hand.Held? && s.heaps[h].hand.b.page == p && !s.heaps[h].phase.Marking?
             case ForMark => s.heaps[h].phase.Marking? && p in s.heaps[h].phase.todo
             case ForReclaim => s.heaps[h].phase == Open && s.pages[p].xheap == Some(h)
    ensures Become(s, Apply(s, OfDelay(SwitchBegin(h, p, purpose))), p, s.pages[p], h, s.heaps[h].(pc := Switching(p, purpose, 0)))
  {
  }

  lemma ClearedIsFreed(s: State, h: HeapId, b: Block)
    requires CalmOn(s, h, b.page) && s.heaps[h].hand == Cleared(b)
    ensures var pg := s.pages[b.page];
            Become(s, Apply(s, OfDelay(FreeCleared(h))), b.page, pg.(localFree := [b] + pg.localFree, used := pg.used - 1), h, s.heaps[h].(hand := Empty))
  {
  }

  lemma ReinsertLoads(s: State, h: HeapId)
    requires h in s.heaps && s.heaps[h].pc.GivenUp?
    ensures var s' := Apply(s, OfDelay(ReinsertLoad(h)));
            && s'.pages == s.pages && s'.remotes == s.remotes
            && s'.heaps == s.heaps[h := s.heaps[h].(pc := Reinserting(First(s.heaps[h].delayed)))]
  {
  }

  /** The block goes back to the front of the delayed list, if its head is as it was read; otherwise the thread reads anew. */
  lemma ReinsertPushes(s: State, h: HeapId, b: Block, dhead: Option<Block>, spurious: bool)
    requires h in s.heaps && s.heaps[h].pc == Reinserting(dhead) && s.heaps[h].hand == Held(b)
    ensures var hp := s.heaps[h]; var s' := Apply(s, OfDelay(ReinsertCas(h, spurious)));
            && s'.pages == s.pages && s'.remotes == s.remotes
            && s'.heaps == s.heaps[h := if spurious || dhead != First(hp.delayed) then hp.(pc := Reinserting(First(hp.delayed)))
                                        else hp.(delayed := [b] + hp.delayed, hand := Empty, pc := Ready)]
  {
  }

  /** The next block of the list that was taken over is in hand, and its page's flag is about to be looked at. */
  function TakeUp(h: HeapId, p: PageId): seq<Action> {
    [OfDelay(NextTaken(h)), OfDelay(SwitchBegin(h, p, ForDelayed))]
  }

  predicate HasTaken(s: State, h: HeapId, b: Block) {
    && CalmOn(s, h, b.page) && !s.heaps[h].phase.Marking?
    && s.heaps[h].hand == Empty && s.heaps[h].taken != [] && s.heaps[h].taken[0] == b
  }

  lemma TakesUp(s: State, h: HeapId, b: Block)
    requires HasTaken(s, h, b)
    ensures var s' := Run(s, TakeUp(h, b.page));
            && AtSwitch(s', h, b.page, ForDelayed, 0)
            && OnlyHeap(s, s', h, s.heaps[h].(hand := Held(b), taken := s.heaps[h].taken[1..], pc := Switching(b.page, ForDelayed, 0)))
  {
    RunTwo(s, OfDelay(NextTaken(h)), OfDelay(SwitchBegin(h, b.page, ForDelayed)));
    NextTakes(s, h);
    var u := Apply(s, OfDelay(NextTaken(h)));
    SwitchBegins(u, h, b.page, ForDelayed);
    assert u.pages[b.page := u.pages[b.page]] == s.pages;
  }

  /** One round of `_mi_heap_delayed_free_partial` on a page that is not in DELAYED_FREEING. */
  function FreeTaken(h: HeapId, b: Block, pg: Page): seq<Action> {
    TakeUp(h, b.page) + (Switch(h, pg, ForDelayed) + [OfDelay(FreeCleared(h))])
  }

  /** The rest of the round, with the block in hand. */
  lemma FreesHeld(s: State, h: HeapId, b: Block)
    requires AtSwitch(s, h, b.page, ForDelayed, 0) && s.heaps[h].hand == Held(b) && s.pages[b.page].delay != DelayedFreeing
    ensures var pg, hp := s.pages[b.page], s.heaps[h];
            Become(s, Run(s, Switch(h, pg, ForDelayed) + [OfDelay(FreeCleared(h))]), b.page,
                   pg.(localFree := [b] + pg.localFree, used := pg.used - 1, delay := FlagAfter(pg, ForDelayed)), h, hp.(hand := Empty, pc := Ready))
  {
    var pg := s.pages[b.page];
    RunBoth(s, Switch(h, pg, ForDelayed), [OfDelay(FreeCleared(h))]);
    SwitchAlone(s, h, b.page, ForDelayed);
    var v := Run(s, Switch(h, pg, ForDelayed));
    RunOne(v, OfDelay(FreeCleared(h)));
    ClearedIsFreed(v, h, b);
  }

  lemma FreesTaken(s: State, h: HeapId, b: Block)
    requires HasTaken(s, h, b) && s.pages[b.page].delay != DelayedFreeing
    ensures var pg, hp := s.pages[b.page], s.heaps[h];
            Become(s, Run(s, FreeTaken(h, b, pg)), b.page,
                   pg.(localFree := [b] + pg.localFree, used := pg.used - 1, delay := FlagAfter(pg, ForDelayed)), h, hp.(taken := hp.taken[1..]))
  {
    var pg := s.pages[b.page];
    var rest := Switch(h, pg, ForDelayed) + [OfDelay(FreeCleared(h))];
    RunBoth(s, TakeUp(h, b.page), rest);
    TakesUp(s, h, b);
    FreesFrom(s, Run(s, TakeUp(h, b.page)), h, b, rest);
  }

  lemma FreesFrom(s: State, u: State, h: HeapId, b: Block, rest: seq<Action>)
    requires HasTaken(s, h, b) && s.pages[b.page].delay != DelayedFreeing && AtSwitch(u, h, b.page, ForDelayed, 0)
    requires OnlyHeap(s, u, h, s.heaps[h].(hand := Held(b), taken := s.heaps[h].taken[1..], pc := Switching(b.page, ForDelayed, 0)))
    requires rest == Switch(h, s.pages[b.page], ForDelayed) + [OfDelay(FreeCleared(h))]
    ensures var pg, hp := s.pages[b.page], s.heaps[h];
            Become(s, Run(u, rest), b.page,
                   pg.(localFree := [b] + pg.localFree, used := pg.used - 1, delay := FlagAfter(pg, ForDelayed)), h, hp.(taken := hp.taken[1..]))
  {
    FreesHeld(u, h, b);
  }

  function Look(h: HeapId): Action {
    OfDelay(SwitchLoad(h))
  }

  function Waits(h: HeapId): seq<Action> {
    [Look(h), Look(h), Look(h)] + [Look(h), Look(h)]
  }

  /** The thread has looked so many times at a page in DELAYED_FREEING. */
  ghost predicate Looked(s: State, s': State, h: HeapId, p: PageId, tries: nat)
    requires h in s.heaps
  {
    AtSwitch(s', h, p, ForDelayed, tries) && OnlyHeap(s, s', h, s.heaps[h].(pc := Switching(p, ForDelayed, tries)))
  }

  lemma LooksAgain(s: State, u: State, h: HeapId, p: PageId, tries: nat)
    requires h in s.heaps && Looked(s, u, h, p, tries) && p in s.pages && s.pages[p].delay == DelayedFreeing && tries < 4
    ensures Looked(s, Apply(u, Look(h)), h, p, tries + 1)
  {
    SwitchWaits(u, h, p, ForDelayed, tries);
    assert u.pages[p := u.pages[p]] == u.pages;
  }

  lemma LooksLast(s: State, u: State, h: HeapId, p: PageId)
    requires h in s.heaps && Looked(s, u, h, p, 4) && p in s.pages && s.pages[p].delay == DelayedFreeing
    ensures OnlyHeap(s, Apply(u, Look(h)), h, s.heaps[h].(pc := GivenUp))
  {
    SwitchWaits(u, h, p, ForDelayed, 4);
    assert u.pages[p := u.pages[p]] == u.pages;
  }

  /** After five looks at a page in DELAYED_FREEING the thread gives up. */
  lemma GivesUp(s: State, h: HeapId, p: PageId)
    requires AtSwitch(s, h, p, ForDelayed, 0) && s.pages[p].delay == DelayedFreeing
    ensures OnlyHeap(s, Run(s, Waits(h)), h, s.heaps[h].(pc := GivenUp))
  {
    RunBoth(s, [Look(h), Look(h), Look(h)], [Look(h), Look(h)]);
    RunThree(s, Look(h), Look(h), Look(h));
    LooksAgain(s, s, h, p, 0);
    var s1 := Apply(s, Look(h));
    LooksAgain(s, s1, h, p, 1);
    var s2 := Apply(s1, Look(h));
    LooksAgain(s, s2, h, p, 2);
    var s3 := Apply(s2, Look(h));
    RunTwo(s3, Look(h), Look(h));
    LooksAgain(s, s3, h, p, 3);
    LooksLast(s, Apply(s3, Look(h)), h, p);
  }

  /** One round on a page that stays in DELAYED_FREEING. */
  function PutBack(h: HeapId, p: PageId): seq<Action> {
    TakeUp(h, p) + (Waits(h) + [OfDelay(ReinsertLoad(h)), OfDelay(ReinsertCas(h, false))])
  }

  lemma Reinserts(s: State, h: HeapId, b: Block)
    requires h in s.heaps && s.heaps[h].pc == GivenUp && s.heaps[h].hand == Held(b)
    ensures var hp := s.heaps[h]; var s' := Run(s, [OfDelay(ReinsertLoad(h)), OfDelay(ReinsertCas(h, false))]);
            && s'.pages == s.pages && s'.remotes == s.remotes
            && s'.heaps == s.heaps[h := hp.(delayed := [b] + hp.delayed, hand := Empty, pc := Ready)]
  {
    RunTwo(s, OfDelay(ReinsertLoad(h)), OfDelay(ReinsertCas(h, false)));
    ReinsertLoads(s, h);
    ReinsertPushes(Apply(s, OfDelay(ReinsertLoad(h))), h, b, First(s.heaps[h].delayed), false);
  }

  lemma PutsBack(s: State, h: HeapId, b: Block)
    requires HasTaken(s, h, b) && s.pages[b.page].delay == DelayedFreeing
    ensures var hp := s.heaps[h];
            Become(s, Run(s, PutBack(h, b.page)), b.page, s.pages[b.page], h, hp.(taken := hp.taken[1..], delayed := [b] + hp.delayed))
  {
    var back := [OfDelay(ReinsertLoad(h)), OfDelay(ReinsertCas(h, false))];
    RunBoth(s, TakeUp(h, b.page), Waits(h) + back);
    TakesUp(s, h, b);
    var u := Run(s, TakeUp(h, b.page));
    RunBoth(u, Waits(h), back);
    GivesUp(u, h, b.page);
    Reinserts(Run(u, Waits(h)), h, b);
  }

  /** The blocks of a list that was taken over belong to pages of the heap. */
  lemma TakenIsOwn(s: State, h: HeapId)
    requires Spots(s) && Pages(s) && Calm(s, h) && s.heaps[h].taken != [] && s.heaps[h].hand == Empty && !s.heaps[h].phase.Marking?
    requires Chain(s.spot, s.heaps[h].taken, Taken(h))
    ensures HasTaken(s, h, s.heaps[h].taken[0])
  {
    var b := s.heaps[h].taken[0];
    assert multiset(s.heaps[h].taken)[b] >= 1;
    assert SpotOk(s, b, s.spot[b]);
    assert PageOk(s.pages[b.page]);
  }

  lemma TakenFacts(s: State, h: HeapId)
    requires Lists(s) && Heaps(s) && h in s.heaps && s.heaps[h].taken != []
    ensures Chain(s.spot, s.heaps[h].taken, Taken(h)) && !s.heaps[h].phase.Marking?
  {
    assert HeapOk(s.spot, s.pages, h, s.heaps[h]) && HeapLists(s.spot, h, s.heaps[h]);
  }

  lemma ReachableTaken(s: State, h: HeapId)
    requires Reachable(s) && Calm(s, h) && s.heaps[h].taken != [] && s.heaps[h].hand == Empty
    ensures HasTaken(s, h, s.heaps[h].taken[0])
  {
    ReachableOk(s);
    TakenFacts(s, h);
    TakenIsOwn(s, h);
  }

  /**
   `_mi_heap_delayed_free_partial`, one block of the list that was taken over: it becomes free locally and
   the page is in USE_DELAYED again (or stays NEVER_DELAYED); if the page is in DELAYED_FREEING and stays
   there, the block goes back to the delayed list.
   */
  lemma TakenAlone(s: State, h: HeapId)
    requires Reachable(s) && Calm(s, h) && s.heaps[h].taken != [] && s.heaps[h].hand == Empty
    ensures var hp := s.heaps[h]; var b := hp.taken[0];
            && b.page in s.pages
            && var pg := s.pages[b.page];
               if pg.delay == DelayedFreeing
               then Become(s, Run(s, PutBack(h, b.page)), b.page, pg, h, hp.(taken := hp.taken[1..], delayed := [b] + hp.delayed))
               else Become(s, Run(s, FreeTaken(h, b, pg)), b.page,
                           pg.(localFree := [b] + pg.localFree, used := pg.used - 1, delay := if pg.delay == NeverDelayed then NeverDelayed else UseDelayed),
                           h, hp.(taken := hp.taken[1..]))
  {
    ReachableTaken(s, h);
    var b := s.heaps[h].taken[0];
    if s.pages[b.page].delay == DelayedFreeing { PutsBack(s, h, b); } else { FreesTaken(s, h, b); }
  }

  // ---------------------------------------------------------------- pages that come and go

  lemma PageComes(s: State, h: HeapId, p: PageId)
    requires Calm(s, h) && s.heaps[h].phase == Open && p !in s.pages
    ensures Become(s, Apply(s, OfLife(FreshPage(h, p))), p, Page(0, 0, [], [], [], UseDelayed, Some(h), Some(h)), h, s.heaps[h])
  {
  }

  /** `_mi_page_free` of a page with no block in use: it and its blocks are gone. */
  lemma PageGoes(s: State, h: HeapId, p: PageId)
    requires CalmOn(s, h, p) && s.pages[p].used == 0 && !s.heaps[h].phase.Marking?
    ensures var s' := Apply(s, OfLife(ReleasePage(h, p)));
            && s'.pages == s.pages - {p} && s'.heaps == s.heaps && s'.remotes == s.remotes
            && forall b: Block :: b.page == p ==> Count(s', b, Live) == 0
  {
  }

  /** Abandoning, taking over, putting back and attaching a page change who owns it, and nothing else. */
  lemma OwnersChange(s: State, h: HeapId, p: PageId)
    requires Calm(s, h) && p in s.pages
    ensures s.pages[p].owner == Some(h) && s.heaps[h].phase == Done ==>
              Become(s, Apply(s, OfLife(Abandon(h, p))), p, s.pages[p].(xheap := None, owner := None), h, s.heaps[h])
    ensures s.pages[p].owner == None && s.heaps[h].phase == Open ==>
              Become(s, Apply(s, OfLife(Acquire(h, p))), p, s.pages[p].(owner := Some(h)), h, s.heaps[h])
    ensures s.pages[p].owner == Some(h) && s.pages[p].xheap == None ==>
              Become(s, Apply(s, OfLife(GiveBack(h, p))), p, s.pages[p].(owner := None), h, s.heaps[h])
    ensures s.pages[p].owner == Some(h) && s.pages[p].xheap == None && s.heaps[h].phase == Open ==>
              Become(s, Apply(s, OfLife(Attach(h, p))), p, s.pages[p].(xheap := Some(h)), h, s.heaps[h])
  {
  }

  /** The phases of a collect that abandons the heap. */
  lemma PhasesChange(s: State, h: HeapId)
    requires Calm(s, h) && s.heaps[h].taken == [] && s.heaps[h].hand == Empty
    ensures var hp := s.heaps[h];
            && (hp.phase == Open && (forall p :: p in s.pages && s.pages[p].owner == Some(h) ==> s.pages[p].xheap == Some(h)) ==>
                  Apply(s, OfLife(BeginMark(h))) == s.(heaps := s.heaps[h := hp.(phase := Marking(set p | p in s.pages && s.pages[p].xheap == Some(h)))]))
            && (hp.phase == Marking({}) ==> Apply(s, OfLife(EndMark(h))) == s.(heaps := s.heaps[h := hp.(phase := Draining(false))]))
            && (hp.phase == Draining(true) ==> Apply(s, OfLife(EndDrain(h))) == s.(heaps := s.heaps[h := hp.(phase := Done)]))
  {
  }

  /** `mi_heap_page_never_delayed_free`: the page is NEVER_DELAYED, and one page fewer is to be marked. */
  lemma MarkAlone(s: State, h: HeapId, p: PageId)
    requires CalmOn(s, h, p) && s.heaps[h].phase.Marking? && p in s.heaps[h].phase.todo && s.pages[p].delay != DelayedFreeing
    ensures var pg, hp := s.pages[p], s.heaps[h];
            Become(s, Run(s, [OfDelay(SwitchBegin(h, p, ForMark))] + Switch(h, pg, ForMark)), p, pg.(delay := NeverDelayed),
                   h, hp.(phase := Marking(hp.phase.todo - {p})))
  {
    var begin := [OfDelay(SwitchBegin(h, p, ForMark))];
    RunBoth(s, begin, Switch(h, s.pages[p], ForMark));
    RunOne(s, begin[0]);
    SwitchBegins(s, h, p, ForMark);
    SwitchAlone(Apply(s, begin[0]), h, p, ForMark);
  }

  /** `_mi_page_reclaim`: a page without owner comes to the heap, and is in USE_DELAYED again. */
  lemma ReclaimAlone(s: State, h: HeapId, p: PageId)
    requires Reachable(s) && Calm(s, h) && s.heaps[h].phase == Open && p in s.pages && s.pages[p].owner == None
    ensures var pg := s.pages[p];
            Become(s, Run(s, [OfLife(Acquire(h, p)), OfLife(Attach(h, p)), OfDelay(SwitchBegin(h, p, ForReclaim))] + [OfDelay(SwitchLoad(h)), OfDelay(SwitchCas(h, false))]),
                   p, pg.(owner := Some(h), xheap := Some(h), delay := UseDelayed), h, s.heaps[h])
  {
    ReachableOk(s);
    AbandonedIsNever(s, p);
    ReclaimRun(s, h, p);
  }

  lemma AbandonedIsNever(s: State, p: PageId)
    requires Pages(s) && p in s.pages && s.pages[p].owner == None
    ensures s.pages[p].xheap == None && s.pages[p].delay == NeverDelayed
  {
    assert PageOk(s.pages[p]);
  }

  lemma ReclaimRun(s: State, h: HeapId, p: PageId)
    requires Calm(s, h) && s.heaps[h].phase == Open && p in s.pages && s.pages[p].owner == None && s.pages[p].xheap == None && s.pages[p].delay == NeverDelayed
    ensures var pg := s.pages[p];
            Become(s, Run(s, [OfLife(Acquire(h, p)), OfLife(Attach(h, p)), OfDelay(SwitchBegin(h, p, ForReclaim))] + [OfDelay(SwitchLoad(h)), OfDelay(SwitchCas(h, false))]),
                   p, pg.(owner := Some(h), xheap := Some(h), delay := UseDelayed), h, s.heaps[h])
  {
    var begin := [OfLife(Acquire(h, p)), OfLife(Attach(h, p)), OfDelay(SwitchBegin(h, p, ForReclaim))];
    RunBoth(s, begin, [OfDelay(SwitchLoad(h)), OfDelay(SwitchCas(h, false))]);
    RunThree(s, begin[0], begin[1], begin[2]);
    OwnersChange(s, h, p);
    var u := Apply(s, begin[0]);
    OwnersChange(u, h, p);
    var v := Apply(u, begin[1]);
    SwitchBegins(v, h, p, ForReclaim);
    var w := Apply(v, begin[2]);
    SwitchAlone(w, h, p, ForReclaim);
    assert Switch(h, w.pages[p], ForReclaim) == [OfDelay(SwitchLoad(h)), OfDelay(SwitchCas(h, false))];
  }
}
