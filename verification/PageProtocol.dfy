/**
 The remote-free protocol of mimalloc pages (alloc.cpp, page.cpp, heap.cpp), as a transition
 system with one step per atomic operation, for any number of heaps (each driven by one
 owning thread), pages and freeing threads, under sequentially consistent atomics.

 A page's `xthread_free` word is the pair (`threadFree`, `delay`). A heap has the shared list
 `delayed` (`thread_delayed_free`) and the private remains `taken` of a list it took over.
 `spot` is a history variable: it is written with every move of a block and never read by a
 step, except that a client frees only blocks that are live.
 */
module PageProtocol {
  import opened Sequences

  type PageId = nat
  type HeapId = nat
  type ThreadId = nat

  datatype Block = Block(page: PageId, index: nat)

  datatype Delay = UseDelayed | DelayedFreeing | NoDelayed | NeverDelayed

  datatype Page = Page(
    capacity: nat,
    used: int,
    free: seq<Block>,
    localFree: seq<Block>,
    threadFree: seq<Block>,
    delay: Delay,
    xheap: Option<HeapId>,    // `page->xheap`
    owner: Option<HeapId>)    // whose thread may touch the non-atomic fields; None: abandoned

  /** A snapshot of `xthread_free`: what a compare-and-swap compares. */
  datatype Word = Word(head: Option<Block>, delay: Delay)

  /** Where a freeing thread is in `_mi_free_block_mt` (alloc.cpp:526-569). */
  datatype Remote =
    | Quiet
    | Freeing(b: Block)                       // about to load `xthread_free`
    | Loaded(b: Block, seen: Word)            // about to CAS it
    | Delaying(b: Block)                      // set DELAYED_FREEING; about to load `xheap`
    | HeapKnown(b: Block, heap: HeapId)       // about to load the heap's list head
    | HeapSeen(b: Block, heap: HeapId, dhead: Option<Block>)  // about to CAS the heap's list
    | Resetting(b: Block)                     // block handed over; about to load `xthread_free`
    | ResetLoaded(b: Block, seen: Word)       // about to CAS NO_DELAYED

  /** Why the owner runs `_mi_page_try_use_delayed_free`. */
  datatype Purpose = ForDelayed | ForMark | ForReclaim

  datatype HeapPc =
    | Ready
    | TakeLoaded(first: Block)                                                 // page.cpp:368
    | Switching(p: PageId, purpose: Purpose, tries: nat)                 // page.cpp:177
    | SwitchLoaded(p: PageId, purpose: Purpose, tries: nat, seen: Word)  // page.cpp:196
    | CollectLoaded(p: PageId, seen: Word)                                // page.cpp:218
    | Splicing(p: PageId)                                                 // page.cpp:225
    | GivenUp                                                             // page.cpp:385
    | Reinserting(dhead: Option<Block>)                                   // page.cpp:389

  /** The delayed block in process: taken off the list, then cleared for a local free. */
  datatype Hand = Empty | Held(b: Block) | Cleared(b: Block)

  /** `mi_heap_collect_ex` in MI_ABANDON mode: mark all pages, drain, then dismantle. */
  datatype Phase = Open | Marking(todo: set<PageId>) | Draining(swept: bool) | Done

  datatype Heap = Heap(
    delayed: seq<Block>,
    taken: seq<Block>,
    collected: seq<Block>,    // chain taken off a page's thread-free list, not yet spliced
    hand: Hand,
    pc: HeapPc,
    phase: Phase)

  datatype Spot =
    | Live
    | OnFree(p: PageId)
    | OnLocal(p: PageId)
    | OnThread(p: PageId)
    | Collected(h: HeapId)
    | Delayed(h: HeapId)
    | Taken(h: HeapId)
    | InHand(h: HeapId)       // taken off the list, the page's flag not checked yet
    | ClearedBy(h: HeapId)    // flag checked: the owner may free it locally
    | WithRemote(t: ThreadId)

  datatype State = State(
    pages: map<PageId, Page>,
    heaps: map<HeapId, Heap>,
    remotes: map<ThreadId, Remote>,
    spot: map<Block, Spot>)

  // ---------------------------------------------------------------- small helpers

  function WordOf(pg: Page): Word {
    Word(First(pg.threadFree), pg.delay)
  }

  /** Every block at `from` moves to `to`. */
  function Relabel(spot: map<Block, Spot>, from: Spot, to: Spot): map<Block, Spot> {
    map b | b in spot :: if spot[b] == from then to else spot[b]
  }

  function Want(purpose: Purpose): Delay {
    if purpose == ForMark then NeverDelayed else UseDelayed
  }

  function SetPage(s: State, p: PageId, pg: Page): State {
    s.(pages := s.pages[p := pg])
  }

  function SetHeap(s: State, h: HeapId, hp: Heap): State {
    s.(heaps := s.heaps[h := hp])
  }

  function SetRemote(s: State, t: ThreadId, r: Remote): State {
    s.(remotes := s.remotes[t := r])
  }

  predicate Owns(s: State, h: HeapId, p: PageId) {
    h in s.heaps && p in s.pages && s.pages[p].owner == Some(h)
  }

  predicate AtRest(s: State, h: HeapId) {
    h in s.heaps && s.heaps[h].pc == Ready
  }

  // ---------------------------------------------------------------- steps

  /** The pages visited by `mi_heap_visit_pages`: those whose `xheap` is the heap. */
  function PagesOf(s: State, h: HeapId): set<PageId> {
    set p | p in s.pages && s.pages[p].xheap == Some(h)
  }

  ghost predicate FreshBlocks(pg: Page, p: PageId, blocks: seq<Block>) {
    && NoDup(blocks)
    && forall b: Block :: b in blocks <==> b.page == p && pg.capacity <= b.index < pg.capacity + |blocks|
  }

  ghost predicate CanStartFree(s: State, t: ThreadId, b: Block) {
    t in s.remotes && s.remotes[t] == Quiet && b in s.spot && s.spot[b] == Live
  }

  ghost function DoStartFree(s: State, t: ThreadId, b: Block): State
    requires CanStartFree(s, t, b)
  {
    SetRemote(s.(spot := s.spot[b := WithRemote(t)]), t, Freeing(b))
  }

  ghost predicate CanLoadWord(s: State, t: ThreadId) {
    t in s.remotes && s.remotes[t].Freeing? && s.remotes[t].b.page in s.pages
  }

  ghost function DoLoadWord(s: State, t: ThreadId): State
    requires CanLoadWord(s, t)
  {
    var b := s.remotes[t].b;
      SetRemote(s, t, Loaded(b, WordOf(s.pages[b.page])))
  }

  ghost predicate CanCasWord(s: State, t: ThreadId, spurious: bool) {
    t in s.remotes && s.remotes[t].Loaded? && s.remotes[t].b.page in s.pages
  }

  ghost function DoCasWord(s: State, t: ThreadId, spurious: bool): State
    requires CanCasWord(s, t, spurious)
  {
    ApplyCasWord(s, t, spurious)
  }

  ghost predicate CanLoadHeap(s: State, t: ThreadId) {
    && t in s.remotes && s.remotes[t].Delaying? && s.remotes[t].b.page in s.pages
      && s.pages[s.remotes[t].b.page].xheap.Some?
  }

  ghost function DoLoadHeap(s: State, t: ThreadId): State
    requires CanLoadHeap(s, t)
  {
    var b := s.remotes[t].b;
      SetRemote(s, t, HeapKnown(b, s.pages[b.page].xheap.value))
  }

  ghost predicate CanLoadDelayed(s: State, t: ThreadId) {
    t in s.remotes && s.remotes[t].HeapKnown? && s.remotes[t].heap in s.heaps
  }

  ghost function DoLoadDelayed(s: State, t: ThreadId): State
    requires CanLoadDelayed(s, t)
  {
    var r := s.remotes[t];
      SetRemote(s, t, HeapSeen(r.b, r.heap, First(s.heaps[r.heap].delayed)))
  }

  ghost predicate CanCasDelayed(s: State, t: ThreadId, spurious: bool) {
    t in s.remotes && s.remotes[t].HeapSeen? && s.remotes[t].heap in s.heaps
  }

  ghost function DoCasDelayed(s: State, t: ThreadId, spurious: bool): State
    requires CanCasDelayed(s, t, spurious)
  {
    ApplyCasDelayed(s, t, spurious)
  }

  ghost predicate CanLoadReset(s: State, t: ThreadId) {
    t in s.remotes && s.remotes[t].Resetting? && s.remotes[t].b.page in s.pages
  }

  ghost function DoLoadReset(s: State, t: ThreadId): State
    requires CanLoadReset(s, t)
  {
    var b := s.remotes[t].b;
      SetRemote(s, t, ResetLoaded(b, WordOf(s.pages[b.page])))
  }

  ghost predicate CanCasReset(s: State, t: ThreadId, spurious: bool) {
    t in s.remotes && s.remotes[t].ResetLoaded? && s.remotes[t].b.page in s.pages
  }

  ghost function DoCasReset(s: State, t: ThreadId, spurious: bool): State
    requires CanCasReset(s, t, spurious)
  {
    ApplyCasReset(s, t, spurious)
  }

  ghost predicate CanMalloc(s: State, h: HeapId, p: PageId) {
    Owns(s, h, p) && AtRest(s, h) && s.pages[p].free != []
  }

  ghost function DoMalloc(s: State, h: HeapId, p: PageId): State
    requires CanMalloc(s, h, p)
  {
    var pg := s.pages[p];
      SetPage(s.(spot := s.spot[pg.free[0] := Live]), p, pg.(used := pg.used + 1, free := pg.free[1..]))
  }

  ghost predicate CanLocalFree(s: State, h: HeapId, b: Block) {
    Owns(s, h, b.page) && AtRest(s, h) && b in s.spot && s.spot[b] == Live
  }

  ghost function DoLocalFree(s: State, h: HeapId, b: Block): State
    requires CanLocalFree(s, h, b)
  {
    PushLocal(s, b)
  }

  ghost predicate CanExtend(s: State, h: HeapId, p: PageId, blocks: seq<Block>) {
    Owns(s, h, p) && AtRest(s, h) && FreshBlocks(s.pages[p], p, blocks)
  }

  ghost function DoExtend(s: State, h: HeapId, p: PageId, blocks: seq<Block>): State
    requires CanExtend(s, h, p, blocks)
  {
    var pg := s.pages[p];
      SetPage(s.(spot := s.spot + (map b | b in blocks :: OnFree(p))), p,
              pg.(capacity := pg.capacity + |blocks|, free := blocks + pg.free))
  }

  ghost predicate CanCollectLoad(s: State, h: HeapId, p: PageId) {
    Owns(s, h, p) && AtRest(s, h)
  }

  ghost function DoCollectLoad(s: State, h: HeapId, p: PageId): State
    requires CanCollectLoad(s, h, p)
  {
    SetHeap(s, h, s.heaps[h].(pc := CollectLoaded(p, WordOf(s.pages[p]))))
  }

  ghost predicate CanCollectCas(s: State, h: HeapId, spurious: bool) {
    h in s.heaps && s.heaps[h].pc.CollectLoaded? && Owns(s, h, s.heaps[h].pc.p)
  }

  ghost function DoCollectCas(s: State, h: HeapId, spurious: bool): State
    requires CanCollectCas(s, h, spurious)
  {
    ApplyCollectCas(s, h, spurious)
  }

  ghost predicate CanSplice(s: State, h: HeapId) {
    h in s.heaps && s.heaps[h].pc.Splicing? && Owns(s, h, s.heaps[h].pc.p)
  }

  ghost function DoSplice(s: State, h: HeapId): State
    requires CanSplice(s, h)
  {
    ApplySplice(s, h)
  }

  ghost predicate CanMigrateLocal(s: State, h: HeapId, p: PageId, force: bool) {
    Owns(s, h, p) && AtRest(s, h) && s.pages[p].localFree != [] && (s.pages[p].free == [] || force)
  }

  ghost function DoMigrateLocal(s: State, h: HeapId, p: PageId, force: bool): State
    requires CanMigrateLocal(s, h, p, force)
  {
    var pg := s.pages[p];
      SetPage(s.(spot := Relabel(s.spot, OnLocal(p), OnFree(p))), p,
              pg.(free := pg.localFree + pg.free, localFree := []))
  }

  ghost predicate CanTakeLoad(s: State, h: HeapId) {
    AtRest(s, h) && !s.heaps[h].phase.Marking? && s.heaps[h].taken == [] && s.heaps[h].hand == Empty
  }

  ghost function DoTakeLoad(s: State, h: HeapId): State
    requires CanTakeLoad(s, h)
  {
    SetHeap(s, h, TakeSeen(s.heaps[h]))
  }

  ghost predicate CanTakeCas(s: State, h: HeapId, spurious: bool) {
    h in s.heaps && s.heaps[h].pc.TakeLoaded?
  }

  ghost function DoTakeCas(s: State, h: HeapId, spurious: bool): State
    requires CanTakeCas(s, h, spurious)
  {
    ApplyTakeCas(s, h, spurious)
  }

  ghost predicate CanNextTaken(s: State, h: HeapId) {
    AtRest(s, h) && s.heaps[h].hand == Empty && s.heaps[h].taken != []
  }

  ghost function DoNextTaken(s: State, h: HeapId): State
    requires CanNextTaken(s, h)
  {
    var hp := s.heaps[h];
      SetHeap(s.(spot := s.spot[hp.taken[0] := InHand(h)]), h, hp.(hand := Held(hp.taken[0]), taken := hp.taken[1..]))
  }

  ghost predicate CanSwitchBegin(s: State, h: HeapId, p: PageId, purpose: Purpose) {
    && Owns(s, h, p) && AtRest(s, h)
      && match purpose {
           case ForDelayed => s.heaps[h].hand.Held? && s.heaps[h].hand.b.page == p && !s.heaps[h].phase.Marking?
           case ForMark => s.heaps[h].phase.Marking? && p in s.heaps[h].phase.todo
           case ForReclaim => s.heaps[h].phase == Open && s.pages[p].xheap == Some(h)
         }
  }

  ghost function DoSwitchBegin(s: State, h: HeapId, p: PageId, purpose: Purpose): State
    requires CanSwitchBegin(s, h, p, purpose)
  {
    SetHeap(s, h, s.heaps[h].(pc := Switching(p, purpose, 0)))
  }

  ghost predicate CanSwitchLoad(s: State, h: HeapId) {
    h in s.heaps && s.heaps[h].pc.Switching? && Owns(s, h, s.heaps[h].pc.p)
  }

  ghost function DoSwitchLoad(s: State, h: HeapId): State
    requires CanSwitchLoad(s, h)
  {
    ApplySwitchLoad(s, h)
  }

  ghost predicate CanSwitchCas(s: State, h: HeapId, spurious: bool) {
    h in s.heaps && s.heaps[h].pc.SwitchLoaded? && Owns(s, h, s.heaps[h].pc.p)
  }

  ghost function DoSwitchCas(s: State, h: HeapId, spurious: bool): State
    requires CanSwitchCas(s, h, spurious)
  {
    ApplySwitchCas(s, h, spurious)
  }

  ghost predicate CanFreeCleared(s: State, h: HeapId) {
    AtRest(s, h) && s.heaps[h].hand.Cleared? && Owns(s, h, s.heaps[h].hand.b.page)
  }

  ghost function DoFreeCleared(s: State, h: HeapId): State
    requires CanFreeCleared(s, h)
  {
    var hp := s.heaps[h];
      SetHeap(PushLocal(s, hp.hand.b), h, hp.(hand := Empty))
  }

  ghost predicate CanReinsertLoad(s: State, h: HeapId) {
    h in s.heaps && s.heaps[h].pc.GivenUp?
  }

  ghost function DoReinsertLoad(s: State, h: HeapId): State
    requires CanReinsertLoad(s, h)
  {
    SetHeap(s, h, s.heaps[h].(pc := Reinserting(First(s.heaps[h].delayed))))
  }

  ghost predicate CanReinsertCas(s: State, h: HeapId, spurious: bool) {
    h in s.heaps && s.heaps[h].pc.Reinserting? && s.heaps[h].hand.Held?
  }

  ghost function DoReinsertCas(s: State, h: HeapId, spurious: bool): State
    requires CanReinsertCas(s, h, spurious)
  {
    var hp := s.heaps[h];
      if spurious || hp.pc.dhead != First(hp.delayed) then
        SetHeap(s, h, hp.(pc := Reinserting(First(hp.delayed))))
      else
        SetHeap(s.(spot := s.spot[hp.hand.b := Delayed(h)]), h,
                hp.(delayed := [hp.hand.b] + hp.delayed, hand := Empty, pc := Ready))
  }

  ghost predicate CanFreshPage(s: State, h: HeapId, p: PageId) {
    AtRest(s, h) && s.heaps[h].phase == Open && p !in s.pages
  }

  ghost function DoFreshPage(s: State, h: HeapId, p: PageId): State
    requires CanFreshPage(s, h, p)
  {
    SetPage(s, p, Page(0, 0, [], [], [], UseDelayed, Some(h), Some(h)))
  }

  ghost predicate CanReleasePage(s: State, h: HeapId, p: PageId) {
    Owns(s, h, p) && AtRest(s, h) && s.pages[p].used == 0 && !s.heaps[h].phase.Marking?
  }

  ghost function DoReleasePage(s: State, h: HeapId, p: PageId): State
    requires CanReleasePage(s, h, p)
  {
    s.(pages := s.pages - {p}, spot := map b | b in s.spot && b.page != p :: s.spot[b])
  }

  ghost predicate CanBeginMark(s: State, h: HeapId) {
    && AtRest(s, h) && s.heaps[h].phase == Open && s.heaps[h].taken == [] && s.heaps[h].hand == Empty
      && forall p :: Owns(s, h, p) ==> s.pages[p].xheap == Some(h)
  }

  ghost function DoBeginMark(s: State, h: HeapId): State
    requires CanBeginMark(s, h)
  {
    SetHeap(s, h, s.heaps[h].(phase := Marking(PagesOf(s, h))))
  }

  ghost predicate CanEndMark(s: State, h: HeapId) {
    AtRest(s, h) && s.heaps[h].phase == Marking({})
  }

  ghost function DoEndMark(s: State, h: HeapId): State
    requires CanEndMark(s, h)
  {
    SetHeap(s, h, s.heaps[h].(phase := Draining(false)))
  }

  ghost predicate CanEndDrain(s: State, h: HeapId) {
    AtRest(s, h) && s.heaps[h].phase == Draining(true) && s.heaps[h].taken == [] && s.heaps[h].hand == Empty
  }

  ghost function DoEndDrain(s: State, h: HeapId): State
    requires CanEndDrain(s, h)
  {
    SetHeap(s, h, s.heaps[h].(phase := Done))
  }

  ghost predicate CanAbandon(s: State, h: HeapId, p: PageId) {
    Owns(s, h, p) && AtRest(s, h) && s.heaps[h].phase == Done
  }

  ghost function DoAbandon(s: State, h: HeapId, p: PageId): State
    requires CanAbandon(s, h, p)
  {
    SetPage(s, p, s.pages[p].(xheap := None, owner := None))
  }

  ghost predicate CanAcquire(s: State, h: HeapId, p: PageId) {
    AtRest(s, h) && s.heaps[h].phase == Open && p in s.pages && s.pages[p].owner == None
  }

  ghost function DoAcquire(s: State, h: HeapId, p: PageId): State
    requires CanAcquire(s, h, p)
  {
    SetPage(s, p, s.pages[p].(owner := Some(h)))
  }

  ghost predicate CanGiveBack(s: State, h: HeapId, p: PageId) {
    Owns(s, h, p) && AtRest(s, h) && s.pages[p].xheap == None
  }

  ghost function DoGiveBack(s: State, h: HeapId, p: PageId): State
    requires CanGiveBack(s, h, p)
  {
    SetPage(s, p, s.pages[p].(owner := None))
  }

  ghost predicate CanAttach(s: State, h: HeapId, p: PageId) {
    Owns(s, h, p) && AtRest(s, h) && s.heaps[h].phase == Open && s.pages[p].xheap == None
  }

  ghost function DoAttach(s: State, h: HeapId, p: PageId): State
    requires CanAttach(s, h, p)
  {
    SetPage(s, p, s.pages[p].(xheap := Some(h)))
  }

  /** alloc.cpp:530-544: claim the delayed path, or push on the page's thread-free list. */
  function ApplyCasWord(s: State, t: ThreadId, spurious: bool): State
    requires t in s.remotes && s.remotes[t].Loaded? && s.remotes[t].b.page in s.pages
  {
    var Loaded(b, seen) := s.remotes[t];
    var pg := s.pages[b.page];
    if spurious || seen != WordOf(pg) then SetRemote(s, t, Loaded(b, WordOf(pg)))
    else if seen.delay == UseDelayed then Claim(s, t, b)
    else PushThread(s, t, b)
  }

  function Claim(s: State, t: ThreadId, b: Block): State
    requires b.page in s.pages
  {
    SetPage(SetRemote(s, t, Delaying(b)), b.page, s.pages[b.page].(delay := DelayedFreeing))
  }

  function PushThread(s: State, t: ThreadId, b: Block): State
    requires b.page in s.pages
  {
    var pg := s.pages[b.page];
    SetPage(SetRemote(s.(spot := s.spot[b := OnThread(b.page)]), t, Quiet), b.page,
            pg.(threadFree := [b] + pg.threadFree))
  }

  /** alloc.cpp:554-558: push on the heap's delayed list. */
  function ApplyCasDelayed(s: State, t: ThreadId, spurious: bool): State
    requires t in s.remotes && s.remotes[t].HeapSeen? && s.remotes[t].heap in s.heaps
  {
    var HeapSeen(b, h, dhead) := s.remotes[t];
    if spurious || dhead != First(s.heaps[h].delayed) then
      SetRemote(s, t, HeapSeen(b, h, First(s.heaps[h].delayed)))
    else
      PushDelayed(s, t, b, h)
  }

  function PushDelayed(s: State, t: ThreadId, b: Block, h: HeapId): State
    requires h in s.heaps
  {
    SetHeap(SetRemote(s.(spot := s.spot[b := Delayed(h)]), t, Resetting(b)), h,
            s.heaps[h].(delayed := [b] + s.heaps[h].delayed))
  }

  /** alloc.cpp:562-568: leave DELAYED_FREEING. */
  function ApplyCasReset(s: State, t: ThreadId, spurious: bool): State
    requires t in s.remotes && s.remotes[t].ResetLoaded? && s.remotes[t].b.page in s.pages
  {
    var ResetLoaded(b, seen) := s.remotes[t];
    var pg := s.pages[b.page];
    if spurious || seen != WordOf(pg) then SetRemote(s, t, ResetLoaded(b, WordOf(pg)))
    else Reset(s, t, b)
  }

  function Reset(s: State, t: ThreadId, b: Block): State
    requires b.page in s.pages
  {
    SetPage(SetRemote(s, t, Quiet), b.page, s.pages[b.page].(delay := NoDelayed))
  }

  /** alloc.cpp:589-591: the owner's own free. */
  function PushLocal(s: State, b: Block): State
    requires b.page in s.pages
  {
    var pg := s.pages[b.page];
    SetPage(s.(spot := s.spot[b := OnLocal(b.page)]), b.page,
            pg.(localFree := [b] + pg.localFree, used := pg.used - 1))
  }

  /** page.cpp:213-222: take the whole thread-free list, keeping the flag. */
  function ApplyCollectCas(s: State, h: HeapId, spurious: bool): State
    requires h in s.heaps && s.heaps[h].pc.CollectLoaded? && Owns(s, h, s.heaps[h].pc.p)
  {
    var hp := s.heaps[h];
    var p := hp.pc.p;
    if spurious || hp.pc.seen != WordOf(s.pages[p]) then
      SetHeap(s, h, hp.(pc := CollectLoaded(p, WordOf(s.pages[p]))))
    else if s.pages[p].threadFree == [] then
      SetHeap(s, h, hp.(pc := Ready))
    else
      TakeThreadFree(s, h, p)
  }

  function TakeThreadFree(s: State, h: HeapId, p: PageId): State
    requires h in s.heaps && p in s.pages
  {
    var pg := s.pages[p];
    SetPage(SetHeap(s.(spot := Relabel(s.spot, OnThread(p), Collected(h))), h,
                    s.heaps[h].(collected := pg.threadFree, pc := Splicing(p))), p,
            pg.(threadFree := []))
  }

  /** page.cpp:225-246: count the chain; splice it unless it is longer than the capacity. */
  function ApplySplice(s: State, h: HeapId): State
    requires h in s.heaps && s.heaps[h].pc.Splicing? && Owns(s, h, s.heaps[h].pc.p)
  {
    var hp := s.heaps[h];
    if |hp.collected| > s.pages[hp.pc.p].capacity then
      SetHeap(s, h, hp.(pc := Ready))   // "corrupted thread-free list"
    else
      SpliceLocal(s, h, hp.pc.p)
  }

  function SpliceLocal(s: State, h: HeapId, p: PageId): State
    requires h in s.heaps && p in s.pages
  {
    var hp, pg := s.heaps[h], s.pages[p];
    SetPage(SetHeap(s.(spot := Relabel(s.spot, Collected(h), OnLocal(p))), h,
                    hp.(collected := [], pc := Ready)), p,
            pg.(localFree := hp.collected + pg.localFree, used := pg.used - |hp.collected|))
  }

  /** While draining, seeing or making the delayed list empty completes a sweep. */
  function Sweep(phase: Phase): Phase {
    if phase.Draining? then Draining(true) else phase
  }

  /** page.cpp:368-369: an empty list needs no CAS. */
  function TakeSeen(hp: Heap): Heap {
    if hp.delayed == [] then hp.(pc := Ready, phase := Sweep(hp.phase))
    else hp.(pc := TakeLoaded(hp.delayed[0]))
  }

  /** page.cpp:369-371: take the whole delayed list. */
  function ApplyTakeCas(s: State, h: HeapId, spurious: bool): State
    requires h in s.heaps && s.heaps[h].pc.TakeLoaded?
  {
    var hp := s.heaps[h];
    if spurious || Some(hp.pc.first) != First(hp.delayed) then SetHeap(s, h, TakeSeen(hp))
    else TakeDelayed(s, h)
  }

  function TakeDelayed(s: State, h: HeapId): State
    requires h in s.heaps
  {
    var hp := s.heaps[h];
    SetHeap(s.(spot := Relabel(s.spot, Delayed(h), Taken(h))), h,
            hp.(taken := hp.delayed, delayed := [], pc := Ready, phase := Sweep(hp.phase)))
  }

  /** What follows a successful `_mi_page_try_use_delayed_free`. */
  function Switched(s: State, h: HeapId, p: PageId, purpose: Purpose): State
    requires h in s.heaps
  {
    var hp := s.heaps[h].(pc := Ready);
    match purpose
    case ForDelayed =>
      if hp.hand.Held? then
        SetHeap(s.(spot := s.spot[hp.hand.b := ClearedBy(h)]), h, hp.(hand := Cleared(hp.hand.b)))
      else
        SetHeap(s, h, hp)
    case ForMark =>
      SetHeap(s, h, hp.(phase := if hp.phase.Marking? then Marking(hp.phase.todo - {p}) else hp.phase))
    case ForReclaim => SetHeap(s, h, hp)
  }

  /** page.cpp:177-195: load, then give up, retry, stop early, or go on to the CAS. */
  function ApplySwitchLoad(s: State, h: HeapId): State
    requires h in s.heaps && s.heaps[h].pc.Switching? && Owns(s, h, s.heaps[h].pc.p)
  {
    var hp := s.heaps[h];
    var Switching(p, purpose, tries) := hp.pc;
    var pg := s.pages[p];
    if pg.delay == DelayedFreeing then
      if tries >= 4 then
        // returns false: reinsert the block, or (in the outer loop of page.cpp:163) try again
        SetHeap(s, h, hp.(pc := if purpose == ForDelayed then GivenUp
                                else Switching(p, purpose, 0)))
      else
        SetHeap(s, h, hp.(pc := Switching(p, purpose, tries + 1)))
    else if pg.delay == Want(purpose) then
      Switched(s, h, p, purpose)
    else if purpose != ForReclaim && pg.delay == NeverDelayed then
      Switched(s, h, p, purpose)
    else
      SetHeap(s, h, hp.(pc := SwitchLoaded(p, purpose, tries, WordOf(pg))))
  }

  /** page.cpp:196: the CAS that sets the wanted flag. */
  function ApplySwitchCas(s: State, h: HeapId, spurious: bool): State
    requires h in s.heaps && s.heaps[h].pc.SwitchLoaded? && Owns(s, h, s.heaps[h].pc.p)
  {
    var hp := s.heaps[h];
    var SwitchLoaded(p, purpose, tries, seen) := hp.pc;
    var pg := s.pages[p];
    if spurious || seen != WordOf(pg) then
      SetHeap(s, h, hp.(pc := Switching(p, purpose, tries)))
    else
      Switched(SetPage(s, p, pg.(delay := Want(purpose))), h, p, purpose)
  }

  /** A freeing thread's steps (alloc.cpp:526-569). */
  datatype RemoteStep =
    | StartFree(t: ThreadId, b: Block)
    | LoadWord(t: ThreadId)
    | CasWord(t: ThreadId, spurious: bool)
    | LoadHeap(t: ThreadId)
    | LoadDelayed(t: ThreadId)
    | CasDelayed(t: ThreadId, spurious: bool)
    | LoadReset(t: ThreadId)
    | CasReset(t: ThreadId, spurious: bool)

  ghost function ApplyRemoteStep(s: State, a: RemoteStep): State {
    match a
    case StartFree(t, b) => if CanStartFree(s, t, b) then DoStartFree(s, t, b) else s
    case LoadWord(t) => if CanLoadWord(s, t) then DoLoadWord(s, t) else s
    case CasWord(t, spurious) => if CanCasWord(s, t, spurious) then DoCasWord(s, t, spurious) else s
    case LoadHeap(t) => if CanLoadHeap(s, t) then DoLoadHeap(s, t) else s
    case LoadDelayed(t) => if CanLoadDelayed(s, t) then DoLoadDelayed(s, t) else s
    case CasDelayed(t, spurious) => if CanCasDelayed(s, t, spurious) then DoCasDelayed(s, t, spurious) else s
    case LoadReset(t) => if CanLoadReset(s, t) then DoLoadReset(s, t) else s
    case CasReset(t, spurious) => if CanCasReset(s, t, spurious) then DoCasReset(s, t, spurious) else s
  }

  /** The owner's steps inside a page. */
  datatype PageStep =
    | Malloc(h: HeapId, p: PageId)
    | LocalFree(h: HeapId, b: Block)
    | Extend(h: HeapId, p: PageId, blocks: seq<Block>)
    | CollectLoad(h: HeapId, p: PageId)
    | CollectCas(h: HeapId, spurious: bool)
    | Splice(h: HeapId)
    | MigrateLocal(h: HeapId, p: PageId, force: bool)

  ghost function ApplyPageStep(s: State, a: PageStep): State {
    match a
    case Malloc(h, p) => if CanMalloc(s, h, p) then DoMalloc(s, h, p) else s
    case LocalFree(h, b) => if CanLocalFree(s, h, b) then DoLocalFree(s, h, b) else s
    case Extend(h, p, blocks) => if CanExtend(s, h, p, blocks) then DoExtend(s, h, p, blocks) else s
    case CollectLoad(h, p) => if CanCollectLoad(s, h, p) then DoCollectLoad(s, h, p) else s
    case CollectCas(h, spurious) => if CanCollectCas(s, h, spurious) then DoCollectCas(s, h, spurious) else s
    case Splice(h) => if CanSplice(s, h) then DoSplice(s, h) else s
    case MigrateLocal(h, p, force) => if CanMigrateLocal(s, h, p, force) then DoMigrateLocal(s, h, p, force) else s
  }

  /** The owner's steps on delayed frees (page.cpp:161-199, 365-394). */
  datatype DelayStep =
    | TakeLoad(h: HeapId)
    | TakeCas(h: HeapId, spurious: bool)
    | NextTaken(h: HeapId)
    | SwitchBegin(h: HeapId, p: PageId, purpose: Purpose)
    | SwitchLoad(h: HeapId)
    | SwitchCas(h: HeapId, spurious: bool)
    | FreeCleared(h: HeapId)
    | ReinsertLoad(h: HeapId)
    | ReinsertCas(h: HeapId, spurious: bool)

  ghost function ApplyDelayStep(s: State, a: DelayStep): State {
    match a
    case TakeLoad(h) => if CanTakeLoad(s, h) then DoTakeLoad(s, h) else s
    case TakeCas(h, spurious) => if CanTakeCas(s, h, spurious) then DoTakeCas(s, h, spurious) else s
    case NextTaken(h) => if CanNextTaken(s, h) then DoNextTaken(s, h) else s
    case SwitchBegin(h, p, purpose) => if CanSwitchBegin(s, h, p, purpose) then DoSwitchBegin(s, h, p, purpose) else s
    case SwitchLoad(h) => if CanSwitchLoad(s, h) then DoSwitchLoad(s, h) else s
    case SwitchCas(h, spurious) => if CanSwitchCas(s, h, spurious) then DoSwitchCas(s, h, spurious) else s
    case FreeCleared(h) => if CanFreeCleared(s, h) then DoFreeCleared(s, h) else s
    case ReinsertLoad(h) => if CanReinsertLoad(s, h) then DoReinsertLoad(s, h) else s
    case ReinsertCas(h, spurious) => if CanReinsertCas(s, h, spurious) then DoReinsertCas(s, h, spurious) else s
  }

  /** Pages coming and going; abandoning a heap (heap.cpp:103-173). */
  datatype LifeStep =
    | FreshPage(h: HeapId, p: PageId)
    | ReleasePage(h: HeapId, p: PageId)
    | BeginMark(h: HeapId)
    | EndMark(h: HeapId)
    | EndDrain(h: HeapId)
    | Abandon(h: HeapId, p: PageId)
    | Acquire(h: HeapId, p: PageId)
    | GiveBack(h: HeapId, p: PageId)
    | Attach(h: HeapId, p: PageId)

  ghost function ApplyLifeStep(s: State, a: LifeStep): State {
    match a
    case FreshPage(h, p) => if CanFreshPage(s, h, p) then DoFreshPage(s, h, p) else s
    case ReleasePage(h, p) => if CanReleasePage(s, h, p) then DoReleasePage(s, h, p) else s
    case BeginMark(h) => if CanBeginMark(s, h) then DoBeginMark(s, h) else s
    case EndMark(h) => if CanEndMark(s, h) then DoEndMark(s, h) else s
    case EndDrain(h) => if CanEndDrain(s, h) then DoEndDrain(s, h) else s
    case Abandon(h, p) => if CanAbandon(s, h, p) then DoAbandon(s, h, p) else s
    case Acquire(h, p) => if CanAcquire(s, h, p) then DoAcquire(s, h, p) else s
    case GiveBack(h, p) => if CanGiveBack(s, h, p) then DoGiveBack(s, h, p) else s
    case Attach(h, p) => if CanAttach(s, h, p) then DoAttach(s, h, p) else s
  }

  datatype Action = OfRemote(remote: RemoteStep) | OfPage(page: PageStep) | OfDelay(delay: DelayStep) | OfLife(life: LifeStep)

  /** One step; an action that is not possible in `s` leaves `s` as it is. */
  ghost function Apply(s: State, a: Action): State {
    match a
    case OfRemote(r) => ApplyRemoteStep(s, r)
    case OfPage(p) => ApplyPageStep(s, p)
    case OfDelay(d) => ApplyDelayStep(s, d)
    case OfLife(l) => ApplyLifeStep(s, l)
  }
}
