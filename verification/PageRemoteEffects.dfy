/**
 What a free of a block of another thread's page does (alloc.cpp:491-569), read off the lists, the flag
 and the program points: step by step, on its own from beginning to end, and within any run.
 */
module PageRemoteEffects {
  import opened Sequences
  import opened PageProtocol
  import opened PageInvariant
  import opened PageSafety

  // ---------------------------------------------------------------- single steps

  /** The word that was read is the page's word still: the head of the list, and the flag. */
  predicate Sees(s: State, b: Block, seen: Word) {
    b.page in s.pages && seen.head == First(s.pages[b.page].threadFree) && seen.delay == s.pages[b.page].delay
  }

  ghost predicate At(s: State, t: ThreadId, r: Remote) {
    t in s.remotes && s.remotes[t] == r
  }

  /** Nothing but the program point of `t` changes. */
  ghost predicate OnlyMoves(s: State, s': State, t: ThreadId, r: Remote) {
    s' == s.(remotes := s.remotes[t := r])
  }

  /** Pages other than `p` do not change; `p` keeps its heap, its owner and the owner's lists. */
  ghost predicate OnlyWord(s: State, s': State, p: PageId) {
    && p in s.pages && p in s'.pages
    && s'.pages == s.pages[p := s.pages[p].(threadFree := s'.pages[p].threadFree, delay := s'.pages[p].delay)]
  }

  /** The first compare-and-swap: under USE_DELAYED it takes the delayed path, otherwise it pushes on the page's list. */
  lemma CasWordDecides(s: State, t: ThreadId, b: Block, seen: Word)
    requires At(s, t, Loaded(b, seen)) && Sees(s, b, seen) && Count(s, b, OnThread(b.page)) == 0
    ensures var s' := Apply(s, OfRemote(CasWord(t, false)));
            && OnlyWord(s, s', b.page) && s'.heaps == s.heaps
            && var pg, pg' := s.pages[b.page], s'.pages[b.page];
               if pg.delay == UseDelayed
               then At(s', t, Delaying(b)) && pg'.delay == DelayedFreeing && pg'.threadFree == pg.threadFree && Count(s', b, WithRemote(t)) == 1
               else At(s', t, Quiet) && pg'.delay == pg.delay && pg'.threadFree == [b] + pg.threadFree && Count(s', b, OnThread(b.page)) == 1
  {
    assert WordOf(s.pages[b.page]) == seen;
  }

  /** It fails if the word has changed, or for no reason; then the thread reads anew. */
  lemma CasWordReloads(s: State, t: ThreadId, b: Block, seen: Word, spurious: bool)
    requires At(s, t, Loaded(b, seen)) && b.page in s.pages && (spurious || !Sees(s, b, seen))
    ensures OnlyMoves(s, Apply(s, OfRemote(CasWord(t, spurious))), t, Loaded(b, Word(First(s.pages[b.page].threadFree), s.pages[b.page].delay)))
  {
  }

  /** The push on the heap's list, if its head is as it was read. */
  lemma CasDelayedPushes(s: State, t: ThreadId, b: Block, h: HeapId, dhead: Option<Block>)
    requires At(s, t, HeapSeen(b, h, dhead)) && h in s.heaps && dhead == First(s.heaps[h].delayed) && Count(s, b, Delayed(h)) == 0
    ensures var s' := Apply(s, OfRemote(CasDelayed(t, false)));
            && At(s', t, Resetting(b)) && s'.pages == s.pages
            && s'.heaps == s.heaps[h := s.heaps[h].(delayed := [b] + s.heaps[h].delayed)]
            && Count(s', b, Delayed(h)) == 1 && Count(s', b, WithRemote(t)) == 0
  {
  }

  lemma CasDelayedReloads(s: State, t: ThreadId, b: Block, h: HeapId, dhead: Option<Block>, spurious: bool)
    requires At(s, t, HeapSeen(b, h, dhead)) && h in s.heaps && (spurious || dhead != First(s.heaps[h].delayed))
    ensures OnlyMoves(s, Apply(s, OfRemote(CasDelayed(t, spurious))), t, HeapSeen(b, h, First(s.heaps[h].delayed)))
  {
  }

  /** The last compare-and-swap leaves DELAYED_FREEING for NO_DELAYED. */
  lemma CasResetLeaves(s: State, t: ThreadId, b: Block, seen: Word)
    requires At(s, t, ResetLoaded(b, seen)) && Sees(s, b, seen)
    ensures var s' := Apply(s, OfRemote(CasReset(t, false)));
            && At(s', t, Quiet) && OnlyWord(s, s', b.page) && s'.heaps == s.heaps
            && s'.pages[b.page].delay == NoDelayed && s'.pages[b.page].threadFree == s.pages[b.page].threadFree
  {
  }

  lemma CasResetReloads(s: State, t: ThreadId, b: Block, seen: Word, spurious: bool)
    requires At(s, t, ResetLoaded(b, seen)) && b.page in s.pages && (spurious || !Sees(s, b, seen))
    ensures OnlyMoves(s, Apply(s, OfRemote(CasReset(t, spurious))), t, ResetLoaded(b, Word(First(s.pages[b.page].threadFree), s.pages[b.page].delay)))
  {
  }

  /** The steps that only read. */
  lemma LoadsWord(s: State, t: ThreadId, b: Block)
    requires (At(s, t, Freeing(b)) || At(s, t, Resetting(b))) && b.page in s.pages
    ensures var seen := Word(First(s.pages[b.page].threadFree), s.pages[b.page].delay);
            if s.remotes[t].Freeing? then OnlyMoves(s, Apply(s, OfRemote(LoadWord(t))), t, Loaded(b, seen))
            else OnlyMoves(s, Apply(s, OfRemote(LoadReset(t))), t, ResetLoaded(b, seen))
  {
  }

  lemma LoadsHeap(s: State, t: ThreadId, b: Block)
    requires At(s, t, Delaying(b)) && b.page in s.pages && s.pages[b.page].xheap.Some?
    ensures OnlyMoves(s, Apply(s, OfRemote(LoadHeap(t))), t, HeapKnown(b, s.pages[b.page].xheap.value))
  {
  }

  lemma LoadsHead(s: State, t: ThreadId, b: Block, h: HeapId)
    requires At(s, t, HeapKnown(b, h)) && h in s.heaps
    ensures OnlyMoves(s, Apply(s, OfRemote(LoadDelayed(t))), t, HeapSeen(b, h, First(s.heaps[h].delayed)))
  {
  }

  lemma Begins(s: State, t: ThreadId, b: Block)
    requires At(s, t, Quiet) && Count(s, b, Live) == 1
    ensures var s' := Apply(s, OfRemote(StartFree(t, b)));
            && At(s', t, Freeing(b)) && s'.pages == s.pages && s'.heaps == s.heaps
            && Count(s', b, WithRemote(t)) == 1 && Count(s', b, Live) == 0
  {
  }

  // ---------------------------------------------------------------- a free on its own

  lemma {:induction false} RunBoth(s: State, xs: seq<Action>, ys: seq<Action>)
    ensures Run(s, xs + ys) == Run(Run(s, xs), ys)
    decreases |xs|
  {
    if xs == [] {
      assert xs + ys == ys;
    } else {
      assert (xs + ys)[1..] == xs[1..] + ys;
      RunBoth(Apply(s, xs[0]), xs[1..], ys);
    }
  }

  lemma RunOne(s: State, a: Action)
    ensures Run(s, [a]) == Apply(s, a)
  {
    assert [a][1..] == [];
  }

  lemma RunThree(s: State, a: Action, b: Action, c: Action)
    ensures Run(s, [a, b, c]) == Apply(Apply(Apply(s, a), b), c)
  {
    assert [a, b, c] == [a] + ([b] + [c]);
    RunBoth(s, [a], [b] + [c]);
    RunBoth(Run(s, [a]), [b], [c]);
    RunOne(s, a);
    RunOne(Apply(s, a), b);
    RunOne(Apply(Apply(s, a), b), c);
  }

  /** A free up to its first compare-and-swap. */
  function UpToCas(t: ThreadId, b: Block): seq<Action> {
    [OfRemote(StartFree(t, b)), OfRemote(LoadWord(t)), OfRemote(CasWord(t, false))]
  }

  function HandOver(t: ThreadId): seq<Action> {
    [OfRemote(LoadHeap(t)), OfRemote(LoadDelayed(t)), OfRemote(CasDelayed(t, false))]
  }

  function Leave(t: ThreadId): seq<Action> {
    [OfRemote(LoadReset(t)), OfRemote(CasReset(t, false))]
  }

  /** The block is taken from its client and reaches the first compare-and-swap, which decides. */
  lemma FirstHalf(s: State, t: ThreadId, b: Block)
    requires At(s, t, Quiet) && Count(s, b, Live) == 1 && b.page in s.pages && Count(s, b, OnThread(b.page)) == 0
    ensures var s' := Run(s, UpToCas(t, b));
            && OnlyWord(s, s', b.page) && s'.heaps == s.heaps
            && var pg, pg' := s.pages[b.page], s'.pages[b.page];
               if pg.delay == UseDelayed
               then At(s', t, Delaying(b)) && pg'.delay == DelayedFreeing && pg'.threadFree == pg.threadFree && Count(s', b, WithRemote(t)) == 1
               else At(s', t, Quiet) && pg'.delay == pg.delay && pg'.threadFree == [b] + pg.threadFree && Count(s', b, OnThread(b.page)) == 1
  {
    RunThree(s, OfRemote(StartFree(t, b)), OfRemote(LoadWord(t)), OfRemote(CasWord(t, false)));
    Begins(s, t, b);
    var u := Apply(s, OfRemote(StartFree(t, b)));
    LoadsWord(u, t, b);
    var v := Apply(u, OfRemote(LoadWord(t)));
    CasWordDecides(v, t, b, v.remotes[t].seen);
  }

  lemma SecondHalf(s: State, t: ThreadId, b: Block, h: HeapId)
    requires At(s, t, Delaying(b)) && b.page in s.pages && s.pages[b.page].xheap == Some(h) && h in s.heaps && Count(s, b, Delayed(h)) == 0
    ensures var s' := Run(s, HandOver(t));
            && At(s', t, Resetting(b)) && s'.pages == s.pages
            && s'.heaps == s.heaps[h := s.heaps[h].(delayed := [b] + s.heaps[h].delayed)]
            && Count(s', b, Delayed(h)) == 1
  {
    RunThree(s, OfRemote(LoadHeap(t)), OfRemote(LoadDelayed(t)), OfRemote(CasDelayed(t, false)));
    LoadsHeap(s, t, b);
    var u := Apply(s, OfRemote(LoadHeap(t)));
    LoadsHead(u, t, b, h);
    var v := Apply(u, OfRemote(LoadDelayed(t)));
    CasDelayedPushes(v, t, b, h, First(v.heaps[h].delayed));
  }

  lemma LastPart(s: State, t: ThreadId, b: Block)
    requires At(s, t, Resetting(b)) && b.page in s.pages
    ensures var s' := Run(s, Leave(t));
            && At(s', t, Quiet) && OnlyWord(s, s', b.page) && s'.heaps == s.heaps
            && s'.pages[b.page].delay == NoDelayed && s'.pages[b.page].threadFree == s.pages[b.page].threadFree
  {
    assert Leave(t) == [OfRemote(LoadReset(t))] + [OfRemote(CasReset(t, false))];
    RunBoth(s, [OfRemote(LoadReset(t))], [OfRemote(CasReset(t, false))]);
    RunOne(s, OfRemote(LoadReset(t)));
    LoadsWord(s, t, b);
    var u := Apply(s, OfRemote(LoadReset(t)));
    RunOne(u, OfRemote(CasReset(t, false)));
    CasResetLeaves(u, t, b, u.remotes[t].seen);
  }

  /** What the invariant says about a live block and its page. */
  lemma LiveFacts(s: State, b: Block)
    requires Reachable(s) && Count(s, b, Live) == 1
    ensures b.page in s.pages && forall where :: where != Live ==> Count(s, b, where) == 0
    ensures s.pages[b.page].delay == UseDelayed ==> s.pages[b.page].xheap.Some? && s.pages[b.page].xheap.value in s.heaps
  {
    ReachableOk(s);
    OnePlace(s, b);
    assert PageOk(s.pages[b.page]);
  }

  /** A free that nobody disturbs, of a block whose page is not in USE_DELAYED: the block goes to the page's list. */
  lemma DirectFreeAlone(s: State, t: ThreadId, b: Block)
    requires Reachable(s) && At(s, t, Quiet) && Count(s, b, Live) == 1 && b.page in s.pages && s.pages[b.page].delay != UseDelayed
    ensures var s' := Run(s, UpToCas(t, b));
            && At(s', t, Quiet) && s'.heaps == s.heaps
            && s'.pages == s.pages[b.page := s.pages[b.page].(threadFree := [b] + s.pages[b.page].threadFree)]
            && Count(s', b, OnThread(b.page)) == 1
  {
    LiveFacts(s, b);
    FirstHalf(s, t, b);
  }

  lemma DelayedParts(s: State, t: ThreadId, b: Block, h: HeapId)
    requires At(s, t, Quiet) && Count(s, b, Live) == 1 && b.page in s.pages && s.pages[b.page].delay == UseDelayed
    requires s.pages[b.page].xheap == Some(h) && h in s.heaps && Count(s, b, OnThread(b.page)) == 0 && Count(s, b, Delayed(h)) == 0
    ensures var s' := Run(Run(Run(s, UpToCas(t, b)), HandOver(t)), Leave(t));
            && At(s', t, Quiet) && s'.pages == s.pages[b.page := s.pages[b.page].(delay := NoDelayed)]
            && s'.heaps == s.heaps[h := s.heaps[h].(delayed := [b] + s.heaps[h].delayed)]
            && Count(s', b, Delayed(h)) == 1
  {
    FirstHalf(s, t, b);
    var u := Run(s, UpToCas(t, b));
    SecondHalf(u, t, b, h);
    LastPart(Run(u, HandOver(t)), t, b);
  }

  /** The same under USE_DELAYED: the block goes to the delayed list of the page's heap, and the page to NO_DELAYED. */
  lemma DelayedFreeAlone(s: State, t: ThreadId, b: Block)
    requires Reachable(s) && At(s, t, Quiet) && Count(s, b, Live) == 1 && b.page in s.pages && s.pages[b.page].delay == UseDelayed
    ensures s.pages[b.page].xheap.Some? && s.pages[b.page].xheap.value in s.heaps
    ensures var h := s.pages[b.page].xheap.value; var s' := Run(s, UpToCas(t, b) + (HandOver(t) + Leave(t)));
            && At(s', t, Quiet) && s'.pages == s.pages[b.page := s.pages[b.page].(delay := NoDelayed)]
            && s'.heaps == s.heaps[h := s.heaps[h].(delayed := [b] + s.heaps[h].delayed)]
            && Count(s', b, Delayed(h)) == 1
  {
    LiveFacts(s, b);
    RunBoth(s, UpToCas(t, b), HandOver(t) + Leave(t));
    RunBoth(Run(s, UpToCas(t, b)), HandOver(t), Leave(t));
    DelayedParts(s, t, b, s.pages[b.page].xheap.value);
  }

  // ---------------------------------------------------------------- a free within any run

  /** What a step of a freeing thread may do to its block and the flag of its page. */
  datatype Event = PushedOnPage | Claimed | HandedOver | FlagReset

  ghost predicate Occurs(s: State, s': State, t: ThreadId, b: Block, e: Event) {
    && b.page in s.pages && b.page in s'.pages
    && var pg, pg' := s.pages[b.page], s'.pages[b.page];
       match e
       case PushedOnPage =>
         && pg.delay != UseDelayed && pg'.delay == pg.delay && pg'.threadFree == [b] + pg.threadFree
         && Count(s, b, WithRemote(t)) == 1 && Count(s', b, OnThread(b.page)) == 1
       case Claimed =>
         && pg.delay == UseDelayed && pg'.delay == DelayedFreeing
         && Count(s, b, WithRemote(t)) == 1 && Count(s', b, WithRemote(t)) == 1
       case HandedOver =>
         && pg.delay == DelayedFreeing && pg'.delay == DelayedFreeing
         && Count(s, b, WithRemote(t)) == 1
         && pg.xheap.Some? && pg.xheap.value in s.heaps && pg.xheap.value in s'.heaps
         && s'.heaps[pg.xheap.value].delayed == [b] + s.heaps[pg.xheap.value].delayed
         && Count(s', b, Delayed(pg.xheap.value)) == 1
       case FlagReset => pg.delay == DelayedFreeing && pg'.delay == NoDelayed
  }

  /** What a step of thread `t` does, if it does anything but read. */
  ghost function EventOf(s: State, s': State, t: ThreadId, b: Block): seq<Event> {
    if Occurs(s, s', t, b, PushedOnPage) then [PushedOnPage]
    else if Occurs(s, s', t, b, Claimed) then [Claimed]
    else if Occurs(s, s', t, b, HandedOver) then [HandedOver]
    else if Occurs(s, s', t, b, FlagReset) then [FlagReset]
    else []
  }

  predicate IsStepOf(a: Action, t: ThreadId) {
    a.OfRemote? && a.remote.t == t
  }

  /** What the steps of thread `t` in the run do, in their order. */
  ghost function EventsOf(s: State, actions: seq<Action>, t: ThreadId, b: Block): seq<Event>
    decreases |actions|
  {
    if actions == [] then [] else
    var s' := Apply(s, actions[0]);
    (if IsStepOf(actions[0], t) then EventOf(s, s', t, b) else []) + EventsOf(s', actions[1..], t, b)
  }

  /** The thread is busy up to the last state of the run, and is quiet then. */
  ghost predicate BusyUntilEnd(s: State, actions: seq<Action>, t: ThreadId)
    decreases |actions|
  {
    t in s.remotes && if actions == [] then s.remotes[t] == Quiet else s.remotes[t] != Quiet && BusyUntilEnd(Apply(s, actions[0]), actions[1..], t)
  }

  /** What is still to happen, by the program point. */
  predicate Awaits(r: Remote, events: seq<Event>) {
    match r
    case Quiet => events == []
    case Freeing(_) => events == [PushedOnPage] || events == [Claimed, HandedOver, FlagReset]
    case Loaded(_, _) => events == [PushedOnPage] || events == [Claimed, HandedOver, FlagReset]
    case Delaying(_) => events == [HandedOver, FlagReset]
    case HeapKnown(_, _) => events == [HandedOver, FlagReset]
    case HeapSeen(_, _, _) => events == [HandedOver, FlagReset]
    case Resetting(_) => events == [FlagReset]
    case ResetLoaded(_, _) => events == [FlagReset]
  }

  predicate Works(r: Remote, b: Block) {
    r != Quiet && r.b == b
  }

  /** A step of `t` brings it from `r` to `r'` and does `events`. */
  predicate Turns(r: Remote, r': Remote, b: Block, events: seq<Event>) {
    && (r' == Quiet || r'.b == b)
    && |events| <= 1
    && match r
       case Quiet => false
       case Freeing(_) => (r'.Freeing? || r'.Loaded?) && events == []
       case Loaded(_, _) => (r'.Loaded? && events == []) || (r' == Quiet && events == [PushedOnPage]) || (r'.Delaying? && events == [Claimed])
       case Delaying(_) => (r'.Delaying? || r'.HeapKnown?) && events == []
       case HeapKnown(_, _) => (r'.HeapKnown? || r'.HeapSeen?) && events == []
       case HeapSeen(_, _, _) => (r'.HeapSeen? && events == []) || (r'.Resetting? && events == [HandedOver])
       case Resetting(_) => (r'.Resetting? || r'.ResetLoaded?) && events == []
       case ResetLoaded(_, _) => (r'.ResetLoaded? && events == []) || (r' == Quiet && events == [FlagReset])
  }

  lemma TurnsAwait(r: Remote, r': Remote, b: Block, events: seq<Event>, rest: seq<Event>)
    requires Turns(r, r', b, events) && Awaits(r', rest)
    ensures Awaits(r, events + rest)
  {
    assert [] + rest == rest;
  }

  /** Reading is no event. */
  lemma NoEvent(s: State, s': State, t: ThreadId, b: Block)
    requires s'.pages == s.pages && s'.heaps == s.heaps && (Count(s, b, WithRemote(t)) == 1 ==> Count(s', b, OnThread(b.page)) == 0)
    ensures EventOf(s, s', t, b) == []
  {
    if b.page in s.pages && s.pages[b.page].xheap.Some? && s.pages[b.page].xheap.value in s.heaps {
      var d := s.heaps[s.pages[b.page].xheap.value].delayed;
      assert |[b] + d| == |d| + 1;
    }
  }

  /** What the invariant says about a thread in the middle of a free. */
  ghost predicate WorkOk(s: State, t: ThreadId, b: Block) {
    && t in s.remotes && Works(s.remotes[t], b) && b.page in s.pages
    && (HasBlock(s.remotes[t]) ==> Count(s, b, OnThread(b.page)) == 0)
    && (Guards(s.remotes[t]) ==> s.pages[b.page].delay == DelayedFreeing)
    && (s.remotes[t].HeapSeen? ==>
          var h := s.remotes[t].heap;
          h in s.heaps && s.pages[b.page].xheap == Some(h) && Count(s, b, Delayed(h)) == 0)
  }

  /** The block of a thread in the middle of a free is nowhere else. */
  lemma WorkPlace(s: State, t: ThreadId, b: Block, where: Spot)
    requires Inv(s) && t in s.remotes && HasBlock(s.remotes[t]) && s.remotes[t].b == b && where != WithRemote(t)
    ensures b.page in s.pages && Count(s, b, where) == 0
  {
    CountAt(s, b, where);
    assert RemoteOk(s.spot, s.pages, t, s.remotes[t]) && SpotOk(s, b, s.spot[b]);
  }

  lemma GuardFacts(s: State, t: ThreadId, b: Block)
    requires Remotes(s) && Pages(s) && t in s.remotes && Guards(s.remotes[t]) && s.remotes[t].b == b
    ensures b.page in s.pages && s.pages[b.page].delay == DelayedFreeing
    ensures s.remotes[t].HeapSeen? ==> s.remotes[t].heap in s.heaps && s.pages[b.page].xheap == Some(s.remotes[t].heap)
  {
    assert RemoteOk(s.spot, s.pages, t, s.remotes[t]);
  }

  lemma WorkFacts(s: State, t: ThreadId, b: Block)
    requires Inv(s) && t in s.remotes && Works(s.remotes[t], b)
    ensures WorkOk(s, t, b)
  {
    if HasBlock(s.remotes[t]) { WorkPlace(s, t, b, OnThread(b.page)); }
    if Guards(s.remotes[t]) { GuardFacts(s, t, b); }
    if s.remotes[t].HeapSeen? { WorkPlace(s, t, b, Delayed(s.remotes[t].heap)); }
  }

  lemma LoadedStep(s: State, t: ThreadId, b: Block, seen: Word, spurious: bool)
    requires At(s, t, Loaded(b, seen)) && b.page in s.pages && Count(s, b, OnThread(b.page)) == 0
    ensures var s' := Apply(s, OfRemote(CasWord(t, spurious))); t in s'.remotes && Turns(s.remotes[t], s'.remotes[t], b, EventOf(s, s', t, b))
  {
    var s' := Apply(s, OfRemote(CasWord(t, spurious)));
    if spurious || !Sees(s, b, seen) {
      CasWordReloads(s, t, b, seen, spurious);
      NoEvent(s, s', t, b);
    } else {
      CasWordDecides(s, t, b, seen);
      if s.pages[b.page].delay == UseDelayed {
        assert Occurs(s, s', t, b, Claimed) && !Occurs(s, s', t, b, PushedOnPage);
      } else {
        assert Occurs(s, s', t, b, PushedOnPage);
      }
    }
  }

  /** The push on the delayed list of the page's heap. */
  lemma HandedOverIs(s: State, s': State, t: ThreadId, b: Block, h: HeapId)
    requires b.page in s.pages && s'.pages == s.pages && s.pages[b.page].delay == DelayedFreeing && s.pages[b.page].xheap == Some(h)
    requires h in s.heaps && h in s'.heaps && s'.heaps[h].delayed == [b] + s.heaps[h].delayed
    requires Count(s, b, WithRemote(t)) == 1 && Count(s', b, Delayed(h)) == 1 && Count(s', b, OnThread(b.page)) == 0
    ensures EventOf(s, s', t, b) == [HandedOver]
  {
    assert !Occurs(s, s', t, b, PushedOnPage) && !Occurs(s, s', t, b, Claimed);
    assert Occurs(s, s', t, b, HandedOver);
  }

  lemma HeapSeenStep(s: State, t: ThreadId, b: Block, h: HeapId, dhead: Option<Block>, spurious: bool)
    requires At(s, t, HeapSeen(b, h, dhead)) && b.page in s.pages && s.pages[b.page].delay == DelayedFreeing && s.pages[b.page].xheap == Some(h) && h in s.heaps
    requires Count(s, b, OnThread(b.page)) == 0 && Count(s, b, Delayed(h)) == 0
    ensures var s' := Apply(s, OfRemote(CasDelayed(t, spurious))); t in s'.remotes && Turns(s.remotes[t], s'.remotes[t], b, EventOf(s, s', t, b))
  {
    var s' := Apply(s, OfRemote(CasDelayed(t, spurious)));
    if spurious || dhead != First(s.heaps[h].delayed) {
      CasDelayedReloads(s, t, b, h, dhead, spurious);
      NoEvent(s, s', t, b);
    } else {
      CasDelayedPushes(s, t, b, h, dhead);
      HandedOverIs(s, s', t, b, h);
    }
  }

  lemma ResetLoadedStep(s: State, t: ThreadId, b: Block, seen: Word, spurious: bool)
    requires At(s, t, ResetLoaded(b, seen)) && b.page in s.pages && s.pages[b.page].delay == DelayedFreeing
    ensures var s' := Apply(s, OfRemote(CasReset(t, spurious))); t in s'.remotes && Turns(s.remotes[t], s'.remotes[t], b, EventOf(s, s', t, b))
  {
    var s' := Apply(s, OfRemote(CasReset(t, spurious)));
    if spurious || !Sees(s, b, seen) {
      CasResetReloads(s, t, b, seen, spurious);
      NoEvent(s, s', t, b);
    } else {
      CasResetLeaves(s, t, b, seen);
      assert Occurs(s, s', t, b, FlagReset);
      assert !Occurs(s, s', t, b, PushedOnPage) && !Occurs(s, s', t, b, Claimed) && !Occurs(s, s', t, b, HandedOver);
    }
  }

  /** Steps of the thread that only read, or are not possible at its program point. */
  lemma ReadTurns(s: State, t: ThreadId, b: Block, a: RemoteStep)
    requires a.t == t && WorkOk(s, t, b)
    requires !(a.CasWord? && s.remotes[t].Loaded?) && !(a.CasDelayed? && s.remotes[t].HeapSeen?) && !(a.CasReset? && s.remotes[t].ResetLoaded?)
    ensures var s' := Apply(s, OfRemote(a)); t in s'.remotes && Turns(s.remotes[t], s'.remotes[t], b, EventOf(s, s', t, b))
  {
    ReadMoves(s, t, b, a);
    var s' := Apply(s, OfRemote(a));
    assert Count(s', b, OnThread(b.page)) == Count(s, b, OnThread(b.page));
    NoEvent(s, s', t, b);
  }

  lemma ReadMoves(s: State, t: ThreadId, b: Block, a: RemoteStep)
    requires a.t == t && t in s.remotes && Works(s.remotes[t], b)
    requires !(a.CasWord? && s.remotes[t].Loaded?) && !(a.CasDelayed? && s.remotes[t].HeapSeen?) && !(a.CasReset? && s.remotes[t].ResetLoaded?)
    ensures var s' := Apply(s, OfRemote(a));
            && s'.pages == s.pages && s'.heaps == s.heaps && t in s'.remotes && Turns(s.remotes[t], s'.remotes[t], b, [])
  {
  }

  lemma OwnTurns(s: State, t: ThreadId, b: Block, a: RemoteStep)
    requires a.t == t && WorkOk(s, t, b)
    ensures var s' := Apply(s, OfRemote(a)); t in s'.remotes && Turns(s.remotes[t], s'.remotes[t], b, EventOf(s, s', t, b))
  {
    var r := s.remotes[t];
    if a.CasWord? && r.Loaded? {
      LoadedStep(s, t, b, r.seen, a.spurious);
    } else if a.CasDelayed? && r.HeapSeen? {
      HeapSeenStep(s, t, b, r.heap, r.dhead, a.spurious);
    } else if a.CasReset? && r.ResetLoaded? {
      ResetLoadedStep(s, t, b, r.seen, a.spurious);
    } else {
      ReadTurns(s, t, b, a);
    }
  }

  /** Nobody else moves the thread. */
  lemma OthersStay(s: State, t: ThreadId, a: Action)
    requires t in s.remotes && !IsStepOf(a, t)
    ensures t in Apply(s, a).remotes && Apply(s, a).remotes[t] == s.remotes[t]
  {
    match a
    case OfRemote(_) =>
    case OfPage(_) =>
    case OfDelay(d) => DelayLeavesThreads(s, d);
    case OfLife(_) =>
  }

  lemma DelayLeavesThreads(s: State, d: DelayStep)
    ensures ApplyDelayStep(s, d).remotes == s.remotes
  {
  }

  lemma StepTurns(s: State, t: ThreadId, b: Block, a: Action)
    requires Inv(s) && t in s.remotes && Works(s.remotes[t], b)
    ensures var s' := Apply(s, a);
            && t in s'.remotes && (s'.remotes[t] == Quiet || s'.remotes[t].b == b)
            && if IsStepOf(a, t) then Turns(s.remotes[t], s'.remotes[t], b, EventOf(s, s', t, b)) else s'.remotes[t] == s.remotes[t]
  {
    if IsStepOf(a, t) {
      WorkFacts(s, t, b);
      OwnTurns(s, t, b, a.remote);
    } else {
      OthersStay(s, t, a);
    }
  }

  lemma StepAwaits(s: State, s': State, actions: seq<Action>, t: ThreadId, b: Block)
    requires actions != [] && s' == Apply(s, actions[0]) && t in s.remotes && t in s'.remotes
    requires if IsStepOf(actions[0], t) then Turns(s.remotes[t], s'.remotes[t], b, EventOf(s, s', t, b)) else s'.remotes[t] == s.remotes[t]
    requires Awaits(s'.remotes[t], EventsOf(s', actions[1..], t, b))
    ensures Awaits(s.remotes[t], EventsOf(s, actions, t, b))
  {
    var rest := EventsOf(s', actions[1..], t, b);
    if IsStepOf(actions[0], t) {
      TurnsAwait(s.remotes[t], s'.remotes[t], b, EventOf(s, s', t, b), rest);
    } else {
      assert [] + rest == rest;
    }
  }

  lemma {:induction false} EventsAwaited(s: State, actions: seq<Action>, t: ThreadId, b: Block)
    requires Inv(s) && BusyUntilEnd(s, actions, t) && (s.remotes[t] == Quiet || s.remotes[t].b == b)
    ensures Awaits(s.remotes[t], EventsOf(s, actions, t, b))
    decreases |actions|
  {
    if actions != [] {
      StepKeeps(s, actions[0]);
      StepTurns(s, t, b, actions[0]);
      EventsAwaited(Apply(s, actions[0]), actions[1..], t, b);
      StepAwaits(s, Apply(s, actions[0]), actions, t, b);
    }
  }

  /**
   A free from its beginning to its end, whatever all other threads and owners do meanwhile: either the
   block was pushed on its page's list when the page was not in USE_DELAYED; or the thread found
   USE_DELAYED and set DELAYED_FREEING, then handed the block to the delayed list of the heap that the
   page belonged to, and then left the page in NO_DELAYED.
   */
  lemma FreeDoes(s: State, t: ThreadId, b: Block, actions: seq<Action>)
    requires Reachable(s) && At(s, t, Quiet) && Count(s, b, Live) == 1
    requires BusyUntilEnd(Apply(s, OfRemote(StartFree(t, b))), actions, t)
    ensures var events := EventsOf(Apply(s, OfRemote(StartFree(t, b))), actions, t, b);
            events == [PushedOnPage] || events == [Claimed, HandedOver, FlagReset]
  {
    ReachableOk(s);
    Begins(s, t, b);
    StepKeeps(s, OfRemote(StartFree(t, b)));
    EventsAwaited(Apply(s, OfRemote(StartFree(t, b))), actions, t, b);
  }

  /** A free that has found USE_DELAYED: it hands the block over, and leaves the page in NO_DELAYED. */
  lemma ClaimedFreeDoes(s: State, t: ThreadId, b: Block, actions: seq<Action>)
    requires Reachable(s) && At(s, t, Delaying(b)) && BusyUntilEnd(s, actions, t)
    ensures EventsOf(s, actions, t, b) == [HandedOver, FlagReset]
  {
    ReachableOk(s);
    EventsAwaited(s, actions, t, b);
  }

  /** The first compare-and-swap in every reachable state, when it finds its word current. */
  lemma FlagDecides(s: State, t: ThreadId, b: Block, seen: Word)
    requires Reachable(s) && At(s, t, Loaded(b, seen)) && Sees(s, b, seen)
    ensures var s' := Apply(s, OfRemote(CasWord(t, false)));
            && b.page in s'.pages
            && if s.pages[b.page].delay == UseDelayed
               then s'.pages[b.page].delay == DelayedFreeing && Count(s', b, WithRemote(t)) == 1 && s'.pages[b.page].threadFree == s.pages[b.page].threadFree
               else s'.pages[b.page].delay == s.pages[b.page].delay && Count(s', b, OnThread(b.page)) == 1 && Count(s', b, WithRemote(t)) == 0
  {
    ReachableWork(s, t, b);
    CasWordDecides(s, t, b, seen);
  }

  lemma ReachableWork(s: State, t: ThreadId, b: Block)
    requires Reachable(s) && t in s.remotes && Works(s.remotes[t], b)
    ensures WorkOk(s, t, b)
  {
    ReachableOk(s);
    WorkFacts(s, t, b);
  }

  // ---------------------------------------------------------------- a run into DELAYED_FREEING

  /** A new page gets its first block, which is allocated. */
  function FirstBlock(h: HeapId, p: PageId): seq<Action> {
    [OfLife(FreshPage(h, p)), OfPage(Extend(h, p, [Block(p, 0)])), OfPage(Malloc(h, p))]
  }

  lemma FreshPageStep(s: State, h: HeapId, p: PageId)
    requires Start(s) && h in s.heaps
    ensures Apply(s, OfLife(FreshPage(h, p))) == s.(pages := map[p := Page(0, 0, [], [], [], UseDelayed, Some(h), Some(h))])
  {
    assert s.heaps[h] == Heap([], [], [], Empty, Ready, Open);
  }

  lemma ExtendStep(s: State, h: HeapId, p: PageId)
    requires AtRest(s, h) && s.pages == map[p := Page(0, 0, [], [], [], UseDelayed, Some(h), Some(h))] && s.spot == map[]
    ensures Apply(s, OfPage(Extend(h, p, [Block(p, 0)])))
         == s.(pages := map[p := Page(1, 0, [Block(p, 0)], [], [], UseDelayed, Some(h), Some(h))], spot := map[Block(p, 0) := OnFree(p)])
  {
    var blocks := [Block(p, 0)];
    assert FreshBlocks(s.pages[p], p, blocks);
    assert blocks + [] == blocks;
    assert (map b | b in blocks :: OnFree(p)) == map[Block(p, 0) := OnFree(p)];
  }

  lemma MallocStep(s: State, h: HeapId, p: PageId)
    requires AtRest(s, h) && s.pages == map[p := Page(1, 0, [Block(p, 0)], [], [], UseDelayed, Some(h), Some(h))]
    ensures Apply(s, OfPage(Malloc(h, p)))
         == s.(pages := map[p := Page(1, 1, [], [], [], UseDelayed, Some(h), Some(h))], spot := s.spot[Block(p, 0) := Live])
  {
    assert [Block(p, 0)][1..] == [];
  }

  lemma FirstBlockRun(s: State, h: HeapId, p: PageId)
    requires Start(s) && h in s.heaps
    ensures var s' := Run(s, FirstBlock(h, p));
            && s'.pages == map[p := Page(1, 1, [], [], [], UseDelayed, Some(h), Some(h))]
            && s'.spot == map[Block(p, 0) := Live] && s'.heaps == s.heaps && s'.remotes == s.remotes
  {
    RunThree(s, OfLife(FreshPage(h, p)), OfPage(Extend(h, p, [Block(p, 0)])), OfPage(Malloc(h, p)));
    FreshPageStep(s, h, p);
    assert s.heaps[h] == Heap([], [], [], Empty, Ready, Open);
    var u := Apply(s, OfLife(FreshPage(h, p)));
    ExtendStep(u, h, p);
    var v := Apply(u, OfPage(Extend(h, p, [Block(p, 0)])));
    MallocStep(v, h, p);
  }

  lemma FirstBlockReady(s: State, h: HeapId, p: PageId, t: ThreadId)
    requires Start(s) && h in s.heaps && t in s.remotes
    ensures var b := Block(p, 0); var u := Run(s, FirstBlock(h, p));
            && Reachable(u) && At(u, t, Quiet) && Count(u, b, Live) == 1 && p in u.pages && u.pages[p].delay == UseDelayed && u.pages[p].xheap == Some(h)
            && Count(u, b, OnThread(p)) == 0 && h in u.heaps && u.heaps[h].delayed == []
  {
    FirstBlockRun(s, h, p);
    assert s.heaps[h] == Heap([], [], [], Empty, Ready, Open) && s.remotes[t] == Quiet;
  }

  /** From every start, with any heap, page and thread, there is a run into DELAYED_FREEING. */
  lemma DelayedFreeingHappens(s: State, h: HeapId, p: PageId, t: ThreadId)
    requires Start(s) && h in s.heaps && t in s.remotes
    ensures var b := Block(p, 0); var s' := Run(s, FirstBlock(h, p) + UpToCas(t, b));
            p in s'.pages && s'.pages[p].delay == DelayedFreeing && At(s', t, Delaying(b))
  {
    FirstBlockReady(s, h, p, t);
    RunBoth(s, FirstBlock(h, p), UpToCas(t, Block(p, 0)));
    FirstHalf(Run(s, FirstBlock(h, p)), t, Block(p, 0));
  }

  /** And there is one to the end of that free. */
  lemma DelayedFreeHappens(s: State, h: HeapId, p: PageId, t: ThreadId)
    requires Start(s) && h in s.heaps && t in s.remotes
    ensures var b := Block(p, 0); var s' := Run(s, FirstBlock(h, p) + (UpToCas(t, b) + (HandOver(t) + Leave(t))));
            p in s'.pages && s'.pages[p].delay == NoDelayed && h in s'.heaps && s'.heaps[h].delayed == [b] && At(s', t, Quiet)
  {
    var b := Block(p, 0);
    FirstBlockReady(s, h, p, t);
    RunBoth(s, FirstBlock(h, p), UpToCas(t, b) + (HandOver(t) + Leave(t)));
    DelayedFreeAlone(Run(s, FirstBlock(h, p)), t, b);
  }

  /** There are starts. */
  lemma StartExists()
    ensures Start(State(map[], map[0 := Heap([], [], [], Empty, Ready, Open)], map[0 := Quiet], map[]))
  {
  }
}
