/**
 What holds in every state that any interleaving of any number of owners and freeing threads
 can reach: where the blocks are, when a page may be released, and that an abandoned heap is
 never touched again.
 */
module PageSafety {
  import opened Sequences
  import opened PageProtocol
  import opened PageInvariant
  import opened PageRemoteSteps
  import opened PageOwnerSteps
  import opened PageLifeSteps

  /** No page, no block, nobody doing anything; any number of heaps and threads. */
  ghost predicate Start(s: State) {
    && s.pages == map[] && s.spot == map[]
    && (forall h {:trigger s.heaps[h]} :: h in s.heaps ==> s.heaps[h] == Heap([], [], [], Empty, Ready, Open))
    && (forall t {:trigger s.remotes[t]} :: t in s.remotes ==> s.remotes[t] == Quiet)
  }

  ghost function Run(s: State, actions: seq<Action>): State
    decreases |actions|
  {
    if actions == [] then s else Run(Apply(s, actions[0]), actions[1..])
  }

  lemma StepKeeps(s: State, a: Action)
    requires Inv(s)
    ensures Inv(Apply(s, a))
  {
    match a
    case OfRemote(r) => RemoteKeeps(s, r);
    case OfPage(p) => PageKeeps(s, p);
    case OfDelay(d) => DelayKeeps(s, d);
    case OfLife(l) => LifeKeeps(s, l);
  }

  lemma {:induction false} RunKeeps(s: State, actions: seq<Action>)
    requires Inv(s)
    ensures Inv(Run(s, actions))
    decreases |actions|
  {
    if actions != [] {
      StepKeeps(s, actions[0]);
      RunKeeps(Apply(s, actions[0]), actions[1..]);
    }
  }

  /** The state can be reached from a start by some interleaving. */
  ghost predicate Reachable(s: State) {
    exists start, actions :: Start(start) && Run(start, actions) == s
  }

  lemma ReachableOk(s: State)
    requires Reachable(s)
    ensures Inv(s)
  {
    var start, actions :| Start(start) && Run(start, actions) == s;
    RunKeeps(start, actions);
  }

  // ---------------------------------------------------------------- where the blocks are

  /** How often `b` occurs at a place, read off the lists and program points themselves. */
  ghost function Count(s: State, b: Block, where: Spot): nat {
    match where
    case Live => if b in s.spot && s.spot[b] == Live then 1 else 0
    case OnFree(p) => if p in s.pages then multiset(s.pages[p].free)[b] else 0
    case OnLocal(p) => if p in s.pages then multiset(s.pages[p].localFree)[b] else 0
    case OnThread(p) => if p in s.pages then multiset(s.pages[p].threadFree)[b] else 0
    case Collected(h) => if h in s.heaps then multiset(s.heaps[h].collected)[b] else 0
    case Delayed(h) => if h in s.heaps then multiset(s.heaps[h].delayed)[b] else 0
    case Taken(h) => if h in s.heaps then multiset(s.heaps[h].taken)[b] else 0
    case InHand(h) => if h in s.heaps && s.heaps[h].hand == Held(b) then 1 else 0
    case ClearedBy(h) => if h in s.heaps && s.heaps[h].hand == Cleared(b) then 1 else 0
    case WithRemote(t) => if t in s.remotes && HasBlock(s.remotes[t]) && s.remotes[t].b == b then 1 else 0
  }

  /** `b` is once at `home` and nowhere else. */
  ghost predicate OnlyAt(s: State, b: Block, home: Spot) {
    forall where :: Count(s, b, where) == if where == home then 1 else 0
  }

  /** A block of an existing page is once at one place and nowhere else; other blocks are nowhere. */
  lemma ExactlyOnePlace(s: State, b: Block)
    requires Reachable(s)
    ensures b.page in s.pages && b.index < s.pages[b.page].capacity ==> exists home :: OnlyAt(s, b, home)
    ensures !(b.page in s.pages && b.index < s.pages[b.page].capacity) ==> forall where :: Count(s, b, where) == 0
  {
    ReachableOk(s);
    OnePlace(s, b);
  }

  lemma OnePlace(s: State, b: Block)
    requires Inv(s)
    ensures b in s.spot ==> OnlyAt(s, b, s.spot[b])
    ensures b !in s.spot ==> forall where :: Count(s, b, where) == 0
    ensures b in s.spot <==> b.page in s.pages && b.index < s.pages[b.page].capacity
  {
    forall where ensures Count(s, b, where) == if b in s.spot && s.spot[b] == where then 1 else 0 {
      CountAt(s, b, where);
    }
  }

  lemma CountAt(s: State, b: Block, where: Spot)
    requires Inv(s)
    ensures Count(s, b, where) == if b in s.spot && s.spot[b] == where then 1 else 0
  {
    if where.OnFree? || where.OnLocal? || where.OnThread? {
      CountInPage(s, b, where);
    } else if where.Collected? || where.Delayed? || where.Taken? {
      CountInHeap(s, b, where);
    } else {
      CountInHand(s, b, where);
    }
  }

  lemma CountInPage(s: State, b: Block, where: Spot)
    requires Lists(s) && Spots(s) && (where.OnFree? || where.OnLocal? || where.OnThread?)
    ensures Count(s, b, where) == if b in s.spot && s.spot[b] == where then 1 else 0
  {
    if where.p in s.pages { assert PageLists(s.spot, where.p, s.pages[where.p]); }
  }

  lemma CountInHeap(s: State, b: Block, where: Spot)
    requires Lists(s) && Spots(s) && (where.Collected? || where.Delayed? || where.Taken?)
    ensures Count(s, b, where) == if b in s.spot && s.spot[b] == where then 1 else 0
  {
    if where.h in s.heaps { assert HeapLists(s.spot, where.h, s.heaps[where.h]); }
  }

  lemma CountInHand(s: State, b: Block, where: Spot)
    requires Spots(s) && Heaps(s) && Remotes(s) && (where.Live? || where.InHand? || where.ClearedBy? || where.WithRemote?)
    ensures Count(s, b, where) == if b in s.spot && s.spot[b] == where then 1 else 0
  {
    match where
    case InHand(h) => if h in s.heaps { assert HeapOk(s.spot, s.pages, h, s.heaps[h]); }
    case ClearedBy(h) => if h in s.heaps { assert HeapOk(s.spot, s.pages, h, s.heaps[h]); }
    case WithRemote(t) => if t in s.remotes { assert RemoteOk(s.spot, s.pages, t, s.remotes[t]); }
    case _ =>
  }

  /** The blocks of a page that are on neither of its owner's lists. */
  ghost function InUse(s: State, p: PageId): set<Block>
    requires p in s.pages
  {
    set i: nat | i < s.pages[p].capacity && Block(p, i) !in s.pages[p].free && Block(p, i) !in s.pages[p].localFree :: Block(p, i)
  }

  /** `used` is exactly the number of blocks on neither of the owner's lists. */
  lemma UsedCounts(s: State, p: PageId)
    requires Reachable(s) && p in s.pages
    ensures s.pages[p].used == |InUse(s, p)|
    ensures s.pages[p].used == s.pages[p].capacity - |s.pages[p].free| - |s.pages[p].localFree|
  {
    ReachableOk(s);
    assert PageOk(s.pages[p]);
    BlocksOf(s, p);
  }

  /** The blocks of a page are those on the owner's two lists and those in use. */
  lemma BlocksOf(s: State, p: PageId)
    requires Spots(s) && Pages(s) && p in s.pages && PageLists(s.spot, p, s.pages[p])
    ensures |InUse(s, p)| + |s.pages[p].free| + |s.pages[p].localFree| == s.pages[p].capacity
  {
    var pg := s.pages[p];
    var blocks := multiset(pg.free) + multiset(pg.localFree) + multiset(InUse(s, p));
    assert forall b :: b in InUse(s, p) ==> b !in pg.free && b !in pg.localFree;
    forall b | b in blocks ensures blocks[b] == 1 && b.page == p && b.index < pg.capacity {
      if b !in InUse(s, p) { assert b in s.spot && SpotOk(s, b, s.spot[b]); }
    }
    forall i: nat | i < pg.capacity ensures Block(p, i) in blocks {
      assert Block(p, i) in pg.free || Block(p, i) in pg.localFree || Block(p, i) in InUse(s, p);
    }
    Full(blocks, p, pg.capacity);
    assert |blocks| == |pg.free| + |pg.localFree| + |InUse(s, p)|;
  }

  lemma {:induction false} Full(blocks: multiset<Block>, p: PageId, n: nat)
    requires forall b :: b in blocks ==> blocks[b] == 1 && b.page == p && b.index < n
    requires forall i: nat :: i < n ==> Block(p, i) in blocks
    ensures |blocks| == n
  {
    if n > 0 {
      var rest := blocks[Block(p, n - 1) := 0];
      forall b | b in rest ensures rest[b] == 1 && b.page == p && b.index < n - 1 {
        assert b in blocks && b != Block(p, n - 1);
      }
      Full(rest, p, n - 1);
      assert blocks == rest + multiset{Block(p, n - 1)};
    } else {
      assert blocks == multiset{};
    }
  }

  /** Splicing never meets a list longer than the capacity, nor takes `used` below zero. */
  lemma NeverCorrupted(s: State, h: HeapId)
    requires Reachable(s) && h in s.heaps && s.heaps[h].pc.Splicing?
    ensures s.heaps[h].pc.p in s.pages
    ensures |s.heaps[h].collected| <= s.pages[s.heaps[h].pc.p].capacity
    ensures |s.heaps[h].collected| <= s.pages[s.heaps[h].pc.p].used
  {
    ReachableOk(s);
    assert HeapOk(s.spot, s.pages, h, s.heaps[h]) && HeapLists(s.spot, h, s.heaps[h]);
    var p := s.heaps[h].pc.p;
    CollectedFits(s, h);
    UsedCounts(s, p);
    var l := s.heaps[h].collected;
    forall b | b in l ensures b in InUse(s, p) {
      CollectedInUse(s, h, b);
    }
    ChainNoDup(s.spot, l, Collected(h));
    NoDupSize(l, InUse(s, p));
  }

  lemma CollectedInUse(s: State, h: HeapId, b: Block)
    requires Spots(s) && Pages(s) && h in s.heaps && s.heaps[h].pc.Splicing? && HeapLists(s.spot, h, s.heaps[h])
    requires s.heaps[h].pc.p in s.pages && PageLists(s.spot, s.heaps[h].pc.p, s.pages[s.heaps[h].pc.p])
    requires b in s.heaps[h].collected
    ensures b in InUse(s, s.heaps[h].pc.p)
  {
    assert multiset(s.heaps[h].collected)[b] >= 1;
    assert b in s.spot && s.spot[b] == Collected(h);
    assert b == Block(s.heaps[h].pc.p, b.index);
  }

  lemma ChainNoDup(spot: map<Block, Spot>, l: seq<Block>, where: Spot)
    requires Chain(spot, l, where)
    ensures NoDup(l)
  {
    forall i, j | 0 <= i < j < |l| ensures l[i] != l[j] {
      if l[i] == l[j] { CountTwice(l, i, j); }
    }
  }

  lemma CountTwice<T>(l: seq<T>, i: nat, j: nat)
    requires i < j < |l| && l[i] == l[j]
    ensures multiset(l)[l[i]] >= 2
  {
    assert l == l[..j] + [l[j]] + l[j + 1..];
    assert l[..j][i] == l[i];
  }

  // ---------------------------------------------------------------- releasing pages

  /** A page with `used == 0` is in nobody's hands: it may be released. */
  lemma ReleaseIsSafe(s: State, p: PageId)
    requires Reachable(s) && p in s.pages && s.pages[p].used == 0
    ensures s.pages[p].delay != DelayedFreeing
    ensures forall t :: t in s.remotes && s.remotes[t] != Quiet ==> s.remotes[t].b.page != p
    ensures s.pages[p].threadFree == []
    ensures forall b: Block, where :: b.page == p && Count(s, b, where) > 0 ==> where == OnFree(p) || where == OnLocal(p)
  {
    ReachableOk(s);
    AllFree(s, p);
    AllFreeQuiet(s, p);
    forall b: Block, where | b.page == p && Count(s, b, where) > 0 ensures where == OnFree(p) || where == OnLocal(p) {
      CountAt(s, b, where);
    }
    NoThreadFree(s, p);
  }

  lemma NoThreadFree(s: State, p: PageId)
    requires Spots(s) && p in s.pages && PageLists(s.spot, p, s.pages[p])
    requires forall b :: b in s.spot && b.page == p ==> s.spot[b] == OnFree(p) || s.spot[b] == OnLocal(p)
    ensures s.pages[p].threadFree == []
  {
    assert multiset(s.pages[p].threadFree) == multiset{};
    assert |multiset(s.pages[p].threadFree)| == |s.pages[p].threadFree|;
  }

  // ---------------------------------------------------------------- the DELAYED_FREEING state

  /** A page is in DELAYED_FREEING exactly while one single thread is between its two CASes. */
  lemma OneThreadDelays(s: State, p: PageId)
    requires Reachable(s) && p in s.pages
    ensures s.pages[p].delay == DelayedFreeing <==> exists t :: GuardOf(s, t, p)
    ensures forall t, u :: GuardOf(s, t, p) && GuardOf(s, u, p) ==> t == u
  {
    ReachableOk(s);
    forall t | GuardOf(s, t, p) ensures s.pages[p].delay == DelayedFreeing {
      assert RemoteOk(s.spot, s.pages, t, s.remotes[t]);
    }
  }

  /** Whatever step is taken, only the guarding thread's own reset leaves DELAYED_FREEING. */
  lemma OnlyGuardLeaves(s: State, a: Action, p: PageId, t: ThreadId)
    requires Reachable(s) && p in s.pages && s.pages[p].delay == DelayedFreeing && GuardOf(s, t, p)
    ensures p in Apply(s, a).pages
    ensures Apply(s, a).pages[p].delay != DelayedFreeing ==>
              a == OfRemote(CasReset(t, false)) && Apply(s, a).pages[p].delay == NoDelayed
  {
    ReachableOk(s);
    assert s.pages[p].used != 0 by {
      if s.pages[p].used == 0 { ReleaseIsSafe(s, p); }
    }
    match a
    case OfRemote(r) => LeavesByRemote(s, r, p, t);
    case OfPage(g) => StaysByPage(s, g, p);
    case OfDelay(d) => StaysByDelay(s, d, p);
    case OfLife(l) => StaysByLife(s, l, p);
  }

  lemma StaysByPage(s: State, a: PageStep, p: PageId)
    requires p in s.pages && s.pages[p].delay == DelayedFreeing
    ensures p in ApplyPageStep(s, a).pages && ApplyPageStep(s, a).pages[p].delay == DelayedFreeing
  {
  }

  lemma StaysByDelay(s: State, a: DelayStep, p: PageId)
    requires p in s.pages && s.pages[p].delay == DelayedFreeing
    requires forall h {:trigger s.heaps[h]} :: h in s.heaps ==> PcOk(s.pages, h, s.heaps[h])
    ensures p in ApplyDelayStep(s, a).pages && ApplyDelayStep(s, a).pages[p].delay == DelayedFreeing
  {
  }

  lemma StaysByLife(s: State, a: LifeStep, p: PageId)
    requires p in s.pages && s.pages[p].delay == DelayedFreeing && s.pages[p].used != 0
    ensures p in ApplyLifeStep(s, a).pages && ApplyLifeStep(s, a).pages[p].delay == DelayedFreeing
  {
  }

  lemma LeavesByRemote(s: State, r: RemoteStep, p: PageId, t: ThreadId)
    requires GuardsOk(s) && Remotes(s) && p in s.pages && s.pages[p].delay == DelayedFreeing && GuardOf(s, t, p)
    ensures p in ApplyRemoteStep(s, r).pages
    ensures ApplyRemoteStep(s, r).pages[p].delay != DelayedFreeing ==>
              r == CasReset(t, false) && ApplyRemoteStep(s, r).pages[p].delay == NoDelayed
  {
    if r.CasReset? {
      if CanCasReset(s, r.t, r.spurious) && s.remotes[r.t].b.page == p { assert GuardOf(s, r.t, p); }
    } else {
      StaysByRemote(s, r, p);
    }
  }

  lemma StaysByRemote(s: State, r: RemoteStep, p: PageId)
    requires Remotes(s) && p in s.pages && s.pages[p].delay == DelayedFreeing && !r.CasReset?
    ensures p in ApplyRemoteStep(s, r).pages && ApplyRemoteStep(s, r).pages[p].delay == DelayedFreeing
  {
  }

  // ---------------------------------------------------------------- nobody gets stuck on a bad reference

  /** The heap a thread reads from a page's `xheap` is there, is not null, and is not abandoned. */
  lemma DelayedHeapIsAlive(s: State, t: ThreadId)
    requires Reachable(s) && t in s.remotes && Guards(s.remotes[t])
    ensures
      var p := s.remotes[t].b.page;
      && p in s.pages && s.pages[p].xheap.Some? && s.pages[p].xheap.value in s.heaps
      && !s.heaps[s.pages[p].xheap.value].phase.Draining? && s.heaps[s.pages[p].xheap.value].phase != Done
      && (s.remotes[t].HeapKnown? || s.remotes[t].HeapSeen? ==> s.remotes[t].heap == s.pages[p].xheap.value)
  {
    ReachableOk(s);
    GuardAlive(s, t);
  }

  lemma GuardAlive(s: State, t: ThreadId)
    requires Pages(s) && Heaps(s) && Remotes(s) && t in s.remotes && Guards(s.remotes[t])
    ensures
      var p := s.remotes[t].b.page;
      && p in s.pages && s.pages[p].xheap.Some? && s.pages[p].xheap.value in s.heaps
      && !s.heaps[s.pages[p].xheap.value].phase.Draining? && s.heaps[s.pages[p].xheap.value].phase != Done
      && (s.remotes[t].HeapKnown? || s.remotes[t].HeapSeen? ==> s.remotes[t].heap == s.pages[p].xheap.value)
  {
  }

  /** A freeing thread can always go on: the page and heap it needs are there. */
  lemma RemoteNotStuck(s: State, t: ThreadId)
    requires Reachable(s) && t in s.remotes && s.remotes[t] != Quiet
    ensures
      || CanLoadWord(s, t) || CanCasWord(s, t, false) || CanLoadHeap(s, t) || CanLoadDelayed(s, t)
      || CanCasDelayed(s, t, false) || CanLoadReset(s, t) || CanCasReset(s, t, false)
  {
    ReachableOk(s);
    if Guards(s.remotes[t]) {
      DelayedHeapIsAlive(s, t);
    } else {
      assert RemoteOk(s.spot, s.pages, t, s.remotes[t]);
      assert s.spot[s.remotes[t].b] == WithRemote(t);
    }
  }

  // ---------------------------------------------------------------- abandoned heaps

  /** No thread holds, or is about to follow, a reference to the heap. */
  ghost predicate Unreferenced(s: State, h: HeapId) {
    forall t :: t in s.remotes ==>
      && (s.remotes[t].HeapKnown? || s.remotes[t].HeapSeen? ==> s.remotes[t].heap != h)
      && (s.remotes[t].Delaying? && s.remotes[t].b.page in s.pages ==> s.pages[s.remotes[t].b.page].xheap != Some(h))
  }

  lemma DoneStep(s: State, a: Action, h: HeapId)
    requires h in s.heaps && s.heaps[h].phase == Done
    ensures h in Apply(s, a).heaps && Apply(s, a).heaps[h].phase == Done
  {
    match a
    case OfRemote(r) =>
    case OfPage(g) => DoneByPage(s, g, h);
    case OfDelay(d) => DoneByDelay(s, d, h);
    case OfLife(l) => DoneByLife(s, l, h);
  }

  lemma DoneByPage(s: State, a: PageStep, h: HeapId)
    requires h in s.heaps && s.heaps[h].phase == Done
    ensures h in ApplyPageStep(s, a).heaps && ApplyPageStep(s, a).heaps[h].phase == Done
  {
  }

  lemma DoneBySwitchLoad(s: State, g: HeapId, h: HeapId)
    requires h in s.heaps && s.heaps[h].phase == Done && CanSwitchLoad(s, g)
    ensures h in DoSwitchLoad(s, g).heaps && DoSwitchLoad(s, g).heaps[h].phase == Done
  {
  }

  lemma DoneBySwitchCas(s: State, g: HeapId, spurious: bool, h: HeapId)
    requires h in s.heaps && s.heaps[h].phase == Done && CanSwitchCas(s, g, spurious)
    ensures h in DoSwitchCas(s, g, spurious).heaps && DoSwitchCas(s, g, spurious).heaps[h].phase == Done
  {
  }

  lemma DoneByDelay(s: State, a: DelayStep, h: HeapId)
    requires h in s.heaps && s.heaps[h].phase == Done
    ensures h in ApplyDelayStep(s, a).heaps && ApplyDelayStep(s, a).heaps[h].phase == Done
  {
    match a
    case SwitchLoad(g) => if CanSwitchLoad(s, g) { DoneBySwitchLoad(s, g, h); }
    case SwitchCas(g, spurious) => if CanSwitchCas(s, g, spurious) { DoneBySwitchCas(s, g, spurious, h); }
    case _ =>
  }

  lemma DoneByLife(s: State, a: LifeStep, h: HeapId)
    requires h in s.heaps && s.heaps[h].phase == Done
    ensures h in ApplyLifeStep(s, a).heaps && ApplyLifeStep(s, a).heaps[h].phase == Done
  {
  }

  lemma DoneQuiet(s: State, h: HeapId)
    requires Pages(s) && Heaps(s) && Remotes(s) && h in s.heaps && s.heaps[h].phase == Done
    ensures s.heaps[h].delayed == [] && Unreferenced(s, h)
  {
    forall t | t in s.remotes && Guards(s.remotes[t]) ensures
      && (s.remotes[t].HeapKnown? || s.remotes[t].HeapSeen? ==> s.remotes[t].heap != h)
      && (s.remotes[t].Delaying? && s.remotes[t].b.page in s.pages ==> s.pages[s.remotes[t].b.page].xheap != Some(h))
    {
      GuardAlive(s, t);
    }
  }

  /** Once a heap is marked and drained, its delayed list is empty for the rest of every run. */
  lemma {:induction false} DoneForever(s: State, h: HeapId, actions: seq<Action>)
    requires Reachable(s) && h in s.heaps && s.heaps[h].phase == Done
    ensures var s' := Run(s, actions);
            h in s'.heaps && s'.heaps[h].delayed == [] && Unreferenced(s', h)
  {
    ReachableOk(s);
    DoneForeverFrom(s, h, actions);
  }

  lemma {:induction false} DoneForeverFrom(s: State, h: HeapId, actions: seq<Action>)
    requires Inv(s) && h in s.heaps && s.heaps[h].phase == Done
    ensures var s' := Run(s, actions);
            h in s'.heaps && s'.heaps[h].delayed == [] && Unreferenced(s', h)
    decreases |actions|
  {
    if actions == [] {
      DoneQuiet(s, h);
    } else {
      StepKeeps(s, actions[0]);
      DoneStep(s, actions[0], h);
      DoneForeverFrom(Apply(s, actions[0]), h, actions[1..]);
    }
  }
}
