/**
 The invariant of the remote-free protocol, and the frame argument shared by most steps: a step
 that touches one page, one heap and one thread, and leaves those in order, keeps it.
 */
module PageInvariant {
  import opened Sequences
  import opened PageProtocol

  // ---------------------------------------------------------------- chains

  /** `l` holds, once each, exactly the blocks that are at `where`. */
  ghost predicate Chain(spot: map<Block, Spot>, l: seq<Block>, where: Spot) {
    forall b :: multiset(l)[b] == if b in spot && spot[b] == where then 1 else 0
  }

  /** A move between two other places. */
  lemma ChainOther(spot: map<Block, Spot>, l: seq<Block>, where: Spot, b: Block, to: Spot)
    requires Chain(spot, l, where) && b in spot && spot[b] != where && to != where
    ensures Chain(spot[b := to], l, where)
  {
  }

  lemma ChainPush(spot: map<Block, Spot>, l: seq<Block>, b: Block, where: Spot)
    requires Chain(spot, l, where) && b in spot && spot[b] != where
    ensures Chain(spot[b := where], [b] + l, where)
  {
  }

  lemma ChainPop(spot: map<Block, Spot>, l: seq<Block>, where: Spot, to: Spot)
    requires Chain(spot, l, where) && l != [] && to != where
    ensures l[0] in spot && spot[l[0]] == where
    ensures Chain(spot[l[0] := to], l[1..], where)
  {
    assert l == [l[0]] + l[1..];
    assert multiset(l)[l[0]] >= 1;
  }

  lemma ChainJoin(spot: map<Block, Spot>, l: seq<Block>, m: seq<Block>, from: Spot, to: Spot)
    requires Chain(spot, l, from) && Chain(spot, m, to) && from != to
    ensures Chain(Relabel(spot, from, to), l + m, to)
    ensures Chain(Relabel(spot, from, to), [], from)
  {
  }

  // ---------------------------------------------------------------- invariant

  predicate HasBlock(r: Remote) {
    r.Freeing? || r.Loaded? || r.Delaying? || r.HeapKnown? || r.HeapSeen?
  }

  ghost predicate PageLists(spot: map<Block, Spot>, p: PageId, pg: Page) {
    && Chain(spot, pg.free, OnFree(p))
    && Chain(spot, pg.localFree, OnLocal(p))
    && Chain(spot, pg.threadFree, OnThread(p))
  }

  ghost predicate HeapLists(spot: map<Block, Spot>, h: HeapId, hp: Heap) {
    && Chain(spot, hp.delayed, Delayed(h))
    && Chain(spot, hp.taken, Taken(h))
    && Chain(spot, hp.collected, Collected(h))
  }

  /** Every list of the state holds, once each, exactly the blocks that are there. */
  ghost predicate Lists(s: State) {
    && (forall p {:trigger s.pages[p]} :: p in s.pages ==> PageLists(s.spot, p, s.pages[p]))
    && (forall h {:trigger s.heaps[h]} :: h in s.heaps ==> HeapLists(s.spot, h, s.heaps[h]))
  }

  /** A block that a heap holds outside of its page belongs to a page attached to that heap. */
  predicate AttachedTo(pages: map<PageId, Page>, b: Block, h: HeapId) {
    b.page in pages && pages[b.page].xheap == Some(h)
  }

  /** Spots name existing pages, heaps and threads; page lists hold the page's own blocks. */
  ghost predicate SpotOk(s: State, b: Block, where: Spot) {
    match where
    case Live => true
    case OnFree(p) => p == b.page
    case OnLocal(p) => p == b.page
    case OnThread(p) => p == b.page
    case Collected(h) => h in s.heaps && s.heaps[h].pc == Splicing(b.page)
    case Delayed(h) => h in s.heaps && AttachedTo(s.pages, b, h)
    case Taken(h) => h in s.heaps && AttachedTo(s.pages, b, h)
    case InHand(h) => h in s.heaps && AttachedTo(s.pages, b, h) && s.heaps[h].hand == Held(b)
    case ClearedBy(h) => h in s.heaps && AttachedTo(s.pages, b, h) && s.heaps[h].hand == Cleared(b)
    case WithRemote(t) => t in s.remotes && HasBlock(s.remotes[t]) && s.remotes[t].b == b
  }

  ghost predicate Spots(s: State) {
    forall b {:trigger s.spot[b]} :: b in s.spot ==> b.page in s.pages && SpotOk(s, b, s.spot[b])
  }

  /** `used` counts every block that is on neither of the owner's lists. */
  ghost predicate PageOk(pg: Page) {
    && pg.used + |pg.free| + |pg.localFree| == pg.capacity
    && (pg.xheap.Some? ==> pg.owner == pg.xheap)
    && (pg.xheap.None? ==> pg.delay == NeverDelayed)
  }

  ghost predicate Pages(s: State) {
    && (forall p {:trigger s.pages[p]} :: p in s.pages ==> PageOk(s.pages[p]))
    && (forall p {:trigger s.pages[p]} :: p in s.pages && s.pages[p].xheap.Some? ==> s.pages[p].xheap.value in s.heaps)
    && (forall b: Block :: b.page in s.pages ==> (b in s.spot <==> b.index < s.pages[b.page].capacity))
  }

  predicate OwnedBy(pages: map<PageId, Page>, h: HeapId, p: PageId) {
    p in pages && pages[p].owner == Some(h)
  }

  ghost predicate PurposeOk(pages: map<PageId, Page>, h: HeapId, hp: Heap, p: PageId, purpose: Purpose) {
    match purpose
    case ForDelayed => hp.hand.Held? && hp.hand.b.page == p && !hp.phase.Marking?
    case ForMark => hp.phase.Marking? && p in hp.phase.todo
    case ForReclaim => hp.phase == Open && p in pages && pages[p].xheap == Some(h)
  }

  ghost predicate PcOk(pages: map<PageId, Page>, h: HeapId, hp: Heap) {
    && (!hp.pc.Splicing? ==> hp.collected == [])
    && match hp.pc {
         case Ready => true
         case TakeLoaded(_) => hp.taken == [] && hp.hand == Empty && !hp.phase.Marking?
         case Switching(p, purpose, _) => OwnedBy(pages, h, p) && PurposeOk(pages, h, hp, p, purpose)
         case SwitchLoaded(p, purpose, _, seen) =>
           && OwnedBy(pages, h, p) && PurposeOk(pages, h, hp, p, purpose)
           && seen.delay != DelayedFreeing
           && (purpose == ForDelayed ==> hp.phase == Open)
         case CollectLoaded(p, _) => OwnedBy(pages, h, p)
         case Splicing(p) => OwnedBy(pages, h, p)
         case GivenUp => hp.hand.Held? && hp.phase == Open
         case Reinserting(_) => hp.hand.Held? && hp.phase == Open
       }
  }

  ghost predicate HandOk(spot: map<Block, Spot>, h: HeapId, hand: Hand) {
    && (hand.Held? ==> hand.b in spot && spot[hand.b] == InHand(h))
    && (hand.Cleared? ==> hand.b in spot && spot[hand.b] == ClearedBy(h))
  }

  /** From EndMark on, every page attached to the heap is NEVER_DELAYED. */
  ghost predicate PhaseOk(pages: map<PageId, Page>, h: HeapId, hp: Heap) {
    match hp.phase
    case Open => true
    case Marking(todo) =>
      && hp.taken == [] && hp.hand == Empty
      && forall p :: OwnedBy(pages, h, p) ==> pages[p].xheap == Some(h) && (p in todo || pages[p].delay == NeverDelayed)
    case Draining(swept) =>
      && (swept ==> hp.delayed == [])
      && forall p :: OwnedBy(pages, h, p) ==> pages[p].xheap == Some(h) && pages[p].delay == NeverDelayed
    case Done =>
      && hp.delayed == [] && hp.taken == [] && hp.hand == Empty
      && forall p :: OwnedBy(pages, h, p) ==> pages[p].xheap == Some(h) && pages[p].delay == NeverDelayed
  }

  ghost predicate HeapOk(spot: map<Block, Spot>, pages: map<PageId, Page>, h: HeapId, hp: Heap) {
    PcOk(pages, h, hp) && HandOk(spot, h, hp.hand) && PhaseOk(pages, h, hp)
  }

  ghost predicate Heaps(s: State) {
    forall h {:trigger s.heaps[h]} :: h in s.heaps ==> HeapOk(s.spot, s.pages, h, s.heaps[h])
  }

  /** The thread is between setting and resetting DELAYED_FREEING on the page of its block. */
  predicate Guards(r: Remote) {
    r.Delaying? || r.HeapKnown? || r.HeapSeen? || r.Resetting? || r.ResetLoaded?
  }

  /** Handed to the heap, and not yet cleared for the owner's local free. */
  predicate Pushed(spot: map<Block, Spot>, b: Block) {
    b in spot && (spot[b].Delayed? || spot[b].Taken? || spot[b].InHand?)
  }

  ghost predicate RemoteOk(spot: map<Block, Spot>, pages: map<PageId, Page>, t: ThreadId, r: Remote) {
    && (HasBlock(r) ==> r.b in spot && spot[r.b] == WithRemote(t))
    && (Guards(r) ==> r.b.page in pages && pages[r.b.page].delay == DelayedFreeing)
    && (r.HeapKnown? || r.HeapSeen? ==> AttachedTo(pages, r.b, r.heap))
    && (r.Resetting? || r.ResetLoaded? ==> Pushed(spot, r.b))
    && (r.ResetLoaded? ==> r.seen.delay == DelayedFreeing)
  }

  ghost predicate Remotes(s: State) {
    forall t {:trigger s.remotes[t]} :: t in s.remotes ==> RemoteOk(s.spot, s.pages, t, s.remotes[t])
  }

  predicate GuardOf(s: State, t: int, p: PageId) {
    t in s.remotes && Guards(s.remotes[t]) && s.remotes[t].b.page == p
  }

  /** A page is in DELAYED_FREEING exactly while one thread guards it. */
  ghost predicate GuardsOk(s: State) {
    && (forall t, u, p :: GuardOf(s, t, p) && GuardOf(s, u, p) ==> t == u)
    && (forall p {:trigger s.pages[p]} :: p in s.pages && s.pages[p].delay == DelayedFreeing ==> exists t :: GuardOf(s, t, p))
  }

  ghost predicate Inv(s: State) {
    Lists(s) && Spots(s) && Pages(s) && Heaps(s) && Remotes(s) && GuardsOk(s)
  }


  // ---------------------------------------------------------------- local steps

  /** Stands for "no page", "no heap" or "no thread" in a local step. */
  const NONE: int := -1

  /** At most page `p`, heap `h` and thread `t` change; no page changes hands. */
  ghost predicate Near(s: State, s': State, p: int, h: int, t: int) {
    && s'.pages.Keys == s.pages.Keys && s'.heaps.Keys == s.heaps.Keys
    && s'.remotes.Keys == s.remotes.Keys && s'.spot.Keys == s.spot.Keys
    && (forall q :: q in s.pages && q != p ==> s'.pages[q] == s.pages[q])
    && (forall k :: k in s.heaps && k != h ==> s'.heaps[k] == s.heaps[k])
    && (forall u :: u in s.remotes && u != t ==> s'.remotes[u] == s.remotes[u])
    && (p in s.pages ==>
          && s'.pages[p].owner == s.pages[p].owner && s'.pages[p].xheap == s.pages[p].xheap
          && s'.pages[p].capacity == s.pages[p].capacity
          && (s.pages[p].delay == NeverDelayed && s.pages[p].owner != Some(h) ==> s'.pages[p].delay == NeverDelayed))
  }

  /** A place in page `p`, heap `h` or thread `t`. */
  predicate SpotNear(where: Spot, p: int, h: int, t: int) {
    match where
    case Live => true
    case OnFree(q) => q == p
    case OnLocal(q) => q == p
    case OnThread(q) => q == p
    case WithRemote(u) => u == t
    case _ => where.h == h
  }

  /** Blocks move only between the places of `p`, `h` and `t`. */
  ghost predicate MovesNear(spot: map<Block, Spot>, spot': map<Block, Spot>, p: int, h: int, t: int) {
    && spot.Keys == spot'.Keys
    && forall b :: b in spot && spot'[b] != spot[b] ==> SpotNear(spot[b], p, h, t) && SpotNear(spot'[b], p, h, t)
  }

  /** Blocks at a place of `h` or `t`, or just moved, are in order; a guarding block stays handed over. */
  ghost predicate MovesOk(s: State, s': State, p: int, h: int, t: int)
    requires s'.spot.Keys == s.spot.Keys
  {
    forall b :: b in s.spot ==>
      && ((SpotNear(s'.spot[b], NONE, h, t) && !s'.spot[b].Live?) || s'.spot[b] != s.spot[b] ==> SpotOk(s', b, s'.spot[b]))
      && (s'.spot[b] != s.spot[b] && Pushed(s.spot, b) && !Pushed(s'.spot, b) ==>
            b.page in s'.pages && s'.pages[b.page].delay != DelayedFreeing)
  }

  /** The three ways a step may deal with DELAYED_FREEING on page `p`. */
  ghost predicate GuardStep(s: State, s': State, p: int, t: int) {
    if t in s.remotes && t in s'.remotes && Guards(s.remotes[t]) != Guards(s'.remotes[t]) then
      && p in s.pages && p in s'.pages
      && if Guards(s'.remotes[t]) then
           s'.remotes[t].b.page == p && s.pages[p].delay != DelayedFreeing && s'.pages[p].delay == DelayedFreeing
         else
           s.remotes[t].b.page == p && s'.pages[p].delay != DelayedFreeing
    else
      && (t in s.remotes && t in s'.remotes && Guards(s.remotes[t]) ==> s'.remotes[t].b == s.remotes[t].b)
      && (p in s.pages && p in s'.pages ==> (s.pages[p].delay == DelayedFreeing <==> s'.pages[p].delay == DelayedFreeing))
  }

  lemma FarPage(spot: map<Block, Spot>, spot': map<Block, Spot>, p: int, h: int, t: int, q: PageId, pg: Page)
    requires PageLists(spot, q, pg) && MovesNear(spot, spot', p, h, t) && q != p
    ensures PageLists(spot', q, pg)
  {
  }

  lemma FarHeap(spot: map<Block, Spot>, spot': map<Block, Spot>, p: int, h: int, t: int, k: HeapId, hp: Heap)
    requires HeapLists(spot, k, hp) && MovesNear(spot, spot', p, h, t) && k != h
    ensures HeapLists(spot', k, hp)
  {
  }

  lemma NearLists(s: State, s': State, p: int, h: int, t: int)
    requires Lists(s) && Near(s, s', p, h, t) && MovesNear(s.spot, s'.spot, p, h, t)
    requires p in s.pages ==> PageLists(s'.spot, p, s'.pages[p])
    requires h in s.heaps ==> HeapLists(s'.spot, h, s'.heaps[h])
    ensures Lists(s')
  {
    forall q | q in s'.pages ensures PageLists(s'.spot, q, s'.pages[q]) {
      if q != p { FarPage(s.spot, s'.spot, p, h, t, q, s.pages[q]); }
    }
    forall k | k in s'.heaps ensures HeapLists(s'.spot, k, s'.heaps[k]) {
      if k != h { FarHeap(s.spot, s'.spot, p, h, t, k, s.heaps[k]); }
    }
  }

  lemma NearSpots(s: State, s': State, p: int, h: int, t: int)
    requires Spots(s) && Near(s, s', p, h, t) && MovesOk(s, s', p, h, t)
    ensures Spots(s')
  {
  }

  lemma NearPages(s: State, s': State, p: int, h: int, t: int)
    requires Pages(s) && Near(s, s', p, h, t)
    requires p in s.pages ==> PageOk(s'.pages[p])
    ensures Pages(s')
  {
  }

  lemma NearHeap(s: State, s': State, p: int, h: int, t: int, k: HeapId)
    requires k in s.heaps && k != h && HeapOk(s.spot, s.pages, k, s.heaps[k])
    requires Near(s, s', p, h, t) && MovesNear(s.spot, s'.spot, p, h, t)
    ensures HeapOk(s'.spot, s'.pages, k, s.heaps[k])
  {
  }

  lemma NearHeaps(s: State, s': State, p: int, h: int, t: int)
    requires Heaps(s) && Near(s, s', p, h, t) && MovesNear(s.spot, s'.spot, p, h, t)
    requires h in s.heaps ==> HeapOk(s'.spot, s'.pages, h, s'.heaps[h])
    ensures Heaps(s')
  {
    forall k | k in s'.heaps ensures HeapOk(s'.spot, s'.pages, k, s'.heaps[k]) {
      if k != h { NearHeap(s, s', p, h, t, k); }
    }
  }

  lemma NearRemotes(s: State, s': State, p: int, h: int, t: int)
    requires Remotes(s) && GuardsOk(s) && Near(s, s', p, h, t)
    requires MovesNear(s.spot, s'.spot, p, h, t) && MovesOk(s, s', p, h, t) && GuardStep(s, s', p, t)
    requires t in s.remotes ==> RemoteOk(s'.spot, s'.pages, t, s'.remotes[t])
    ensures Remotes(s')
  {
    forall u | u in s'.remotes && u != t ensures RemoteOk(s'.spot, s'.pages, u, s'.remotes[u]) {
      var r := s.remotes[u];
      if Guards(r) {
        assert GuardOf(s, u, r.b.page);
        if t in s.remotes && Guards(s.remotes[t]) { assert GuardOf(s, t, s.remotes[t].b.page); }
      }
    }
  }

  lemma NearGuards(s: State, s': State, p: int, h: int, t: int)
    requires GuardsOk(s) && Remotes(s) && Near(s, s', p, h, t) && GuardStep(s, s', p, t)
    ensures GuardsOk(s')
  {
    assert forall u, q :: u != t ==> GuardOf(s', u, q) == GuardOf(s, u, q);
    forall u, v, q | GuardOf(s', u, q) && GuardOf(s', v, q) ensures u == v {
      assert u != v ==> (u == t || GuardOf(s, u, q)) && (v == t || GuardOf(s, v, q));
      if GuardOf(s, t, q) { assert u != t ==> GuardOf(s, u, q); }
    }
    forall q | q in s'.pages && s'.pages[q].delay == DelayedFreeing ensures exists u :: GuardOf(s', u, q) {
      if q in s.pages && s.pages[q].delay == DelayedFreeing {
        var u :| GuardOf(s, u, q);
        assert GuardOf(s', u, q);
      } else {
        assert GuardOf(s', t, q);
      }
    }
  }

  /** The lists of page `p` and heap `h` are in order. */
  ghost predicate ListsIn(s: State, p: int, h: int) {
    && (p in s.pages ==> PageLists(s.spot, p, s.pages[p]))
    && (h in s.heaps ==> HeapLists(s.spot, h, s.heaps[h]))
  }

  /** The other clauses about page `p`, heap `h` and thread `t`. */
  ghost predicate FactsIn(s: State, p: int, h: int, t: int) {
    && (p in s.pages ==> PageOk(s.pages[p]))
    && (h in s.heaps ==> HeapOk(s.spot, s.pages, h, s.heaps[h]))
    && (t in s.remotes ==> RemoteOk(s.spot, s.pages, t, s.remotes[t]))
  }

  /** What the invariant says about page `p`, heap `h` and thread `t`. */
  ghost predicate Local(s: State, p: int, h: int, t: int) {
    Spots(s) && ListsIn(s, p, h) && FactsIn(s, p, h, t)
  }

  /** A step that touches only `p`, `h` and `t`. */
  ghost predicate Shape(s: State, s': State, p: int, h: int, t: int) {
    && Near(s, s', p, h, t)
    && MovesNear(s.spot, s'.spot, p, h, t) && MovesOk(s, s', p, h, t)
    && GuardStep(s, s', p, t)
  }

  /** A step that touches only `p`, `h` and `t`, and leaves them in order. */
  ghost predicate Sound(s: State, s': State, p: int, h: int, t: int) {
    Shape(s, s', p, h, t) && ListsIn(s', p, h) && FactsIn(s', p, h, t)
  }

  lemma Locally(s: State, p: int, h: int, t: int)
    requires Inv(s)
    ensures Local(s, p, h, t)
  {
  }

  lemma NearStep(s: State, s': State, p: int, h: int, t: int)
    requires Inv(s) && Sound(s, s', p, h, t)
    ensures Inv(s')
  {
    NearLists(s, s', p, h, t);
    NearSpots(s, s', p, h, t);
    NearPages(s, s', p, h, t);
    NearHeaps(s, s', p, h, t);
    NearRemotes(s, s', p, h, t);
    NearGuards(s, s', p, h, t);
  }
}
