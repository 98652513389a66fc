/**
 The invariant of the abandoned lists, and that every step keeps it.
 */
module AbandonedInvariant {
  import opened Sequences
  import opened AbandonedProtocol

  // ---------------------------------------------------------------- lists and their links

  /** `l` holds, once each, exactly the segments at `where`. */
  ghost predicate ListAt(spot: map<Seg, Spot>, l: seq<Seg>, where: Spot) {
    forall g :: multiset(l)[g] == if g in spot && spot[g] == where then 1 else 0
  }

  /** `l` holds segments of thread `t`, none of them twice. */
  ghost predicate PartOf(spot: map<Seg, Spot>, l: seq<Seg>, t: Tid) {
    forall g :: multiset(l)[g] <= if HeldBy(spot, g, t) then 1 else 0
  }

  function After(l: seq<Seg>, i: nat, end: Option<Seg>): Option<Seg>
    requires i < |l|
  {
    if i + 1 < |l| then Some(l[i + 1]) else end
  }

  predicate LinkAt(next: map<Seg, Option<Seg>>, l: seq<Seg>, i: nat, end: Option<Seg>) {
    i < |l| && l[i] in next && next[l[i]] == After(l, i, end)
  }

  /** From `ptr`, following `abandoned_next`, one comes by exactly `l` and then to `end`. */
  ghost predicate Links(next: map<Seg, Option<Seg>>, ptr: Option<Seg>, l: seq<Seg>, end: Option<Seg>) {
    && ptr == (if l == [] then end else Some(l[0]))
    && forall i {:trigger LinkAt(next, l, i, end)} :: 0 <= i < |l| ==> LinkAt(next, l, i, end)
  }

  lemma LinksSame(next: map<Seg, Option<Seg>>, next': map<Seg, Option<Seg>>, ptr: Option<Seg>, l: seq<Seg>, end: Option<Seg>)
    requires Links(next, ptr, l, end)
    requires forall g :: g in l && g in next ==> g in next' && next'[g] == next[g]
    ensures Links(next', ptr, l, end)
  {
    forall i: nat | i < |l| ensures LinkAt(next', l, i, end) {
      assert LinkAt(next, l, i, end);
      assert l[i] in l;
    }
  }

  lemma LinksJoin(next: map<Seg, Option<Seg>>, ptr: Option<Seg>, l: seq<Seg>, mid: Option<Seg>, m: seq<Seg>, end: Option<Seg>)
    requires Links(next, ptr, l, mid) && Links(next, mid, m, end)
    ensures Links(next, ptr, l + m, end)
  {
    var r := l + m;
    forall i: nat | i < |r| ensures LinkAt(next, r, i, end) {
      if i < |l| {
        assert LinkAt(next, l, i, mid);
      } else {
        assert LinkAt(next, m, i - |l|, end);
      }
    }
  }

  lemma LinksTail(next: map<Seg, Option<Seg>>, ptr: Option<Seg>, l: seq<Seg>, end: Option<Seg>)
    requires Links(next, ptr, l, end) && l != []
    ensures ptr == Some(l[0]) && l[0] in next && next[l[0]] == After(l, 0, end)
    ensures Links(next, next[l[0]], l[1..], end)
  {
    assert LinkAt(next, l, 0, end);
    forall i: nat | i < |l[1..]| ensures LinkAt(next, l[1..], i, end) {
      assert LinkAt(next, l, i + 1, end);
    }
  }

  /** A new link of the last segment. */
  lemma LinksEnd(next: map<Seg, Option<Seg>>, ptr: Option<Seg>, l: seq<Seg>, end: Option<Seg>, end': Option<Seg>)
    requires Links(next, ptr, l, end) && l != []
    requires forall i, j :: 0 <= i < j < |l| ==> l[i] != l[j]
    ensures Links(next[l[|l| - 1] := end'], ptr, l, end')
  {
    var next' := next[l[|l| - 1] := end'];
    forall i: nat | i < |l| ensures LinkAt(next', l, i, end') {
      assert LinkAt(next, l, i, end);
    }
  }

  lemma PartDistinct(spot: map<Seg, Spot>, l: seq<Seg>, t: Tid)
    requires PartOf(spot, l, t)
    ensures forall i, j :: 0 <= i < j < |l| ==> l[i] != l[j]
    ensures forall g :: g in l ==> HeldBy(spot, g, t)
  {
    forall i, j | 0 <= i < j < |l| ensures l[i] != l[j] {
      if l[i] == l[j] {
        Twice(l, i, j);
      }
    }
    forall g | g in l ensures HeldBy(spot, g, t) {
      assert multiset(l)[g] >= 1;
    }
  }

  lemma Twice(l: seq<Seg>, i: nat, j: nat)
    requires i < j < |l| && l[i] == l[j]
    ensures multiset(l)[l[i]] >= 2
  {
    assert l == l[..j] + l[j..];
    assert multiset(l) == multiset(l[..j]) + multiset(l[j..]);
    assert l[..j][i] == l[i] && l[j..][0] == l[j];
  }

  // ---------------------------------------------------------------- invariant

  /** A tagged pointer read earlier: with the current tag it is the current pointer. */
  predicate Snap(s: State, ts: Word) {
    ts.tag <= s.top.tag && (ts.tag == s.top.tag ==> ts == s.top)
  }

  /** The thread has counted itself as a reader. */
  predicate Reader(pc: Pc) {
    pc.PopLoading? || pc.PopSeen? || pc.PopRead? || pc.PopLeaving?
  }

  /** The segment whose link the thread reads, or has read just now. */
  function Looks(pc: Pc): Option<Seg> {
    match pc
    case PopSeen(ts) => ts.ptr
    case PopRead(ts, _) => ts.ptr
    case _ => None
  }

  /** The chain that a thread took over from the visited list. */
  ghost predicate ChainOk(s: State, t: Tid)
    requires t in s.pcs && t in s.chains
  {
    match s.pcs[t]
    case Grabbed(first, _) => Links(s.next, Some(first), s.chains[t], None)
    case SwapSeen(first, ts, _) => Links(s.next, Some(first), s.chains[t], None) && ts.ptr.None?
    case Walking(first, last, _) => Links(s.next, Some(first), s.chains[t], None) && last in s.chains[t]
    case AtEnd(first, last, _) =>
      s.chains[t] != [] && last == s.chains[t][|s.chains[t]| - 1] && last in s.next && Links(s.next, Some(first), s.chains[t], s.next[last])
    case TailLoaded(first, last, ts, _) =>
      s.chains[t] != [] && last == s.chains[t][|s.chains[t]| - 1] && last in s.next && Links(s.next, Some(first), s.chains[t], s.next[last])
    case TailStored(first, last, ts, _) =>
      s.chains[t] != [] && last == s.chains[t][|s.chains[t]| - 1] && last in s.next && Links(s.next, Some(first), s.chains[t], ts.ptr)
    case _ => s.chains[t] == []
  }

  ghost predicate PcOk(s: State, t: Tid)
    requires t in s.pcs
  {
    match s.pcs[t]
    case PushLoaded(g, ts) => Holds(s, t, g) && Snap(s, ts)
    case PushStored(g, ts) => Holds(s, t, g) && Snap(s, ts) && s.next[g] == ts.ptr
    case VisitLoaded(g, seen) => Holds(s, t, g)
    case VisitStored(g, seen) => Holds(s, t, g) && s.next[g] == seen
    case SwapSeen(_, ts, _) => Snap(s, ts)
    case TailLoaded(_, _, ts, _) => Snap(s, ts)
    case TailStored(_, _, ts, _) => Snap(s, ts)
    case PopSeen(ts) => Snap(s, ts) && ts.ptr.Some?
    case PopRead(ts, anext) => Snap(s, ts) && ts.ptr.Some? && (ts == s.top ==> ts.ptr.value in s.next && anext == s.next[ts.ptr.value])
    case PopLeaving(got) => got.Some? ==> Holds(s, t, got.value)
    case PopClearing(g) => Holds(s, t, g)
    case Awaiting(g) => Holds(s, t, g)
    case Freeing(g) => Holds(s, t, g)
    case _ => true
  }

  /** What one thread relies on. */
  ghost predicate ThreadOk(s: State, t: Tid) {
    t in s.pcs && t in s.chains && PartOf(s.spot, s.chains[t], t) && ChainOk(s, t) && PcOk(s, t)
  }

  ghost predicate Threads(s: State) {
    forall t {:trigger ThreadOk(s, t)} :: t in s.pcs ==> ThreadOk(s, t)
  }

  ghost predicate Lists(s: State) {
    && Links(s.next, s.top.ptr, s.alist, None) && ListAt(s.spot, s.alist, OnAbandoned)
    && Links(s.next, s.visited, s.vlist, None) && ListAt(s.spot, s.vlist, OnVisited)
    && s.next.Keys == s.spot.Keys
  }

  /** Whoever holds a segment is one of the threads. */
  ghost predicate Holders(s: State) {
    forall g :: g in s.spot && s.spot[g].With? ==> s.spot[g].t in s.pcs
  }

  ghost function Readers(pcs: map<Tid, Pc>): set<Tid> {
    set t | t in pcs && Reader(pcs[t])
  }

  ghost predicate Counted(s: State) {
    s.readers == |Readers(s.pcs)|
  }

  /** No segment that is about to go back to the operating system is still looked at. */
  predicate Unread(pcs: map<Tid, Pc>, g: Seg) {
    forall u :: u in pcs ==> Looks(pcs[u]) != Some(g)
  }

  ghost predicate Reading(s: State) {
    && (forall t {:trigger Looks(s.pcs[t])} :: t in s.pcs && Looks(s.pcs[t]).Some? ==> Looks(s.pcs[t]).value in s.next)
    && (forall t {:trigger s.pcs[t]} :: t in s.pcs && s.pcs[t].Freeing? ==> Unread(s.pcs, s.pcs[t].g))
  }

  ghost predicate Inv(s: State) {
    Lists(s) && Threads(s) && Holders(s) && Counted(s) && Reading(s)
  }

  // ---------------------------------------------------------------- other threads

  predicate Kept(s: State, s': State, g: Seg) {
    g in s.next ==> g in s'.next && s'.next[g] == s.next[g]
  }

  /** What a step of thread `t` leaves alone. */
  ghost predicate Near(s: State, s': State, t: Tid) {
    && t in s.pcs && s'.pcs.Keys == s.pcs.Keys && s'.chains.Keys == s.chains.Keys
    && (forall u {:trigger s'.pcs[u]} :: u in s.pcs && u != t ==> s'.pcs[u] == s.pcs[u])
    && (forall u {:trigger s'.chains[u]} :: u in s.chains && u != t ==> s'.chains[u] == s.chains[u])
    && (forall g {:trigger Kept(s, s', g)} :: !HeldBy(s.spot, g, t) ==> Kept(s, s', g))
    && (forall g, u {:trigger HeldBy(s'.spot, g, u)} {:trigger HeldBy(s.spot, g, u)} :: u != t ==> HeldBy(s'.spot, g, u) == HeldBy(s.spot, g, u))
    && (s'.top == s.top || s'.top.tag > s.top.tag)
  }

  lemma OtherThread(s: State, s': State, t: Tid, u: Tid)
    requires Near(s, s', t) && u in s.pcs && u != t && ThreadOk(s, u) && Lists(s)
    ensures ThreadOk(s', u)
  {
    assert s'.pcs[u] == s.pcs[u] && s'.chains[u] == s.chains[u];
    PartDistinct(s.spot, s.chains[u], u);
    OtherChain(s, s', t, u);
    OtherPc(s, s', t, u);
  }

  lemma OtherChain(s: State, s': State, t: Tid, u: Tid)
    requires Near(s, s', t) && u in s.pcs && u != t && ThreadOk(s, u) && Lists(s)
    requires s'.pcs[u] == s.pcs[u] && s'.chains[u] == s.chains[u]
    requires forall g :: g in s.chains[u] ==> HeldBy(s.spot, g, u)
    ensures ChainOk(s', u)
  {
    var l := s.chains[u];
    forall g | g in l ensures Kept(s, s', g) { assert HeldBy(s.spot, g, u); }
    SameChain(s, s', u);
  }

  /** The links of a chain are as before: so is the chain. */
  lemma SameChain(s: State, s': State, u: Tid)
    requires u in s.pcs && u in s.chains && u in s'.pcs && u in s'.chains && ChainOk(s, u)
    requires s'.pcs[u] == s.pcs[u] && s'.chains[u] == s.chains[u]
    requires forall g {:trigger Kept(s, s', g)} :: g in s.chains[u] ==> Kept(s, s', g)
    ensures ChainOk(s', u)
  {
    var l := s.chains[u];
    assert forall g :: g in l && g in s.next ==> g in s'.next && s'.next[g] == s.next[g] by {
      forall g | g in l && g in s.next ensures g in s'.next && s'.next[g] == s.next[g] { assert Kept(s, s', g); }
    }
    match s.pcs[u]
    case Grabbed(first, _) => LinksSame(s.next, s'.next, Some(first), l, None);
    case SwapSeen(first, ts, _) => LinksSame(s.next, s'.next, Some(first), l, None);
    case Walking(first, last, _) => LinksSame(s.next, s'.next, Some(first), l, None);
    case AtEnd(first, last, _) => LinksSame(s.next, s'.next, Some(first), l, s.next[last]);
    case TailLoaded(first, last, ts, _) => LinksSame(s.next, s'.next, Some(first), l, s.next[last]);
    case TailStored(first, last, ts, _) => LinksSame(s.next, s'.next, Some(first), l, ts.ptr);
    case _ =>
  }

  lemma TopIsListed(s: State)
    requires Lists(s) && s.top.ptr.Some?
    ensures s.alist != [] && s.top.ptr.value == s.alist[0]
    ensures s.top.ptr.value in s.spot && s.spot[s.top.ptr.value] == OnAbandoned && s.top.ptr.value in s.next
  {
    assert multiset(s.alist)[s.alist[0]] >= 1;
    assert LinkAt(s.next, s.alist, 0, None);
  }

  lemma OtherPc(s: State, s': State, t: Tid, u: Tid)
    requires Near(s, s', t) && u in s.pcs && u != t && PcOk(s, u) && Lists(s) && s'.pcs[u] == s.pcs[u]
    ensures PcOk(s', u)
  {
    assert forall g :: Holds(s, u, g) ==> Holds(s', u, g) && s'.next[g] == s.next[g] by {
      forall g | Holds(s, u, g) ensures Holds(s', u, g) && s'.next[g] == s.next[g] {
        assert Kept(s, s', g) && HeldBy(s'.spot, g, u);
      }
    }
    if s.pcs[u].PopRead? {
      var ts := s.pcs[u].ts;
      if ts == s'.top {
        assert ts == s.top;
        TopIsListed(s);
        assert Kept(s, s', ts.ptr.value);
      }
    }
  }

  /** A step is sound when it keeps the lists and leaves its own thread in order. */
  lemma NearKeeps(s: State, s': State, t: Tid)
    requires Inv(s) && Near(s, s', t) && Lists(s') && ThreadOk(s', t)
    ensures Threads(s') && Holders(s')
  {
    forall u | u in s'.pcs ensures ThreadOk(s', u) {
      if u != t { assert ThreadOk(s, u); OtherThread(s, s', t, u); }
    }
    forall g | g in s'.spot && s'.spot[g].With? ensures s'.spot[g].t in s'.pcs {
      var u := s'.spot[g].t;
      if u != t { assert HeldBy(s'.spot, g, u); }
    }
  }
}
