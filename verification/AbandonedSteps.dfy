/**
 Every step on the abandoned lists keeps the invariant.
 */
module AbandonedSteps {
  import opened Sequences
  import opened AbandonedProtocol
  import opened AbandonedInvariant

  // ---------------------------------------------------------------- readers

  /** A thread that becomes a reader, or stops being one, counts for one. */
  lemma ReadersMove(pcs: map<Tid, Pc>, t: Tid, pc: Pc)
    requires t in pcs
    ensures |Readers(pcs[t := pc])| == |Readers(pcs)| + (if Reader(pc) then 1 else 0) - (if Reader(pcs[t]) then 1 else 0)
  {
    assert Readers(pcs[t := pc]) == if Reader(pc) then Readers(pcs) + {t} else Readers(pcs) - {t};
  }

  lemma NoReaders(s: State, u: Tid)
    requires Counted(s) && s.readers == 0 && u in s.pcs
    ensures Looks(s.pcs[u]).None?
  {
    assert |Readers(s.pcs)| == 0;
    assert u !in Readers(s.pcs);
  }

  /** A thread starts to look only at the segment on top of the abandoned list. */
  predicate MayLook(s: State, t: Tid, pc: Pc)
    requires t in s.pcs
  {
    Looks(pc).None? || Looks(pc) == Looks(s.pcs[t]) || Looks(pc) == s.top.ptr
  }

  lemma LookedAtMapped(s: State, s': State, t: Tid)
    requires Inv(s) && t in s.pcs && t in s'.pcs && s'.pcs == s.pcs[t := s'.pcs[t]]
    requires forall g :: g in s.next ==> g in s'.next || s.pcs[t] == Freeing(g)
    requires MayLook(s, t, s'.pcs[t])
    ensures forall u {:trigger Looks(s'.pcs[u])} :: u in s'.pcs && Looks(s'.pcs[u]).Some? ==> Looks(s'.pcs[u]).value in s'.next
  {
    if s.top.ptr.Some? { TopIsListed(s); }
    forall u | u in s'.pcs && Looks(s'.pcs[u]).Some? ensures Looks(s'.pcs[u]).value in s'.next {
      var g := Looks(s'.pcs[u]).value;
      if Looks(s.pcs[u]) == Some(g) {
        assert s.pcs[t] == Freeing(g) ==> !Unread(s.pcs, g);
      } else {
        assert s.pcs[t] == Freeing(g) ==> ThreadOk(s, t);
      }
    }
  }

  lemma StillUnread(s: State, s': State, t: Tid, v: Tid)
    requires Inv(s) && t in s.pcs && t in s'.pcs && s'.pcs == s.pcs[t := s'.pcs[t]]
    requires MayLook(s, t, s'.pcs[t]) && (s'.pcs[t].Freeing? ==> s.readers == 0)
    requires v in s'.pcs && s'.pcs[v].Freeing?
    ensures Unread(s'.pcs, s'.pcs[v].g)
  {
    var g := s'.pcs[v].g;
    if s.top.ptr.Some? { TopIsListed(s); }
    forall u | u in s'.pcs ensures Looks(s'.pcs[u]) != Some(g) {
      if v == t {
        NoReaders(s, u);
      } else {
        assert Unread(s.pcs, g) && ThreadOk(s, v);
      }
    }
  }

  lemma ReadingKeeps(s: State, s': State, t: Tid)
    requires Inv(s) && t in s.pcs && t in s'.pcs && s'.pcs == s.pcs[t := s'.pcs[t]]
    requires forall g :: g in s.next ==> g in s'.next || s.pcs[t] == Freeing(g)
    requires MayLook(s, t, s'.pcs[t]) && (s'.pcs[t].Freeing? ==> s.readers == 0)
    ensures Reading(s')
  {
    LookedAtMapped(s, s', t);
    forall v | v in s'.pcs && s'.pcs[v].Freeing? ensures Unread(s'.pcs, s'.pcs[v].g) {
      StillUnread(s, s', t, v);
    }
  }

  // ---------------------------------------------------------------- kinds of steps

  lemma Joined(s: State, s': State, t: Tid)
    requires Inv(s) && Near(s, s', t) && Lists(s') && ThreadOk(s', t) && Counted(s') && Reading(s')
    ensures Inv(s')
  {
    NearKeeps(s, s', t);
  }

  /** The parts of a step that are the same for all: readers, and what is looked at. */
  lemma Finish(s: State, s': State, t: Tid)
    requires Inv(s) && t in s.pcs && Near(s, s', t) && Lists(s') && ThreadOk(s', t) && s'.readers == s.readers
    requires s'.pcs == s.pcs[t := s'.pcs[t]] && Reader(s'.pcs[t]) == Reader(s.pcs[t])
    requires forall g :: g in s.next ==> g in s'.next || s.pcs[t] == Freeing(g)
    requires MayLook(s, t, s'.pcs[t]) && (s'.pcs[t].Freeing? ==> s.readers == 0)
    ensures Inv(s')
  {
    ReadersMove(s.pcs, t, s'.pcs[t]);
    ReadingKeeps(s, s', t);
    Joined(s, s', t);
  }

  /** A step that moves only the thread. */
  lemma GotoKeeps(s: State, t: Tid, pc: Pc)
    requires Inv(s) && t in s.pcs && ThreadOk(Goto(s, t, pc), t)
    requires Reader(pc) == Reader(s.pcs[t]) && (pc.Freeing? ==> s.readers == 0)
    requires MayLook(s, t, pc)
    ensures Inv(Goto(s, t, pc))
  {
    var s' := Goto(s, t, pc);
    Finish(s, s', t);
  }

  /** A store to the link of a segment that the thread holds. */
  lemma StoreLists(s: State, t: Tid, g: Seg, v: Option<Seg>, pc: Pc)
    requires Inv(s) && t in s.pcs && Holds(s, t, g)
    ensures var s' := Goto(s.(next := s.next[g := v]), t, pc); Lists(s') && Near(s, s', t)
  {
    var s' := Goto(s.(next := s.next[g := v]), t, pc);
    LinksSame(s.next, s'.next, s.top.ptr, s.alist, None);
    LinksSame(s.next, s'.next, s.visited, s.vlist, None);
    assert s'.next.Keys == s.next.Keys;
  }

  lemma StoreKeeps(s: State, t: Tid, g: Seg, v: Option<Seg>, pc: Pc)
    requires Inv(s) && t in s.pcs && Holds(s, t, g)
    requires ThreadOk(Goto(s.(next := s.next[g := v]), t, pc), t)
    requires Reader(pc) == Reader(s.pcs[t]) && !pc.Freeing? && Looks(pc).None?
    ensures Inv(Goto(s.(next := s.next[g := v]), t, pc))
  {
    var s' := Goto(s.(next := s.next[g := v]), t, pc);
    StoreLists(s, t, g, v, pc);
    Finish(s, s', t);
  }

  // ---------------------------------------------------------------- lists that grow and shrink

  lemma RelabelKeys(spot: map<Seg, Spot>, list: seq<Seg>, to: Spot)
    ensures Relabel(spot, list, to).Keys == spot.Keys
  {
  }

  lemma OtherAt(spot: map<Seg, Spot>, l: seq<Seg>, m: seq<Seg>, t: Tid, to: Spot, where: Spot)
    requires PartOf(spot, l, t) && ListAt(spot, m, where) && to != where && !where.With?
    ensures ListAt(Relabel(spot, l, to), m, where)
  {
    PartDistinct(spot, l, t);
    forall g ensures multiset(m)[g] == if g in spot && Relabel(spot, l, to)[g] == where then 1 else 0 {
      assert g in l ==> HeldBy(spot, g, t);
    }
  }

  lemma PrependLists(s: State, t: Tid, first: Seg, l: seq<Seg>, chains: map<Tid, seq<Seg>>, pc: Pc)
    requires Lists(s) && t in s.pcs && t in s.chains && l != [] && l[0] == first && PartOf(s.spot, l, t)
    requires Links(s.next, Some(first), l, s.top.ptr) && chains == s.chains[t := []]
    ensures Lists(Goto(Prepended(s, t, first, l).(chains := chains), t, pc))
  {
    RelabelKeys(s.spot, l, OnAbandoned);
    LinksJoin(s.next, Some(first), l, s.top.ptr, s.alist, None);
    OtherAt(s.spot, l, s.vlist, t, OnAbandoned, OnVisited);
    JoinedAt(s.spot, l, s.alist, t);
  }

  lemma JoinedAt(spot: map<Seg, Spot>, l: seq<Seg>, a: seq<Seg>, t: Tid)
    requires PartOf(spot, l, t) && ListAt(spot, a, OnAbandoned)
    ensures ListAt(Relabel(spot, l, OnAbandoned), l + a, OnAbandoned)
  {
    PartDistinct(spot, l, t);
    forall g ensures multiset(l + a)[g] == if g in spot && Relabel(spot, l, OnAbandoned)[g] == OnAbandoned then 1 else 0 {
      assert multiset(l + a)[g] == multiset(l)[g] + multiset(a)[g];
      assert g in l <==> multiset(l)[g] > 0;
      assert g in l ==> HeldBy(spot, g, t);
    }
  }

  lemma PrependNear(s: State, t: Tid, first: Seg, l: seq<Seg>, chains: map<Tid, seq<Seg>>, pc: Pc)
    requires t in s.pcs && t in s.chains && PartOf(s.spot, l, t) && chains == s.chains[t := []]
    ensures Near(s, Goto(Prepended(s, t, first, l).(chains := chains), t, pc), t)
  {
    PartDistinct(s.spot, l, t);
  }

  /** A thread without a chain that is about to start or to count itself. */
  lemma NoChain(s: State, t: Tid)
    requires t in s.pcs && t in s.chains && s.chains[t] == [] && (s.pcs[t] == Idle || s.pcs[t] == Entering)
    ensures ThreadOk(s, t)
  {
    assert multiset(s.chains[t]) == multiset{};
  }

  /** Segments of the thread become the front of the abandoned list, under the next tag. */
  lemma PrependKeeps(s: State, t: Tid, first: Seg, l: seq<Seg>, chains: map<Tid, seq<Seg>>, pc: Pc)
    requires Inv(s) && t in s.pcs && l != [] && l[0] == first && PartOf(s.spot, l, t)
    requires Links(s.next, Some(first), l, s.top.ptr)
    requires chains == s.chains[t := []] && (pc == Idle || pc == Entering) && !Reader(s.pcs[t])
    ensures Inv(Goto(Prepended(s, t, first, l).(chains := chains), t, pc))
  {
    var s' := Goto(Prepended(s, t, first, l).(chains := chains), t, pc);
    assert ThreadOk(s, t);
    PrependLists(s, t, first, l, chains, pc);
    PrependNear(s, t, first, l, chains, pc);
    NoChain(s', t);
    Finish(s, s', t);
  }

  lemma VisitLists(s: State, t: Tid, g: Seg)
    requires Lists(s) && t in s.pcs && Holds(s, t, g) && s.next[g] == s.visited
    ensures var s' := Goto(s.(visited := Some(g), vlist := [g] + s.vlist, spot := Relabel(s.spot, [g], OnVisited)), t, Idle);
            Lists(s') && Near(s, s', t)
  {
    RelabelKeys(s.spot, [g], OnVisited);
    assert Links(s.next, Some(g), [g], s.visited);
    LinksJoin(s.next, Some(g), [g], s.visited, s.vlist, None);
    OtherAt(s.spot, [g], s.alist, t, OnVisited, OnAbandoned);
  }

  lemma VisitKeeps(s: State, t: Tid, g: Seg)
    requires Inv(s) && t in s.pcs && Holds(s, t, g) && s.next[g] == s.visited
    requires s.pcs[t].VisitStored?
    ensures Inv(Goto(s.(visited := Some(g), vlist := [g] + s.vlist, spot := Relabel(s.spot, [g], OnVisited)), t, Idle))
  {
    var s' := Goto(s.(visited := Some(g), vlist := [g] + s.vlist, spot := Relabel(s.spot, [g], OnVisited)), t, Idle);
    assert ThreadOk(s, t);
    VisitLists(s, t, g);
    Finish(s, s', t);
  }

  /** The whole visited list becomes the chain of the thread. */
  lemma GrabAt(spot: map<Seg, Spot>, v: seq<Seg>, a: seq<Seg>, t: Tid)
    requires ListAt(spot, v, OnVisited) && ListAt(spot, a, OnAbandoned)
    ensures ListAt(Relabel(spot, v, With(t)), [], OnVisited) && ListAt(Relabel(spot, v, With(t)), a, OnAbandoned)
    ensures PartOf(Relabel(spot, v, With(t)), v, t)
    ensures forall g, u :: u != t ==> HeldBy(Relabel(spot, v, With(t)), g, u) == HeldBy(spot, g, u)
  {
    var spot' := Relabel(spot, v, With(t));
    forall g ensures (g in v <==> g in spot && spot[g] == OnVisited) && multiset(v)[g] <= if HeldBy(spot', g, t) then 1 else 0 {
      assert g in v <==> multiset(v)[g] > 0;
    }
  }

  lemma GrabLists(s: State, t: Tid, caller: Caller)
    requires Lists(s) && At(s, t) && s.pcs[t] == Exchanging(caller) && s.visited.Some?
    ensures Lists(DoRevisitStep(s, t, false)) && PartOf(DoRevisitStep(s, t, false).spot, s.vlist, t)
    ensures Links(DoRevisitStep(s, t, false).next, s.visited, s.vlist, None)
  {
    GrabAt(s.spot, s.vlist, s.alist, t);
    RelabelKeys(s.spot, s.vlist, With(t));
  }

  lemma GrabNear(s: State, t: Tid, caller: Caller)
    requires Lists(s) && At(s, t) && s.pcs[t] == Exchanging(caller) && s.visited.Some?
    ensures Near(s, DoRevisitStep(s, t, false), t)
  {
    GrabAt(s.spot, s.vlist, s.alist, t);
  }

  lemma GrabKeeps(s: State, t: Tid, caller: Caller)
    requires Inv(s) && At(s, t) && s.pcs[t] == Exchanging(caller) && s.visited.Some?
    ensures Inv(DoRevisitStep(s, t, false))
  {
    var s' := DoRevisitStep(s, t, false);
    GrabLists(s, t, caller);
    GrabNear(s, t, caller);
    Finish(s, s', t);
  }

  lemma PopAt(spot: map<Seg, Spot>, a: seq<Seg>, v: seq<Seg>, t: Tid)
    requires ListAt(spot, a, OnAbandoned) && ListAt(spot, v, OnVisited) && a != []
    ensures a[0] in spot && spot[a[0]] == OnAbandoned
    ensures ListAt(Relabel(spot, [a[0]], With(t)), a[1..], OnAbandoned) && ListAt(Relabel(spot, [a[0]], With(t)), v, OnVisited)
    ensures forall g, u :: u != t ==> HeldBy(Relabel(spot, [a[0]], With(t)), g, u) == HeldBy(spot, g, u)
  {
    assert a == [a[0]] + a[1..];
    assert multiset(a)[a[0]] >= 1;
    var spot' := Relabel(spot, [a[0]], With(t));
    forall g ensures multiset(a[1..])[g] == if g in spot' && spot'[g] == OnAbandoned then 1 else 0 {
      assert multiset(a)[g] == multiset([a[0]])[g] + multiset(a[1..])[g];
    }
  }

  lemma PopLists(s: State, t: Tid, pc: Pc)
    requires Lists(s) && t in s.pcs && s.alist != [] && s.alist[0] in s.next
    ensures var s' := Goto(s.(top := Tagged(s.next[s.alist[0]], s.top), alist := s.alist[1..], spot := Relabel(s.spot, [s.alist[0]], With(t))), t, pc);
            Lists(s') && Near(s, s', t) && Holds(s', t, s.alist[0])
  {
    PopAt(s.spot, s.alist, s.vlist, t);
    LinksTail(s.next, s.top.ptr, s.alist, None);
    RelabelKeys(s.spot, [s.alist[0]], With(t));
  }

  lemma GotOne(s: State, t: Tid)
    requires t in s.pcs && t in s.chains && s.chains[t] == [] && s.pcs[t].PopLeaving?
    requires s.pcs[t].got.Some? ==> Holds(s, t, s.pcs[t].got.value)
    ensures ThreadOk(s, t)
  {
    assert multiset(s.chains[t]) == multiset{};
  }

  /** A pop whose CAS succeeds. */
  lemma PopKeeps(s: State, t: Tid)
    requires Inv(s) && At(s, t) && s.pcs[t].PopRead? && s.pcs[t].ts == s.top
    ensures CanPopStep(s, t) && Inv(DoPopStep(s, t, false))
  {
    assert ThreadOk(s, t);
    TopIsListed(s);
    var s' := DoPopStep(s, t, false);
    assert s' == Goto(s.(top := Tagged(s.next[s.alist[0]], s.top), alist := s.alist[1..], spot := Relabel(s.spot, [s.alist[0]], With(t))), t, s'.pcs[t]);
    PopLists(s, t, s'.pcs[t]);
    GotOne(s', t);
    Finish(s, s', t);
  }

  lemma AtAdded(spot: map<Seg, Spot>, l: seq<Seg>, where: Spot, g: Seg, t: Tid)
    requires ListAt(spot, l, where) && g !in spot && !where.With?
    ensures ListAt(spot[g := With(t)], l, where) && g !in l
  {
    assert multiset(l)[g] == 0;
  }

  lemma AtRemoved(spot: map<Seg, Spot>, l: seq<Seg>, where: Spot, g: Seg, t: Tid)
    requires ListAt(spot, l, where) && HeldBy(spot, g, t) && !where.With?
    ensures ListAt(spot - {g}, l, where) && g !in l
  {
    assert multiset(l)[g] == 0;
  }

  lemma AllocLists(s: State, t: Tid, g: Seg)
    requires Lists(s) && g !in s.spot
    ensures Lists(s.(next := s.next[g := None], spot := s.spot[g := With(t)]))
  {
    var s' := s.(next := s.next[g := None], spot := s.spot[g := With(t)]);
    AtAdded(s.spot, s.alist, OnAbandoned, g, t);
    AtAdded(s.spot, s.vlist, OnVisited, g, t);
    LinksSame(s.next, s'.next, s.top.ptr, s.alist, None);
    LinksSame(s.next, s'.next, s.visited, s.vlist, None);
  }

  lemma AllocNear(s: State, t: Tid, g: Seg)
    requires s.next.Keys == s.spot.Keys && t in s.pcs && g !in s.spot
    ensures Near(s, s.(next := s.next[g := None], spot := s.spot[g := With(t)]), t)
  {
  }

  lemma AllocKeeps(s: State, t: Tid, g: Seg)
    requires Inv(s) && CanStart(s, t, Alloc(g))
    ensures Inv(DoStart(s, t, Alloc(g)))
  {
    var s' := DoStart(s, t, Alloc(g));
    assert ThreadOk(s, t);
    AllocLists(s, t, g);
    AllocNear(s, t, g);
    assert s'.pcs == s.pcs[t := s'.pcs[t]];
    assert forall h: Seg :: multiset(s.chains[t])[h] <= if HeldBy(s'.spot, h, t) then 1 else 0;
    ReadingKeeps(s, s', t);
    Joined(s, s', t);
  }

  /** Memory that goes back to the operating system is in no list and not looked at. */
  lemma UnmapLists(s: State, t: Tid, g: Seg)
    requires Lists(s) && Holds(s, t, g)
    ensures Lists(Goto(s.(next := s.next - {g}, spot := s.spot - {g}), t, Idle))
  {
    var s' := Goto(s.(next := s.next - {g}, spot := s.spot - {g}), t, Idle);
    AtRemoved(s.spot, s.alist, OnAbandoned, g, t);
    AtRemoved(s.spot, s.vlist, OnVisited, g, t);
    LinksSame(s.next, s'.next, s.top.ptr, s.alist, None);
    LinksSame(s.next, s'.next, s.visited, s.vlist, None);
  }

  lemma UnmapNear(s: State, t: Tid, g: Seg)
    requires t in s.pcs && Holds(s, t, g)
    ensures Near(s, Goto(s.(next := s.next - {g}, spot := s.spot - {g}), t, Idle), t)
  {
  }

  /** The thread has nothing more in hand. */
  lemma UnmapThread(s: State, t: Tid, g: Seg)
    requires ThreadOk(s, t) && s.pcs[t] == Freeing(g)
    ensures ThreadOk(Goto(s.(next := s.next - {g}, spot := s.spot - {g}), t, Idle), t)
  {
    assert multiset(s.chains[t]) == multiset{};
  }

  lemma UnmapKeeps(s: State, t: Tid)
    requires Inv(s) && At(s, t) && s.pcs[t].Freeing?
    ensures Inv(DoFreeStep(s, t))
  {
    var g := s.pcs[t].g;
    var s' := DoFreeStep(s, t);
    assert ThreadOk(s, t);
    assert s' == Goto(s.(next := s.next - {g}, spot := s.spot - {g}), t, Idle);
    UnmapLists(s, t, g);
    UnmapNear(s, t, g);
    UnmapThread(s, t, g);
    Finish(s, s', t);
  }

  lemma ReaderKeeps(s: State, t: Tid, d: int, pc: Pc)
    requires Inv(s) && t in s.pcs && (pc == PopLoading || pc == Idle || pc.PopClearing?)
    requires d == (if Reader(pc) then 1 else 0) - (if Reader(s.pcs[t]) then 1 else 0)
    requires ThreadOk(Goto(s.(readers := s.readers + d), t, pc), t)
    ensures Inv(Goto(s.(readers := s.readers + d), t, pc))
  {
    var s' := Goto(s.(readers := s.readers + d), t, pc);
    ReadersMove(s.pcs, t, pc);
    ReadingKeeps(s, s', t);
    Joined(s, s', t);
  }

  // ---------------------------------------------------------------- all steps

  /** Where an operation starts that takes no segment from the operating system. */
  function StartPc(s: State, a: Start): Pc {
    match a
    case Alloc(_) => Idle
    case Push(g) => PushLoaded(g, s.top)
    case Visit(g) => VisitLoaded(g, s.visited)
    case Collect => if s.visited.None? then Idle else Exchanging(FromCollect)
    case Pop => if s.top.ptr.None? then Emptied else Entering
    case Release(g) => Awaiting(g)
  }

  lemma StartsAt(s: State, t: Tid, a: Start)
    requires ThreadOk(s, t) && CanStart(s, t, a) && !a.Alloc?
    ensures DoStart(s, t, a) == Goto(s, t, StartPc(s, a)) && ThreadOk(Goto(s, t, StartPc(s, a)), t)
  {
  }

  lemma StartKeeps(s: State, t: Tid, a: Start)
    requires Inv(s) && CanStart(s, t, a)
    ensures Inv(DoStart(s, t, a))
  {
    assert ThreadOk(s, t);
    if a.Alloc? {
      AllocKeeps(s, t, a.g);
    } else {
      StartsAt(s, t, a);
      GotoKeeps(s, t, StartPc(s, a));
    }
  }

  lemma PushCasKeeps(s: State, t: Tid, spurious: bool)
    requires Inv(s) && CanPushStep(s, t) && s.pcs[t].PushStored?
    ensures Inv(DoPushStep(s, t, spurious))
  {
    assert ThreadOk(s, t);
    var PushStored(g, ts) := s.pcs[t];
    if spurious || s.top != ts {
      GotoKeeps(s, t, PushLoaded(g, s.top));
    } else {
      assert Links(s.next, Some(g), [g], s.top.ptr);
      assert s.chains[t := []] == s.chains;
      PrependKeeps(s, t, g, [g], s.chains[t := []], Idle);
    }
  }

  lemma PushStepKeeps(s: State, t: Tid, spurious: bool)
    requires Inv(s) && CanPushStep(s, t)
    ensures Inv(DoPushStep(s, t, spurious))
  {
    assert ThreadOk(s, t);
    match s.pcs[t]
    case PushLoaded(g, ts) => StoreKeeps(s, t, g, ts.ptr, PushStored(g, ts));
    case PushStored(g, ts) => PushCasKeeps(s, t, spurious);
    case VisitLoaded(g, seen) => StoreKeeps(s, t, g, seen, VisitStored(g, seen));
    case VisitStored(g, seen) =>
      if spurious || s.visited != seen {
        GotoKeeps(s, t, VisitLoaded(g, s.visited));
      } else {
        VisitKeeps(s, t, g);
      }
  }

  lemma WalkKeeps(s: State, t: Tid)
    requires Inv(s) && CanRevisitStep(s, t) && s.pcs[t].Walking?
    ensures Inv(DoRevisitStep(s, t, false))
  {
    assert ThreadOk(s, t);
    var Walking(first, last, caller) := s.pcs[t];
    var l := s.chains[t];
    var i: nat :| i < |l| && l[i] == last;
    assert LinkAt(s.next, l, i, None);
    if i + 1 < |l| {
      GotoKeeps(s, t, Walking(first, l[i + 1], caller));
    } else {
      GotoKeeps(s, t, AtEnd(first, last, caller));
    }
  }

  lemma TailStoreKeeps(s: State, t: Tid)
    requires Inv(s) && CanRevisitStep(s, t) && s.pcs[t].TailLoaded?
    ensures Inv(DoRevisitStep(s, t, false))
  {
    assert ThreadOk(s, t);
    var TailLoaded(first, last, ts, caller) := s.pcs[t];
    var l := s.chains[t];
    PartDistinct(s.spot, l, t);
    assert HeldBy(s.spot, last, t);
    LinksEnd(s.next, Some(first), l, s.next[last], ts.ptr);
    StoreKeeps(s, t, last, ts.ptr, TailStored(first, last, ts, caller));
  }

  lemma RevisitStepKeeps(s: State, t: Tid, spurious: bool)
    requires Inv(s) && CanRevisitStep(s, t)
    ensures Inv(DoRevisitStep(s, t, spurious))
  {
    assert ThreadOk(s, t);
    match s.pcs[t]
    case Emptied => GotoKeeps(s, t, if s.visited.None? then Idle else Exchanging(FromPop));
    case Exchanging(caller) => if s.visited.None? { GotoKeeps(s, t, Idle); } else { GrabKeeps(s, t, caller); }
    case Grabbed(first, caller) => GrabbedKeeps(s, t);
    case SwapSeen(first, ts, caller) => SwapKeeps(s, t);
    case Walking(_, _, _) => WalkKeeps(s, t);
    case AtEnd(first, last, caller) => GotoKeeps(s, t, TailLoaded(first, last, s.top, caller));
    case TailLoaded(_, _, _, _) => TailStoreKeeps(s, t);
    case TailStored(_, _, _, _) => TailKeeps(s, t, spurious);
  }

  lemma FirstInChain(s: State, t: Tid)
    requires Inv(s) && At(s, t) && (s.pcs[t].Grabbed? || s.pcs[t].SwapSeen? || s.pcs[t].TailStored?)
    ensures s.chains[t] != [] && s.chains[t][0] == s.pcs[t].first && PartOf(s.spot, s.chains[t], t)
  {
    assert ThreadOk(s, t);
  }

  lemma GrabbedKeeps(s: State, t: Tid)
    requires Inv(s) && CanRevisitStep(s, t) && s.pcs[t].Grabbed?
    ensures Inv(DoRevisitStep(s, t, false))
  {
    assert ThreadOk(s, t);
    FirstInChain(s, t);
    var Grabbed(first, caller) := s.pcs[t];
    GotoKeeps(s, t, if s.top.ptr.None? then SwapSeen(first, s.top, caller) else Walking(first, first, caller));
  }

  lemma SwapKeeps(s: State, t: Tid)
    requires Inv(s) && CanRevisitStep(s, t) && s.pcs[t].SwapSeen?
    ensures Inv(DoRevisitStep(s, t, false))
  {
    assert ThreadOk(s, t);
    FirstInChain(s, t);
    var SwapSeen(first, ts, caller) := s.pcs[t];
    if s.top != ts {
      GotoKeeps(s, t, Walking(first, first, caller));
    } else {
      PrependKeeps(s, t, first, s.chains[t], s.chains[t := []], Revisited(caller));
    }
  }

  lemma TailKeeps(s: State, t: Tid, spurious: bool)
    requires Inv(s) && CanRevisitStep(s, t) && s.pcs[t].TailStored?
    ensures Inv(DoRevisitStep(s, t, spurious))
  {
    assert ThreadOk(s, t);
    FirstInChain(s, t);
    var TailStored(first, last, ts, caller) := s.pcs[t];
    if spurious || s.top != ts {
      assert LinkAt(s.next, s.chains[t], |s.chains[t]| - 1, ts.ptr);
      GotoKeeps(s, t, TailLoaded(first, last, s.top, caller));
    } else {
      PrependKeeps(s, t, first, s.chains[t], s.chains[t := []], Revisited(caller));
    }
  }

  /** The steps of the loop of a pop. */
  lemma PopLookKeeps(s: State, t: Tid, spurious: bool)
    requires Inv(s) && CanPopStep(s, t) && (s.pcs[t].PopLoading? || s.pcs[t].PopSeen? || s.pcs[t].PopRead?)
    ensures Inv(DoPopStep(s, t, spurious))
  {
    assert ThreadOk(s, t);
    match s.pcs[t]
    case PopLoading => GotoKeeps(s, t, AfterLoad(s.top));
    case PopSeen(ts) => GotoKeeps(s, t, PopRead(ts, s.next[ts.ptr.value]));
    case PopRead(ts, anext) => if spurious || s.top != ts { GotoKeeps(s, t, AfterLoad(s.top)); } else { PopKeeps(s, t); }
  }

  /** The steps around it, which count the thread as a reader. */
  lemma PopCountKeeps(s: State, t: Tid, spurious: bool)
    requires Inv(s) && CanPopStep(s, t) && (s.pcs[t].Entering? || s.pcs[t].PopLeaving?)
    ensures Inv(DoPopStep(s, t, spurious))
  {
    assert ThreadOk(s, t);
    match s.pcs[t]
    case Entering => ReaderKeeps(s, t, 1, PopLoading);
    case PopLeaving(got) => ReaderKeeps(s, t, -1, if got.None? then Idle else PopClearing(got.value));
  }

  lemma PopStepKeeps(s: State, t: Tid, spurious: bool)
    requires Inv(s) && CanPopStep(s, t)
    ensures Inv(DoPopStep(s, t, spurious))
  {
    if s.pcs[t].PopClearing? {
      assert ThreadOk(s, t);
      StoreKeeps(s, t, s.pcs[t].g, None, Idle);
    } else if s.pcs[t].Entering? || s.pcs[t].PopLeaving? {
      PopCountKeeps(s, t, spurious);
    } else {
      PopLookKeeps(s, t, spurious);
    }
  }

  lemma StepKeeps(s: State, a: Action)
    requires Inv(s)
    ensures Inv(Apply(s, a))
  {
    match a
    case Starts(t, b) => if CanStart(s, t, b) { StartKeeps(s, t, b); }
    case Pushes(t, spurious) => if CanPushStep(s, t) { PushStepKeeps(s, t, spurious); }
    case Revisits(t, spurious) => if CanRevisitStep(s, t) { RevisitStepKeeps(s, t, spurious); }
    case Pops(t, spurious) => if CanPopStep(s, t) { PopStepKeeps(s, t, spurious); }
    case Frees(t) => if CanFreeStep(s, t) { FreeStepKeeps(s, t); }
  }

  lemma FreeStepKeeps(s: State, t: Tid)
    requires Inv(s) && CanFreeStep(s, t)
    ensures Inv(DoFreeStep(s, t))
  {
    assert ThreadOk(s, t);
    match s.pcs[t]
    case Awaiting(g) => GotoKeeps(s, t, if s.readers == 0 then Freeing(g) else Awaiting(g));
    case Freeing(_) => UnmapKeeps(s, t);
  }
}
