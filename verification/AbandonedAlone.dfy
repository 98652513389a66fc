/**
 What each operation on the abandoned lists (segment.cpp:457-480, 1296-1428) does from its first step to
 its last when no other thread comes in between: both lists, read off the links, and who holds what.
 */
module AbandonedAlone {
  import opened Sequences
  import opened AbandonedProtocol
  import opened AbandonedInvariant
  import opened AbandonedSteps
  import opened AbandonedSafety
  import Paths

  // ---------------------------------------------------------------- one thread on its own

  function Next(s: State, t: Tid): Action {
    if t !in s.pcs then Frees(t) else
    match s.pcs[t]
    case PushLoaded(_, _) => Pushes(t, false)
    case PushStored(_, _) => Pushes(t, false)
    case VisitLoaded(_, _) => Pushes(t, false)
    case VisitStored(_, _) => Pushes(t, false)
    case Entering => Pops(t, false)
    case PopLoading => Pops(t, false)
    case PopSeen(_) => Pops(t, false)
    case PopRead(_, _) => Pops(t, false)
    case PopLeaving(_) => Pops(t, false)
    case PopClearing(_) => Pops(t, false)
    case Idle => Frees(t)
    case Awaiting(_) => Frees(t)
    case Freeing(_) => Frees(t)
    case _ => Revisits(t, false)
  }

  ghost function StepOf(t: Tid): State -> State {
    s => Apply(s, Next(s, t))
  }

  /** The thread on its own comes from `s` to `u`. */
  ghost predicate Leads(s: State, t: Tid, u: State) {
    Paths.Leads(StepOf(t), s, u)
  }

  lemma OneStep(s: State, t: Tid)
    ensures Leads(s, t, Apply(s, Next(s, t)))
  {
    Paths.OneStep(StepOf(t), s);
  }

  lemma LeadsKeeps(s: State, t: Tid, u: State)
    requires Inv(s) && Leads(s, t, u)
    ensures Inv(u)
  {
    var inv := (x: State) => Inv(x);
    forall x | inv(x) ensures inv(StepOf(t)(x)) { StepKeeps(x, Next(x, t)); }
    Paths.Keeps(StepOf(t), inv, s, u);
  }

  /** The two lists that one comes by when following the links from their heads, each to its end. */
  ghost predicate HasLists(s: State, alist: seq<Seg>, vlist: seq<Seg>) {
    Links(s.next, s.top.ptr, alist, None) && Links(s.next, s.visited, vlist, None)
  }

  /** The thread on its own comes to `u`: its program point, the lists and the chain it took over. */
  ghost predicate Comes(s: State, t: Tid, u: State, pc: Pc, alist: seq<Seg>, vlist: seq<Seg>, chain: seq<Seg>, readers: int) {
    && Leads(s, t, u) && t in s.pcs && u.pcs == s.pcs[t := pc]
    && u.alist == alist && u.vlist == vlist && t in s.chains && u.chains == s.chains[t := chain] && u.readers == readers
  }

  lemma Then(s: State, t: Tid, u: State, v: State, x: Pc, pc: Pc, alist: seq<Seg>, vlist: seq<Seg>, chain: seq<Seg>, readers: int)
    requires t in u.chains && Comes(s, t, u, x, u.alist, u.vlist, u.chains[t], u.readers) && Comes(u, t, v, pc, alist, vlist, chain, readers)
    ensures Comes(s, t, v, pc, alist, vlist, chain, readers)
  {
    Paths.Both(StepOf(t), s, u, v);
    assert s.pcs[t := x][t := pc] == s.pcs[t := pc];
  }

  predicate AtPc(s: State, t: Tid, pc: Pc) {
    t in s.pcs && t in s.chains && s.pcs[t] == pc
  }

  // ---------------------------------------------------------------- pushing

  lemma LinkStep(s: State, t: Tid, g: Seg) returns (u: State)
    requires AtPc(s, t, PushLoaded(g, s.top)) && g in s.next
    ensures Comes(s, t, u, PushStored(g, s.top), s.alist, s.vlist, s.chains[t], s.readers) && u.top == s.top
  {
    u := Apply(s, Pushes(t, false));
    OneStep(s, t);
  }

  lemma PushStep(s: State, t: Tid, g: Seg) returns (u: State)
    requires AtPc(s, t, PushStored(g, s.top))
    ensures Comes(s, t, u, Idle, [g] + s.alist, s.vlist, s.chains[t], s.readers)
  {
    u := Apply(s, Pushes(t, false));
    OneStep(s, t);
  }

  lemma VisitLinkStep(s: State, t: Tid, g: Seg) returns (u: State)
    requires AtPc(s, t, VisitLoaded(g, s.visited)) && g in s.next
    ensures Comes(s, t, u, VisitStored(g, s.visited), s.alist, s.vlist, s.chains[t], s.readers) && u.visited == s.visited
  {
    u := Apply(s, Pushes(t, false));
    OneStep(s, t);
  }

  lemma VisitStep(s: State, t: Tid, g: Seg) returns (u: State)
    requires AtPc(s, t, VisitStored(g, s.visited))
    ensures Comes(s, t, u, Idle, s.alist, [g] + s.vlist, s.chains[t], s.readers)
  {
    u := Apply(s, Pushes(t, false));
    OneStep(s, t);
  }

  /** The thread may begin an operation. */
  predicate Ready(s: State, t: Tid) {
    AtPc(s, t, Idle)
  }

  /** The thread is idle again; the others are where they were. */
  ghost predicate Ends(s: State, u: State) {
    u.pcs == s.pcs && u.readers == s.readers
  }

  lemma BackToIdle(s: State, w: State, t: Tid, u: State, x: Pc)
    requires Ready(s, t) && w.pcs == s.pcs[t := x] && w.readers == s.readers && u.pcs == w.pcs[t := Idle] && u.readers == w.readers
    ensures Ends(s, u)
  {
    assert s.pcs[t := x][t := Idle] == s.pcs;
  }

  /** What the invariant says of the two lists. */
  lemma InvLists(s: State)
    requires Inv(s)
    ensures HasLists(s, s.alist, s.vlist)
  {
  }

  /** `mi_abandoned_push`: the segment is in front of the list. */
  lemma PushAlone(s: State, t: Tid, g: Seg) returns (u: State)
    requires Reachable(s) && Ready(s, t) && Holds(s, t, g)
    ensures Leads(Apply(s, Starts(t, Push(g))), t, u) && Ends(s, u)
    ensures u.alist == [g] + s.alist && u.vlist == s.vlist && HasLists(u, [g] + s.alist, s.vlist)
  {
    var w := Apply(s, Starts(t, Push(g)));
    assert w == Goto(s, t, PushLoaded(g, s.top));
    var v := LinkStep(w, t, g);
    u := PushStep(v, t, g);
    Then(w, t, v, u, v.pcs[t], Idle, u.alist, u.vlist, u.chains[t], u.readers);
    BackToIdle(s, w, t, u, w.pcs[t]);
    KeepsOn(s, Starts(t, Push(g)), t, u);
  }

  lemma KeepsOn(s: State, a: Action, t: Tid, u: State)
    requires Reachable(s) && Leads(Apply(s, a), t, u)
    ensures Inv(u) && HasLists(u, u.alist, u.vlist)
  {
    ReachableOk(s);
    StepKeeps(s, a);
    LeadsKeeps(Apply(s, a), t, u);
    InvLists(u);
  }

  /** `mi_abandoned_visited_push`: the segment is in front of the visited list. */
  lemma VisitAlone(s: State, t: Tid, g: Seg) returns (u: State)
    requires Reachable(s) && Ready(s, t) && Holds(s, t, g)
    ensures Leads(Apply(s, Starts(t, Visit(g))), t, u) && Ends(s, u)
    ensures u.alist == s.alist && u.vlist == [g] + s.vlist && HasLists(u, s.alist, [g] + s.vlist)
  {
    var w := Apply(s, Starts(t, Visit(g)));
    assert w == Goto(s, t, VisitLoaded(g, s.visited));
    var v := VisitLinkStep(w, t, g);
    u := VisitStep(v, t, g);
    Then(w, t, v, u, v.pcs[t], Idle, u.alist, u.vlist, u.chains[t], u.readers);
    BackToIdle(s, w, t, u, w.pcs[t]);
    KeepsOn(s, Starts(t, Visit(g)), t, u);
  }

  // ---------------------------------------------------------------- revisiting

  lemma GrabStep(s: State, t: Tid, caller: Caller) returns (u: State)
    requires AtPc(s, t, Exchanging(caller)) && Links(s.next, s.visited, s.vlist, None) && s.vlist != []
    ensures Comes(s, t, u, Grabbed(s.vlist[0], caller), s.alist, [], s.vlist, s.readers) && u.top == s.top && u.next == s.next
  {
    u := Apply(s, Revisits(t, false));
    OneStep(s, t);
  }

  lemma LookStep(s: State, t: Tid, first: Seg, caller: Caller) returns (u: State)
    requires AtPc(s, t, Grabbed(first, caller)) && Links(s.next, s.top.ptr, s.alist, None)
    ensures Comes(s, t, u, if s.alist == [] then SwapSeen(first, s.top, caller) else Walking(first, first, caller), s.alist, s.vlist, s.chains[t], s.readers)
    ensures u.top == s.top && u.next == s.next
  {
    u := Apply(s, Revisits(t, false));
    OneStep(s, t);
  }

  lemma SwapStep(s: State, t: Tid, first: Seg, caller: Caller) returns (u: State)
    requires AtPc(s, t, SwapSeen(first, s.top, caller))
    ensures Comes(s, t, u, if caller == FromPop then Entering else Idle, s.chains[t] + s.alist, s.vlist, [], s.readers)
  {
    u := Apply(s, Revisits(t, false));
    OneStep(s, t);
  }

  lemma WalkStep(s: State, t: Tid, first: Seg, i: nat, caller: Caller) returns (u: State)
    requires t in s.chains && i < |s.chains[t]| && AtPc(s, t, Walking(first, s.chains[t][i], caller))
    requires Links(s.next, Some(first), s.chains[t], None)
    ensures Comes(s, t, u, if i + 1 < |s.chains[t]| then Walking(first, s.chains[t][i + 1], caller) else AtEnd(first, s.chains[t][i], caller),
                  s.alist, s.vlist, s.chains[t], s.readers)
    ensures u.next == s.next && u.top == s.top
  {
    assert LinkAt(s.next, s.chains[t], i, None);
    u := Apply(s, Revisits(t, false));
    OneStep(s, t);
  }

  /** The walk to the end of the chain. */
  lemma {:induction false} WalksAlone(s: State, t: Tid, first: Seg, i: nat, caller: Caller) returns (u: State)
    requires t in s.chains && i < |s.chains[t]| && AtPc(s, t, Walking(first, s.chains[t][i], caller))
    requires Links(s.next, Some(first), s.chains[t], None)
    ensures Comes(s, t, u, AtEnd(first, s.chains[t][|s.chains[t]| - 1], caller), s.alist, s.vlist, s.chains[t], s.readers)
    ensures u.next == s.next && u.top == s.top
    decreases |s.chains[t]| - i
  {
    var v := WalkStep(s, t, first, i, caller);
    if i + 1 < |s.chains[t]| {
      u := WalksAlone(v, t, first, i + 1, caller);
      Then(s, t, v, u, v.pcs[t], u.pcs[t], u.alist, u.vlist, u.chains[t], u.readers);
    } else {
      u := v;
    }
  }

  lemma TailLoadStep(s: State, t: Tid, first: Seg, last: Seg, caller: Caller) returns (u: State)
    requires AtPc(s, t, AtEnd(first, last, caller))
    ensures Comes(s, t, u, TailLoaded(first, last, s.top, caller), s.alist, s.vlist, s.chains[t], s.readers) && u.top == s.top && u.next == s.next
  {
    u := Apply(s, Revisits(t, false));
    OneStep(s, t);
  }

  lemma TailLinkStep(s: State, t: Tid, first: Seg, last: Seg, caller: Caller) returns (u: State)
    requires AtPc(s, t, TailLoaded(first, last, s.top, caller)) && last in s.next
    ensures Comes(s, t, u, TailStored(first, last, s.top, caller), s.alist, s.vlist, s.chains[t], s.readers) && u.top == s.top
  {
    u := Apply(s, Revisits(t, false));
    OneStep(s, t);
  }

  lemma TailSwapStep(s: State, t: Tid, first: Seg, last: Seg, caller: Caller) returns (u: State)
    requires AtPc(s, t, TailStored(first, last, s.top, caller))
    ensures Comes(s, t, u, if caller == FromPop then Entering else Idle, s.chains[t] + s.alist, s.vlist, [], s.readers)
  {
    u := Apply(s, Revisits(t, false));
    OneStep(s, t);
  }

  /** From the end of the chain: it goes in front of the list. */
  lemma TailAlone(s: State, t: Tid, first: Seg, last: Seg, caller: Caller) returns (u: State)
    requires AtPc(s, t, AtEnd(first, last, caller)) && last in s.next
    ensures Comes(s, t, u, if caller == FromPop then Entering else Idle, s.chains[t] + s.alist, s.vlist, [], s.readers)
  {
    var v := TailLoadStep(s, t, first, last, caller);
    var w := TailLinkStep(v, t, first, last, caller);
    Then(s, t, v, w, v.pcs[t], w.pcs[t], w.alist, w.vlist, w.chains[t], w.readers);
    u := TailSwapStep(w, t, first, last, caller);
    Then(s, t, w, u, w.pcs[t], u.pcs[t], u.alist, u.vlist, u.chains[t], u.readers);
  }

  /** The chain in hand goes in front of the list, whether that is empty or not. */
  lemma ChainAlone(s: State, t: Tid, caller: Caller) returns (u: State)
    requires t in s.chains && s.chains[t] != [] && AtPc(s, t, Grabbed(s.chains[t][0], caller))
    requires Links(s.next, s.top.ptr, s.alist, None) && Links(s.next, Some(s.chains[t][0]), s.chains[t], None)
    ensures Comes(s, t, u, if caller == FromPop then Entering else Idle, s.chains[t] + s.alist, s.vlist, [], s.readers)
  {
    var first := s.chains[t][0];
    var v := LookStep(s, t, first, caller);
    if s.alist == [] {
      u := SwapStep(v, t, first, caller);
      Then(s, t, v, u, v.pcs[t], u.pcs[t], u.alist, u.vlist, u.chains[t], u.readers);
    } else {
      u := LongChainAlone(v, t, caller);
      Then(s, t, v, u, v.pcs[t], u.pcs[t], u.alist, u.vlist, u.chains[t], u.readers);
    }
  }

  lemma LongChainAlone(s: State, t: Tid, caller: Caller) returns (u: State)
    requires t in s.chains && s.chains[t] != [] && AtPc(s, t, Walking(s.chains[t][0], s.chains[t][0], caller))
    requires Links(s.next, Some(s.chains[t][0]), s.chains[t], None)
    ensures Comes(s, t, u, if caller == FromPop then Entering else Idle, s.chains[t] + s.alist, s.vlist, [], s.readers)
  {
    var first, last := s.chains[t][0], s.chains[t][|s.chains[t]| - 1];
    var v := WalksAlone(s, t, first, 0, caller);
    assert LinkAt(s.next, s.chains[t], |s.chains[t]| - 1, None);
    u := TailAlone(v, t, first, last, caller);
    Then(s, t, v, u, v.pcs[t], u.pcs[t], u.alist, u.vlist, u.chains[t], u.readers);
  }

  /** `mi_abandoned_visited_revisit` after its first look: all of the visited list goes in front of the other, in its order. */
  lemma RevisitAlone(s: State, t: Tid, caller: Caller) returns (u: State)
    requires AtPc(s, t, Exchanging(caller)) && HasLists(s, s.alist, s.vlist) && s.vlist != []
    ensures Comes(s, t, u, if caller == FromPop then Entering else Idle, s.vlist + s.alist, [], [], s.readers)
  {
    var v := GrabStep(s, t, caller);
    u := ChainAlone(v, t, caller);
    Then(s, t, v, u, v.pcs[t], u.pcs[t], u.alist, u.vlist, u.chains[t], u.readers);
  }

  lemma CollectBegins(s: State, t: Tid) returns (w: State)
    requires Inv(s) && Ready(s, t)
    ensures w == Apply(s, Starts(t, Collect)) && HasLists(w, s.alist, s.vlist) && w.alist == s.alist && w.vlist == s.vlist && w.readers == s.readers
    ensures w.pcs == s.pcs[t := if s.vlist == [] then Idle else Exchanging(FromCollect)] && t in w.chains
  {
    w := Apply(s, Starts(t, Collect));
  }

  /** `_mi_abandoned_collect` begins so: nothing waits in the visited list any more. */
  lemma CollectAlone(s: State, t: Tid) returns (u: State)
    requires Reachable(s) && Ready(s, t)
    ensures Leads(Apply(s, Starts(t, Collect)), t, u) && Ends(s, u)
    ensures u.alist == s.vlist + s.alist && u.vlist == [] && HasLists(u, s.vlist + s.alist, [])
  {
    ReachableOk(s);
    var w := CollectBegins(s, t);
    if s.vlist == [] {
      u := w;
      Paths.Nowhere(StepOf(t), w);
      assert s.vlist + s.alist == s.alist;
      assert s.pcs[t := Idle] == s.pcs;
    } else {
      u := RevisitAlone(w, t, FromCollect);
      BackToIdle(s, w, t, u, w.pcs[t]);
    }
    KeepsOn(s, Starts(t, Collect), t, u);
  }

  // ---------------------------------------------------------------- popping

  lemma EnterStep(s: State, t: Tid) returns (u: State)
    requires AtPc(s, t, Entering)
    ensures Comes(s, t, u, PopLoading, s.alist, s.vlist, s.chains[t], s.readers + 1) && u.top == s.top && u.next == s.next
  {
    u := Apply(s, Pops(t, false));
    OneStep(s, t);
  }

  lemma LoadStep(s: State, t: Tid) returns (u: State)
    requires AtPc(s, t, PopLoading) && s.top.ptr.Some?
    ensures Comes(s, t, u, PopSeen(s.top), s.alist, s.vlist, s.chains[t], s.readers) && u.top == s.top && u.next == s.next
  {
    u := Apply(s, Pops(t, false));
    OneStep(s, t);
  }

  lemma ReadStep(s: State, t: Tid) returns (u: State)
    requires AtPc(s, t, PopSeen(s.top)) && s.top.ptr.Some? && s.top.ptr.value in s.next
    ensures Comes(s, t, u, PopRead(s.top, s.next[s.top.ptr.value]), s.alist, s.vlist, s.chains[t], s.readers) && u.top == s.top && u.next == s.next
  {
    u := Apply(s, Pops(t, false));
    OneStep(s, t);
  }

  lemma TakeStep(s: State, t: Tid, anext: Option<Seg>) returns (u: State)
    requires AtPc(s, t, PopRead(s.top, anext)) && s.alist != [] && s.top.ptr == Some(s.alist[0]) && s.alist[0] in s.spot
    ensures Comes(s, t, u, PopLeaving(Some(s.alist[0])), s.alist[1..], s.vlist, s.chains[t], s.readers)
    ensures u.next == s.next && HeldBy(u.spot, s.alist[0], t)
  {
    u := Apply(s, Pops(t, false));
    OneStep(s, t);
  }

  lemma LeaveStep(s: State, t: Tid, g: Seg) returns (u: State)
    requires AtPc(s, t, PopLeaving(Some(g)))
    ensures Comes(s, t, u, PopClearing(g), s.alist, s.vlist, s.chains[t], s.readers - 1) && u.next == s.next && u.spot == s.spot
  {
    u := Apply(s, Pops(t, false));
    OneStep(s, t);
  }

  lemma ClearStep(s: State, t: Tid, g: Seg) returns (u: State)
    requires AtPc(s, t, PopClearing(g)) && g in s.next
    ensures Comes(s, t, u, Idle, s.alist, s.vlist, s.chains[t], s.readers) && g in u.next && u.next[g] == None && u.spot == s.spot
  {
    u := Apply(s, Pops(t, false));
    OneStep(s, t);
  }

  /** Up to the compare-and-swap that takes the first segment. */
  lemma TakesAlone(s: State, t: Tid) returns (u: State)
    requires AtPc(s, t, Entering) && s.alist != [] && s.top.ptr == Some(s.alist[0]) && s.alist[0] in s.next
    ensures Comes(s, t, u, PopRead(s.top, s.next[s.alist[0]]), s.alist, s.vlist, s.chains[t], s.readers + 1)
    ensures u.top == s.top && u.next == s.next
  {
    var v := EnterStep(s, t);
    var w := LoadStep(v, t);
    Then(s, t, v, w, v.pcs[t], w.pcs[t], w.alist, w.vlist, w.chains[t], w.readers);
    u := ReadStep(w, t);
    Then(s, t, w, u, w.pcs[t], u.pcs[t], u.alist, u.vlist, u.chains[t], u.readers);
  }

  /** From there on: the segment is the thread's, and its link is cleared. */
  lemma LeavesAlone(s: State, t: Tid, anext: Option<Seg>) returns (u: State)
    requires AtPc(s, t, PopRead(s.top, anext)) && s.alist != [] && s.top.ptr == Some(s.alist[0]) && s.alist[0] in s.spot && s.alist[0] in s.next
    ensures Comes(s, t, u, Idle, s.alist[1..], s.vlist, s.chains[t], s.readers - 1)
    ensures HeldBy(u.spot, s.alist[0], t) && s.alist[0] in u.next && u.next[s.alist[0]] == None
  {
    var g := s.alist[0];
    var v := TakeStep(s, t, anext);
    var w := LeaveStep(v, t, g);
    Then(s, t, v, w, v.pcs[t], w.pcs[t], w.alist, w.vlist, w.chains[t], w.readers);
    u := ClearStep(w, t, g);
    Then(s, t, w, u, w.pcs[t], u.pcs[t], u.alist, u.vlist, u.chains[t], u.readers);
  }

  /** A pop from a list that is not empty. */
  lemma PopsAlone(s: State, t: Tid) returns (u: State)
    requires Inv(s) && AtPc(s, t, Entering) && s.alist != []
    ensures Comes(s, t, u, Idle, s.alist[1..], s.vlist, s.chains[t], s.readers)
    ensures HeldBy(u.spot, s.alist[0], t) && s.alist[0] in u.next && u.next[s.alist[0]] == None
  {
    FirstFacts(s);
    var v := TakesAlone(s, t);
    LeadsKeeps(s, t, v);
    FirstFacts(v);
    u := LeavesAlone(v, t, s.next[s.alist[0]]);
    Then(s, t, v, u, v.pcs[t], u.pcs[t], u.alist, u.vlist, u.chains[t], u.readers);
  }

  lemma FirstFacts(s: State)
    requires Inv(s) && s.alist != []
    ensures s.top.ptr == Some(s.alist[0]) && s.alist[0] in s.spot && s.alist[0] in s.next
  {
    assert multiset(s.alist)[s.alist[0]] >= 1;
    assert LinkAt(s.next, s.alist, 0, None);
  }

  lemma PopBegins(s: State, t: Tid) returns (w: State)
    requires Inv(s) && Ready(s, t)
    ensures w == Apply(s, Starts(t, Pop)) && Inv(w) && w.alist == s.alist && w.vlist == s.vlist && w.readers == s.readers
    ensures w.pcs == s.pcs[t := if s.alist == [] then Emptied else Entering] && t in w.chains
  {
    w := Apply(s, Starts(t, Pop));
    StepKeeps(s, Starts(t, Pop));
  }

  /** The first list was found empty: the thread looks at the visited one. */
  lemma EmptiedStep(s: State, t: Tid) returns (u: State)
    requires AtPc(s, t, Emptied) && Links(s.next, s.visited, s.vlist, None)
    ensures Comes(s, t, u, if s.vlist == [] then Idle else Exchanging(FromPop), s.alist, s.vlist, s.chains[t], s.readers)
  {
    u := Apply(s, Revisits(t, false));
    OneStep(s, t);
  }

  /** The first list is empty and the visited one is not: it takes the place of the first. */
  lemma RevisitsAlone(s: State, t: Tid) returns (u: State)
    requires Inv(s) && AtPc(s, t, Emptied) && s.alist == [] && s.vlist != []
    ensures Comes(s, t, u, Entering, s.vlist, [], [], s.readers)
  {
    InvLists(s);
    var v := EmptiedStep(s, t);
    LeadsKeeps(s, t, v);
    InvLists(v);
    u := RevisitAlone(v, t, FromPop);
    assert s.vlist + [] == s.vlist;
    Then(s, t, v, u, v.pcs[t], u.pcs[t], u.alist, u.vlist, u.chains[t], u.readers);
  }

  /** What a pop chooses from: the abandoned segments, or else the visited ones. */
  function Candidates(s: State): seq<Seg> {
    if s.alist != [] then s.alist else s.vlist
  }

  /**
   `mi_abandoned_pop`: the thread gets the first abandoned segment, or the first visited one if there is no
   other, without a link, and the rest stays in order; it gets none only if both lists are empty.
   */
  lemma PopAlone(s: State, t: Tid) returns (u: State)
    requires Reachable(s) && Ready(s, t)
    ensures Leads(Apply(s, Starts(t, Pop)), t, u) && Ends(s, u) && HasLists(u, u.alist, u.vlist)
    ensures Candidates(s) == [] ==> u.alist == s.alist && u.vlist == s.vlist
    ensures Candidates(s) != [] ==>
              var g := Candidates(s)[0];
              && HeldBy(u.spot, g, t) && g in u.next && u.next[g] == None
              && u.alist == Candidates(s)[1..] && u.vlist == if s.alist != [] then s.vlist else []
  {
    ReachableOk(s);
    var w := PopBegins(s, t);
    u := PopsFrom(w, t);
    BackToIdle(s, w, t, u, w.pcs[t]);
    KeepsOn(s, Starts(t, Pop), t, u);
  }

  lemma PopsFrom(s: State, t: Tid) returns (u: State)
    requires Inv(s) && AtPc(s, t, if s.alist == [] then Emptied else Entering)
    ensures t in u.chains && Comes(s, t, u, Idle, u.alist, u.vlist, u.chains[t], s.readers)
    ensures Candidates(s) == [] ==> u.alist == s.alist && u.vlist == s.vlist
    ensures Candidates(s) != [] ==>
              var g := Candidates(s)[0];
              && HeldBy(u.spot, g, t) && g in u.next && u.next[g] == None
              && u.alist == Candidates(s)[1..] && u.vlist == if s.alist != [] then s.vlist else []
  {
    if s.alist != [] {
      u := PopsAlone(s, t);
    } else if s.vlist == [] {
      InvLists(s);
      u := EmptiedStep(s, t);
    } else {
      var v := RevisitsAlone(s, t);
      LeadsKeeps(s, t, v);
      u := PopsAlone(v, t);
      Then(s, t, v, u, v.pcs[t], u.pcs[t], u.alist, u.vlist, u.chains[t], u.readers);
    }
  }

  // ---------------------------------------------------------------- giving memory back

  lemma AwaitStep(s: State, t: Tid, g: Seg) returns (u: State)
    requires AtPc(s, t, Awaiting(g))
    ensures Comes(s, t, u, if s.readers == 0 then Freeing(g) else Awaiting(g), s.alist, s.vlist, s.chains[t], s.readers) && u.next == s.next
  {
    u := Apply(s, Frees(t));
    OneStep(s, t);
  }

  lemma UnmapStep(s: State, t: Tid, g: Seg) returns (u: State)
    requires AtPc(s, t, Freeing(g))
    ensures Comes(s, t, u, Idle, s.alist, s.vlist, s.chains[t], s.readers) && u.next == s.next - {g}
  {
    u := Apply(s, Frees(t));
    OneStep(s, t);
  }

  /** `mi_segment_os_free`: with no reader about, the segment is unmapped; otherwise the thread waits. */
  lemma ReleaseAlone(s: State, t: Tid, g: Seg) returns (u: State)
    requires Reachable(s) && Ready(s, t) && Holds(s, t, g) && s.readers == 0
    ensures Leads(Apply(s, Starts(t, Release(g))), t, u) && Ends(s, u)
    ensures u.alist == s.alist && u.vlist == s.vlist && u.next == s.next - {g}
  {
    var w := Apply(s, Starts(t, Release(g)));
    assert w == Goto(s, t, Awaiting(g));
    var v := AwaitStep(w, t, g);
    u := UnmapStep(v, t, g);
    Then(w, t, v, u, v.pcs[t], Idle, u.alist, u.vlist, u.chains[t], u.readers);
    BackToIdle(s, w, t, u, w.pcs[t]);
  }

  /** A new segment is mapped, has no link, and is the thread's. */
  lemma AllocAlone(s: State, t: Tid, g: Seg)
    requires Reachable(s) && Ready(s, t) && g !in s.next
    ensures var u := Apply(s, Starts(t, Alloc(g)));
            && Ends(s, u) && u.alist == s.alist && u.vlist == s.vlist
            && u.next == s.next[g := None] && HeldBy(u.spot, g, t)
  {
    ReachableOk(s);
  }

  // ---------------------------------------------------------------- when others come in between

  /** Only the program point of `t` changes. */
  ghost predicate OnlyMoves(s: State, u: State, t: Tid, pc: Pc) {
    u == s.(pcs := s.pcs[t := pc])
  }

  /** A push whose compare-and-swap fails, because the head has changed or for no reason, links the segment anew. */
  lemma PushRetries(s: State, t: Tid, g: Seg, ts: Word, spurious: bool)
    requires AtPc(s, t, PushStored(g, ts)) && (spurious || s.top != ts)
    ensures OnlyMoves(s, Apply(s, Pushes(t, spurious)), t, PushLoaded(g, s.top))
  {
  }

  lemma VisitRetries(s: State, t: Tid, g: Seg, seen: Option<Seg>, spurious: bool)
    requires AtPc(s, t, VisitStored(g, seen)) && (spurious || s.visited != seen)
    ensures OnlyMoves(s, Apply(s, Pushes(t, spurious)), t, VisitLoaded(g, s.visited))
  {
  }

  /** The visited list was taken by somebody else meanwhile: there is nothing to move. */
  lemma NothingToMove(s: State, t: Tid, caller: Caller)
    requires AtPc(s, t, Exchanging(caller)) && s.visited.None?
    ensures OnlyMoves(s, Apply(s, Revisits(t, false)), t, Idle)
  {
  }

  /** The list was empty when it was read and has changed: the thread looks for the end of its chain after all. */
  lemma SwapRetries(s: State, t: Tid, first: Seg, ts: Word, caller: Caller)
    requires AtPc(s, t, SwapSeen(first, ts, caller)) && s.top != ts
    ensures OnlyMoves(s, Apply(s, Revisits(t, false)), t, Walking(first, first, caller))
  {
  }

  lemma TailRetries(s: State, t: Tid, first: Seg, last: Seg, ts: Word, caller: Caller, spurious: bool)
    requires AtPc(s, t, TailStored(first, last, ts, caller)) && (spurious || s.top != ts)
    ensures OnlyMoves(s, Apply(s, Revisits(t, spurious)), t, TailLoaded(first, last, s.top, caller))
  {
  }

  /** A pop whose compare-and-swap fails goes on with the new head, or leaves when there is none. */
  lemma PopRetries(s: State, t: Tid, ts: Word, anext: Option<Seg>, spurious: bool)
    requires AtPc(s, t, PopRead(ts, anext)) && ts.ptr.Some? && (spurious || s.top != ts)
    ensures OnlyMoves(s, Apply(s, Pops(t, spurious)), t, if s.top.ptr.None? then PopLeaving(None) else PopSeen(s.top))
  {
  }

  /** A pop that finds the list empty stops counting as a reader. */
  lemma PopLeavesEmpty(s: State, t: Tid)
    requires AtPc(s, t, PopLeaving(None))
    ensures Apply(s, Pops(t, false)) == s.(readers := s.readers - 1, pcs := s.pcs[t := Idle])
  {
  }
}
