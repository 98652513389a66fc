/**
 What holds of the abandoned lists in every state that any interleaving of any number of threads
 can reach.
 */
module AbandonedSafety {
  import opened Sequences
  import opened AbandonedProtocol
  import opened AbandonedInvariant
  import opened AbandonedSteps

  /** No segments, and every thread idle. */
  ghost predicate Begin(s: State) {
    && s.top.ptr.None? && s.visited.None? && s.readers == 0
    && s.next == map[] && s.spot == map[] && s.alist == [] && s.vlist == []
    && s.chains.Keys == s.pcs.Keys
    && (forall t {:trigger s.pcs[t]} :: t in s.pcs ==> s.pcs[t] == Idle && s.chains[t] == [])
  }

  ghost function Run(s: State, actions: seq<Action>): State
    decreases |actions|
  {
    if actions == [] then s else Run(Apply(s, actions[0]), actions[1..])
  }

  lemma {:induction false} RunKeeps(s: State, actions: seq<Action>)
    requires Inv(s)
    ensures Inv(Run(s, actions))
    decreases |actions|
  {
    if actions != [] {
      StepKeeps(s, actions[0]);
      RunKeeps(Apply(s, actions[0]), actions[1..]);
    }
  }

  ghost predicate Reachable(s: State) {
    exists start, actions :: Begin(start) && Run(start, actions) == s
  }

  lemma ReachableOk(s: State)
    requires Reachable(s)
    ensures Inv(s)
  {
    var start, actions :| Begin(start) && Run(start, actions) == s;
    RunKeeps(start, actions);
  }

  // ---------------------------------------------------------------- where the segments are

  /** The thread has a pointer to `g` with which it may write to `g`, push it or free it. */
  predicate Uses(s: State, t: Tid, g: Seg) {
    && t in s.pcs && t in s.chains
    && match s.pcs[t]
       case PushLoaded(h, _) => h == g
       case PushStored(h, _) => h == g
       case VisitLoaded(h, _) => h == g
       case VisitStored(h, _) => h == g
       case PopLeaving(got) => got == Some(g)
       case PopClearing(h) => h == g
       case Awaiting(h) => h == g
       case Freeing(h) => h == g
       case _ => g in s.chains[t]
  }

  /** The threads that hold `g`: one that is at work on it, or else the one whose segment it is. */
  ghost function HoldersOf(s: State, g: Seg): set<Tid> {
    set t | t in s.pcs && HeldBy(s.spot, g, t)
  }

  /**
   Following `abandoned_next` from the two list heads gives two lists, and every mapped segment is
   once in the first, or once in the second, or with exactly one thread.
   */
  lemma ExactlyOnePlace(s: State, g: Seg)
    requires Reachable(s)
    ensures Links(s.next, s.top.ptr, s.alist, None) && Links(s.next, s.visited, s.vlist, None)
    ensures multiset(s.alist)[g] + multiset(s.vlist)[g] + |HoldersOf(s, g)| == if g in s.next then 1 else 0
  {
    ReachableOk(s);
    if g in s.spot && s.spot[g].With? {
      assert HoldersOf(s, g) == {s.spot[g].t};
    } else {
      assert HoldersOf(s, g) == {};
    }
  }

  /** A thread at work on a segment is the one that holds it: nobody else is at work on it. */
  lemma OnlyTheHolder(s: State, t: Tid, g: Seg)
    requires Reachable(s) && Uses(s, t, g)
    ensures HoldersOf(s, g) == {t} && g !in s.alist && g !in s.vlist
    ensures forall u :: Uses(s, u, g) ==> u == t
  {
    ReachableOk(s);
    UserHolds(s, t, g);
    forall u | Uses(s, u, g) ensures u == t { UserHolds(s, u, g); }
  }

  lemma UserHolds(s: State, t: Tid, g: Seg)
    requires Inv(s) && Uses(s, t, g)
    ensures HeldBy(s.spot, g, t)
  {
    assert ThreadOk(s, t);
    PartDistinct(s.spot, s.chains[t], t);
  }

  // ---------------------------------------------------------------- popping

  /**
   The CAS of a pop: when the tagged word is still the one that was read, the link that was read
   is the current successor of the first segment, whatever happened in between. So exactly the
   first segment leaves the list, and the new head leads to exactly the others.
   */
  lemma PopTakesTheFirst(s: State, t: Tid)
    requires Reachable(s) && t in s.pcs && s.pcs[t].PopRead? && s.pcs[t].ts == s.top
    ensures s.alist != [] && s.top.ptr == Some(s.alist[0])
    ensures Links(s.next, s.pcs[t].anext, s.alist[1..], None)
    ensures var s' := Apply(s, Pops(t, false));
            s'.top.ptr == s.pcs[t].anext && s'.alist == s.alist[1..] && Links(s'.next, s'.top.ptr, s'.alist, None)
            && s'.pcs[t] == PopLeaving(Some(s.alist[0])) && HeldBy(s'.spot, s.alist[0], t)
  {
    ReachableOk(s);
    assert ThreadOk(s, t);
    TopIsListed(s);
    LinksTail(s.next, s.top.ptr, s.alist, None);
    RelabelKeys(s.spot, [s.alist[0]], With(t));
  }

  // ---------------------------------------------------------------- reading and freeing

  /** A link that a thread is about to read is mapped: the read never meets freed memory. */
  lemma ReadsMappedOnly(s: State, t: Tid)
    requires Reachable(s) && t in s.pcs && s.pcs[t].PopSeen?
    ensures s.pcs[t].ts.ptr.Some? && s.pcs[t].ts.ptr.value in s.next
  {
    ReachableOk(s);
    assert ThreadOk(s, t) && Looks(s.pcs[t]).Some?;
  }

  /** When memory goes back to the operating system no thread looks at it, or is about to. */
  lemma FreesUnreadOnly(s: State, t: Tid, u: Tid)
    requires Reachable(s) && t in s.pcs && u in s.pcs && s.pcs[t].Freeing?
    ensures Looks(s.pcs[u]) != Some(s.pcs[t].g)
  {
    ReachableOk(s);
    assert Unread(s.pcs, s.pcs[t].g);
  }

  /** A thread in an operation can always take its next step; all its accesses are to mapped memory. */
  lemma NeverStuck(s: State, t: Tid)
    requires Reachable(s) && t in s.pcs && s.pcs[t] != Idle
    ensures CanPushStep(s, t) || CanRevisitStep(s, t) || CanPopStep(s, t) || CanFreeStep(s, t)
  {
    ReachableOk(s);
    assert ThreadOk(s, t);
    if s.pcs[t].PopSeen? { ReadsMappedOnly(s, t); }
    PartDistinct(s.spot, s.chains[t], t);
    if s.pcs[t].Walking? { assert HeldBy(s.spot, s.pcs[t].last, t); }
  }

  // ---------------------------------------------------------------- finding the end of the chain

  /** How many segments of its chain a walking thread has not passed. */
  ghost predicate Ahead(s: State, t: Tid, n: nat) {
    && t in s.pcs && t in s.chains && s.pcs[t].Walking?
    && n < |s.chains[t]| && s.chains[t][|s.chains[t]| - 1 - n] == s.pcs[t].last
  }

  /** A walk comes closer to the end of its chain with each step, and stops exactly there. */
  lemma WalkEnds(s: State, t: Tid)
    requires Reachable(s) && t in s.pcs && s.pcs[t].Walking?
    ensures exists n: nat ::
              && Ahead(s, t, n)
              && var s' := Apply(s, Revisits(t, false));
                 if n == 0 then s'.pcs[t].AtEnd? else Ahead(s', t, n - 1)
  {
    ReachableOk(s);
    assert ThreadOk(s, t);
    NeverStuck(s, t);
    var l := s.chains[t];
    var i: nat :| i < |l| && l[i] == s.pcs[t].last;
    assert LinkAt(s.next, l, i, None);
    assert Ahead(s, t, |l| - 1 - i);
  }
}
