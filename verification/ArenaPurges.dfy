/**
 What becomes of the purge bits of an arena (arena.cpp:563-723, 760-843): who may change them, what a
 free leaves scheduled, and that a purge hands to the operating system what was scheduled.
 */
module ArenaPurges {
  import opened ArenaProtocol
  import opened ArenaInvariant
  import opened ArenaSteps
  import opened ArenaSafety

  // ---------------------------------------------------------------- who changes purge bits

  ghost predicate HeldBy(s: State, t: Tid, b: nat) {
    t in s.pcs && Holds(s.pcs[t], b)
  }

  /** Only whoever holds a block sets or clears its purge bit. */
  lemma OnlyHolderPurges(s: State, a: Action, b: nat)
    requires Inv(s) && (b in Apply(s, a).purge <==> b !in s.purge)
    ensures HeldBy(s, a.t, b)
  {
    assert ThreadOk(s, a.t);
    if a.Walk? {
      WalkPurges(s, a.t, b);
    } else if a.Purge? {
      assert Apply(s, a).purge != s.purge;
    }
  }

  lemma WalkPurges(s: State, t: Tid, b: nat)
    requires Inv(s) && CanWalk(s, t) && (b in DoWalk(s, t).purge <==> b !in s.purge)
    ensures HeldBy(s, t, b)
  {
    assert ThreadOk(s, t);
    match s.pcs[t]
    case Clearing(start, count, pos) => if pos < count { PartOfField(s, start + pos, start + count); }
    case Marking(start, count, pos) => if pos < count { PartOfField(s, start + pos, start + count); }
    case Unmarking(start, count, pos) => if pos < count { PartOfField(s, start + pos, start + count); }
    case _ =>
  }

  // ---------------------------------------------------------------- how far a thread is

  predicate AllIn(bits: set<nat>, lo: nat, hi: nat) {
    forall b :: lo <= b < hi ==> b in bits
  }

  /** Of the range, what the mask had scheduled from `pos` on is scheduled, and nothing else. */
  predicate Swept(purge: set<nat>, bit: nat, len: nat, mask: set<nat>, pos: nat) {
    forall b {:trigger b in purge} {:trigger b in mask} :: bit <= b < bit + len ==> (b in purge <==> b in mask && b >= pos)
  }

  predicate Progress(purge: set<nat>, pc: Pc) {
    match pc
    case Marking(start, _, pos) => AllIn(purge, start, start + pos)
    case Unmarking(start, _, pos) => Zeros(purge, start, start + pos)
    case Scanning(bit, len, mask, pos) => Swept(purge, bit, len, mask, pos)
    case Purging(bit, len, mask, pos, ones) =>
      Swept(purge, bit, len, mask, pos) && AllIn(mask, pos, pos + ones) && (pos + ones < bit + len ==> pos + ones !in mask)
    case LettingGo(bit, len) => Zeros(purge, bit, bit + len)
    case _ => true
  }

  ghost predicate ThreadProgress(s: State, t: Tid) {
    t in s.pcs ==> Progress(s.purge, s.pcs[t])
  }

  ghost predicate AllProgress(s: State) {
    forall t {:trigger ThreadProgress(s, t)} :: ThreadProgress(s, t)
  }

  /** The purge bits of a range are the same in both. */
  predicate SameIn(purge: set<nat>, purge': set<nat>, lo: nat, hi: nat) {
    forall b {:trigger b in purge} {:trigger b in purge'} :: lo <= b < hi ==> (b in purge <==> b in purge')
  }

  /** Progress speaks of bits that the thread holds. */
  lemma ProgressWithin(s: State, pc: Pc, purge: set<nat>, purge': set<nat>)
    requires PcOk(s, pc) && Progress(purge, pc) && SameIn(purge, purge', Lo(pc), Hi(pc))
    ensures Progress(purge', pc)
  {
  }

  lemma OtherProgress(s: State, a: Action, u: Tid)
    requires Inv(s) && u != a.t && ThreadProgress(s, u)
    ensures ThreadProgress(Apply(s, a), u)
  {
    if u in Apply(s, a).pcs {
      OtherStays(s, a, u);
      assert ThreadOk(s, u) && ThreadOk(s, a.t);
      var pc, purge := s.pcs[u], Apply(s, a).purge;
      forall b: nat | Lo(pc) <= b < Hi(pc) ensures b in s.purge <==> b in purge {
        HolderIs(s, b, Thread(u));
        if (b in purge) != (b in s.purge) {
          OnlyHolderPurges(s, a, b);
          HolderIs(s, b, Thread(a.t));
        }
      }
      ProgressWithin(s, pc, s.purge, purge);
    }
  }

  lemma OtherStays(s: State, a: Action, u: Tid)
    requires u != a.t
    ensures u in Apply(s, a).pcs <==> u in s.pcs
    ensures u in s.pcs ==> Apply(s, a).pcs[u] == s.pcs[u]
  {
  }

  lemma OwnProgress(s: State, a: Action)
    requires Inv(s) && ThreadProgress(s, a.t)
    ensures ThreadProgress(Apply(s, a), a.t)
  {
    if Apply(s, a) != s {
      assert ThreadOk(s, a.t);
      match a
      case Walk(t) => WalkProgress(s, t);
      case Purge(t) => PurgeProgress(s, t);
      case _ =>
    }
  }

  lemma WalkProgress(s: State, t: Tid)
    requires CanWalk(s, t) && PcOk(s, s.pcs[t]) && ThreadProgress(s, t)
    ensures ThreadProgress(DoWalk(s, t), t)
  {
    match s.pcs[t]
    case Clearing(_, _, _) =>
    case Marking(start, count, pos) => if pos < count { PartOfField(s, start + pos, start + count); }
    case FreePurging(_, _) =>
    case Unmarking(start, count, pos) => if pos < count { PartOfField(s, start + pos, start + count); }
    case Releasing(_, _, _) =>
  }

  lemma PurgeProgress(s: State, t: Tid)
    requires CanPurge(s, t) && PcOk(s, s.pcs[t]) && ThreadProgress(s, t)
    ensures ThreadProgress(DoPurge(s, t), t)
  {
    match s.pcs[t]
    case Owning(bit, len) =>
      forall b: nat | bit <= b < bit + len ensures Field(b) == Field(bit) {}
      assert forall b: nat :: bit <= b < bit + len ==> (b in s.purge <==> b in Word(s.purge, Field(bit)));
    case Scanning(bit, len, mask, pos) =>
    case Purging(bit, len, mask, pos, ones) =>
    case _ =>
  }

  lemma StepProgress(s: State, a: Action)
    requires Inv(s) && AllProgress(s)
    ensures AllProgress(Apply(s, a))
  {
    forall t ensures ThreadProgress(Apply(s, a), t) {
      assert ThreadProgress(s, t);
      if t == a.t { OwnProgress(s, a); } else { OtherProgress(s, a, t); }
    }
  }

  lemma {:induction false} RunProgress(s: State, actions: seq<Action>)
    requires Inv(s) && AllProgress(s)
    ensures AllProgress(RunAll(s, actions))
    decreases |actions|
  {
    if actions != [] {
      StepKeeps(s, actions[0]);
      StepProgress(s, actions[0]);
      RunProgress(Apply(s, actions[0]), actions[1..]);
    }
  }

  /** However the steps of all threads interleave, each thread has done what its program point says. */
  lemma ReachableProgress(s: State)
    requires Reachable(s)
    ensures Inv(s) && AllProgress(s)
  {
    ReachableOk(s);
    var start, actions :| Created(start) && RunAll(start, actions) == s;
    forall t ensures ThreadProgress(start, t) {}
    RunProgress(start, actions);
  }

  /** While a free marks its blocks, those it has passed are scheduled. */
  lemma MarkedSoFar(s: State, t: Tid, b: nat)
    requires Reachable(s) && t in s.pcs && s.pcs[t].Marking? && s.pcs[t].start <= b < s.pcs[t].start + s.pcs[t].pos
    ensures b in s.purge
  {
    ReachableProgress(s);
    assert ThreadProgress(s, t);
  }

  // ---------------------------------------------------------------- frees

  /** At some state of the run, thread `t` gives block `b` to the operating system. */
  ghost predicate HandsOver(s: State, actions: seq<Action>, t: Tid, b: nat)
    decreases |actions|
  {
    || (t in s.pcs && PurgeRun(s.pcs[t]).0 <= b < PurgeRun(s.pcs[t]).1)
    || (actions != [] && HandsOver(Apply(s, actions[0]), actions[1..], t, b))
  }

  /** Up to the last state of the run, the thread is at its free, before it releases the blocks. */
  ghost predicate FreeingAlong(s: State, actions: seq<Action>, t: Tid)
    decreases |actions|
  {
    actions != [] ==>
      && t in s.pcs && (s.pcs[t].Marking? || s.pcs[t].FreePurging? || s.pcs[t].Unmarking?)
      && FreeingAlong(Apply(s, actions[0]), actions[1..], t)
  }

  /** Whether a block is scheduled when a free comes to release it. */
  predicate Settled(purge: set<nat>, how: How, b: nat) {
    b in purge <==> how == Delayed
  }

  ghost predicate Freeing(s: State, t: Tid, a: Allocation, how: How) {
    t in s.pcs &&
    match s.pcs[t]
    case Marking(start, count, _) => Allocation(start, count) == a && how == Delayed
    case FreePurging(start, count) => Allocation(start, count) == a && how == AtOnce
    case Unmarking(start, count, _) => Allocation(start, count) == a && how == AtOnce
    case Releasing(start, count, pos) => Allocation(start, count) == a && pos == 0 && forall b: nat :: In(a, b) ==> Settled(s.purge, how, b)
    case _ => false
  }

  lemma FreeingStep(s: State, t: Tid, a: Allocation, how: How, x: Action)
    requires Inv(s) && AllProgress(s) && Freeing(s, t, a, how) && !s.pcs[t].Releasing?
    ensures Freeing(Apply(s, x), t, a, how)
  {
    assert ThreadOk(s, t) && ThreadProgress(s, t);
    if x.t == t {
      if Apply(s, x) != s { FreeingWalk(s, t, a, how); }
    } else {
      OtherStays(s, x, t);
    }
  }

  lemma FreeingWalk(s: State, t: Tid, a: Allocation, how: How)
    requires Freeing(s, t, a, how) && PcOk(s, s.pcs[t]) && ThreadProgress(s, t) && !s.pcs[t].Releasing?
    ensures Freeing(DoWalk(s, t), t, a, how)
  {
  }

  lemma {:induction false} FreeingRun(s: State, actions: seq<Action>, t: Tid, a: Allocation, how: How)
    requires Inv(s) && AllProgress(s) && Freeing(s, t, a, how) && FreeingAlong(s, actions, t)
    ensures Inv(RunAll(s, actions)) && Freeing(RunAll(s, actions), t, a, how)
    decreases |actions|
  {
    if actions != [] {
      FreeingStep(s, t, a, how, actions[0]);
      StepKeeps(s, actions[0]);
      StepProgress(s, actions[0]);
      FreeingRun(Apply(s, actions[0]), actions[1..], t, a, how);
    }
  }

  /** Only a free that purges at once hands blocks over, and these are all of its own. */
  lemma {:induction false} HandedByFree(s: State, actions: seq<Action>, t: Tid, a: Allocation, how: How, b: nat)
    requires Inv(s) && AllProgress(s) && Freeing(s, t, a, how) && FreeingAlong(s, actions, t) && !s.pcs[t].FreePurging?
    ensures !HandsOver(s, actions, t, b)
    decreases |actions|
  {
    if actions != [] {
      FreeingStep(s, t, a, how, actions[0]);
      StepKeeps(s, actions[0]);
      StepProgress(s, actions[0]);
      OtherwiseMarking(s, t, actions[0]);
      HandedByFree(Apply(s, actions[0]), actions[1..], t, a, how, b);
    }
  }

  lemma OtherwiseMarking(s: State, t: Tid, x: Action)
    requires t in s.pcs && (s.pcs[t].Marking? || s.pcs[t].Unmarking?)
    ensures t in Apply(s, x).pcs && !Apply(s, x).pcs[t].FreePurging?
  {
    if x.t != t { OtherStays(s, x, t); }
  }

  /** The free of a live allocation begins. */
  lemma FreeBegins(s: State, t: Tid, a: Allocation, how: How)
    requires Inv(s) && CanBegin(s, t, Free(a, how))
    ensures var s' := Apply(s, Begins(t, Free(a, how)));
            && Freeing(s', t, a, how) && s'.live == s.live - {a} && s'.inuse == s.inuse && s'.purge == s.purge
  {
    assert ClientBits(s, a) && Fits(s, a.start, a.count);
    forall b: nat | In(a, b) ensures b !in s.purge { assert BitOk(s, b); }
  }

  /**
   When the free of an allocation comes to release its blocks, whatever other threads did meanwhile: it
   still holds them all; all are scheduled for a purge if it was to be delayed, and none otherwise.
   */
  lemma FreeSchedules(s: State, t: Tid, a: Allocation, how: How, actions: seq<Action>)
    requires Reachable(s) && CanBegin(s, t, Free(a, how))
    requires var begun := Apply(s, Begins(t, Free(a, how)));
             FreeingAlong(begun, actions, t) && t in RunAll(begun, actions).pcs && RunAll(begun, actions).pcs[t].Releasing?
    ensures var s' := RunAll(Apply(s, Begins(t, Free(a, how))), actions);
            && s'.pcs[t] == Releasing(a.start, a.count, 0)
            && forall b: nat :: In(a, b) ==> b in s'.inuse && HeldBy(s', t, b) && (b in s'.purge <==> how == Delayed)
  {
    ReachableProgress(s);
    FreeBegins(s, t, a, how);
    StepKeeps(s, Begins(t, Free(a, how)));
    StepProgress(s, Begins(t, Free(a, how)));
    FreeingRun(Apply(s, Begins(t, Free(a, how))), actions, t, a, how);
    var s' := RunAll(Apply(s, Begins(t, Free(a, how))), actions);
    forall b: nat | In(a, b) ensures b in s'.inuse {
      HolderIs(s', b, Thread(t));
      assert BitOk(s', b);
    }
  }

  /** Its blocks are handed to the operating system, all of them and no others, exactly if it purges at once. */
  lemma FreeHandsOver(s: State, t: Tid, a: Allocation, how: How, actions: seq<Action>, b: nat)
    requires Reachable(s) && CanBegin(s, t, Free(a, how))
    requires FreeingAlong(Apply(s, Begins(t, Free(a, how))), actions, t)
    ensures HandsOver(Apply(s, Begins(t, Free(a, how))), actions, t, b) <==> how == AtOnce && In(a, b)
  {
    ReachableProgress(s);
    FreeBegins(s, t, a, how);
    StepKeeps(s, Begins(t, Free(a, how)));
    StepProgress(s, Begins(t, Free(a, how)));
    var begun := Apply(s, Begins(t, Free(a, how)));
    if how == AtOnce {
      assert begun.pcs[t] == FreePurging(a.start, a.count);
      HandedAtOnce(begun, actions, t, a, b);
    } else {
      HandedByFree(begun, actions, t, a, how, b);
    }
  }

  lemma {:induction false} HandedAtOnce(s: State, actions: seq<Action>, t: Tid, a: Allocation, b: nat)
    requires Inv(s) && AllProgress(s) && Freeing(s, t, a, AtOnce) && FreeingAlong(s, actions, t) && s.pcs[t].FreePurging?
    ensures HandsOver(s, actions, t, b) <==> In(a, b)
    decreases |actions|
  {
    if actions != [] && !In(a, b) {
      FreeingStep(s, t, a, AtOnce, actions[0]);
      StepKeeps(s, actions[0]);
      StepProgress(s, actions[0]);
      var s' := Apply(s, actions[0]);
      if s'.pcs[t].FreePurging? {
        HandedAtOnce(s', actions[1..], t, a, b);
      } else {
        HandedByFree(s', actions[1..], t, a, AtOnce, b);
      }
    }
  }

  // ---------------------------------------------------------------- purges under ownership

  predicate PurgesRange(pc: Pc, bit: nat, len: nat) {
    match pc
    case Owning(x, y) => x == bit && y == len
    case Scanning(x, y, _, _) => x == bit && y == len
    case Purging(x, y, _, _, _) => x == bit && y == len
    case _ => false
  }

  /** Up to the last state of the run, the thread purges the range, which it then lets go. */
  ghost predicate PurgingAlong(s: State, actions: seq<Action>, t: Tid, bit: nat, len: nat)
    decreases |actions|
  {
    t in s.pcs &&
    if actions == [] then s.pcs[t] == LettingGo(bit, len)
    else PurgesRange(s.pcs[t], bit, len) && PurgingAlong(Apply(s, actions[0]), actions[1..], t, bit, len)
  }

  /** What the thread hands over right now was scheduled, and is in the range. */
  lemma HandsScheduled(s: State, t: Tid, bit: nat, len: nat, b: nat)
    requires t in s.pcs && PcOk(s, s.pcs[t]) && ThreadProgress(s, t) && (PurgesRange(s.pcs[t], bit, len) || s.pcs[t] == LettingGo(bit, len))
    requires PurgeRun(s.pcs[t]).0 <= b < PurgeRun(s.pcs[t]).1
    ensures b in s.purge && bit <= b < bit + len
  {
  }

  /** A step takes a block of the range off the schedule only when it is handed over. */
  lemma ScheduledUntilHanded(s: State, t: Tid, bit: nat, len: nat, b: nat, x: Action)
    requires Inv(s) && t in s.pcs && PurgesRange(s.pcs[t], bit, len) && bit <= b < bit + len
    requires !(PurgeRun(s.pcs[t]).0 <= b < PurgeRun(s.pcs[t]).1)
    ensures b in Apply(s, x).purge <==> b in s.purge
  {
    assert ThreadOk(s, t);
    if (b in Apply(s, x).purge) != (b in s.purge) {
      HolderIs(s, b, Thread(t));
      OnlyHolderPurges(s, x, b);
      HolderIs(s, b, Thread(x.t));
    }
  }

  lemma {:induction false} HandedInRun(s: State, actions: seq<Action>, t: Tid, bit: nat, len: nat, b: nat)
    requires Inv(s) && AllProgress(s) && PurgingAlong(s, actions, t, bit, len)
    ensures HandsOver(s, actions, t, b) <==> b in s.purge && bit <= b < bit + len
    decreases |actions|
  {
    assert ThreadOk(s, t) && ThreadProgress(s, t);
    if PurgeRun(s.pcs[t]).0 <= b < PurgeRun(s.pcs[t]).1 {
      HandsScheduled(s, t, bit, len, b);
    } else if actions != [] {
      StepKeeps(s, actions[0]);
      StepProgress(s, actions[0]);
      HandedInRun(Apply(s, actions[0]), actions[1..], t, bit, len, b);
      if bit <= b < bit + len { ScheduledUntilHanded(s, t, bit, len, b, actions[0]); }
    }
  }

  /**
   A purge under ownership hands over exactly the blocks of its range that were scheduled when it came
   to own them; afterwards none of the range is scheduled, whatever other threads did meanwhile.
   */
  lemma PurgeHandsOver(s: State, t: Tid, bit: nat, len: nat, actions: seq<Action>, b: nat)
    requires Reachable(s) && t in s.pcs && s.pcs[t] == Owning(bit, len) && PurgingAlong(s, actions, t, bit, len)
    ensures HandsOver(s, actions, t, b) <==> b in s.purge && bit <= b < bit + len
    ensures bit <= b < bit + len ==> b !in RunAll(s, actions).purge && b in RunAll(s, actions).inuse
  {
    ReachableProgress(s);
    HandedInRun(s, actions, t, bit, len, b);
    var s' := RunAll(s, actions);
    RunKeeps(s, actions);
    RunProgress(s, actions);
    LetsGoAtEnd(s, actions, t, bit, len);
    assert ThreadProgress(s', t) && ThreadOk(s', t);
    if bit <= b < bit + len {
      HolderIs(s', b, Thread(t));
      assert BitOk(s', b);
    }
  }

  lemma {:induction false} LetsGoAtEnd(s: State, actions: seq<Action>, t: Tid, bit: nat, len: nat)
    requires PurgingAlong(s, actions, t, bit, len)
    ensures t in RunAll(s, actions).pcs && RunAll(s, actions).pcs[t] == LettingGo(bit, len)
    decreases |actions|
  {
    if actions != [] { LetsGoAtEnd(Apply(s, actions[0]), actions[1..], t, bit, len); }
  }
}
