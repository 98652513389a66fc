/**
 What holds of an arena in every state that any interleaving of any number of threads can reach.
 */
module ArenaSafety {
  import opened ArenaProtocol
  import opened ArenaInvariant
  import opened ArenaSteps

  /** `mi_manage_os_memory_ex2`: the bits behind the last block are claimed before anyone sees the arena. */
  ghost predicate Created(s: State) {
    && s.fields == (s.blocks + FIELD_BITS - 1) / FIELD_BITS
    && s.inuse == Run(s.blocks, Size(s)) && s.purge == {} && s.live == {}
    && (forall t {:trigger s.pcs[t]} :: t in s.pcs ==> s.pcs[t] == Idle)
    && |s.who| == Size(s)
    && (forall b {:trigger s.who[b]} :: 0 <= b < |s.who| ==> s.who[b] == if b < s.blocks then Nobody else Reserved)
  }

  ghost function RunAll(s: State, actions: seq<Action>): State
    decreases |actions|
  {
    if actions == [] then s else RunAll(Apply(s, actions[0]), actions[1..])
  }

  lemma {:induction false} RunKeeps(s: State, actions: seq<Action>)
    requires Inv(s)
    ensures Inv(RunAll(s, actions))
    decreases |actions|
  {
    if actions != [] {
      StepKeeps(s, actions[0]);
      RunKeeps(Apply(s, actions[0]), actions[1..]);
    }
  }

  ghost predicate Reachable(s: State) {
    exists start, actions :: Created(start) && RunAll(start, actions) == s
  }

  lemma ReachableOk(s: State)
    requires Reachable(s)
    ensures Inv(s)
  {
    var start, actions :| Created(start) && RunAll(start, actions) == s;
    RunKeeps(start, actions);
  }

  // ---------------------------------------------------------------- who holds what

  /** `b` is held by `o`, read off the allocations and program points themselves. */
  predicate HeldAs(s: State, b: nat, o: Owner) {
    match o
    case Nobody => false
    case Reserved => s.blocks <= b < Size(s)
    case Client(a) => a in s.live && In(a, b)
    case Thread(t) => t in s.pcs && Holds(s.pcs[t], b)
  }

  /**
   The set bits are exactly those that are behind the arena, in a live allocation, or held by a
   thread, parts of a claim in progress included; and no bit is held twice.
   */
  lemma BitsAreHoldings(s: State, b: nat)
    requires Reachable(s)
    ensures b in s.inuse <==> exists o :: HeldAs(s, b, o)
    ensures forall o, p :: HeldAs(s, b, o) && HeldAs(s, b, p) ==> o == p
  {
    ReachableOk(s);
    forall o | HeldAs(s, b, o) ensures b < Size(s) && s.who[b] == o {
      HolderIs(s, b, o);
    }
    if b in s.inuse {
      assert BitOk(s, b);
      OwnerHolds(s, b);
      assert HeldAs(s, b, s.who[b]);
    } else if b < Size(s) {
      assert BitOk(s, b);
    }
  }

  lemma HolderIs(s: State, b: nat, o: Owner)
    requires Inv(s) && HeldAs(s, b, o)
    ensures b < Size(s) && s.who[b] == o
  {
    match o
    case Reserved => assert BitOk(s, b);
    case Client(a) => assert ClientBits(s, a) && Fits(s, a.start, a.count);
    case Thread(t) => assert ThreadOk(s, t);
  }

  lemma OwnerHolds(s: State, b: nat)
    requires Inv(s) && b < Size(s) && s.who[b] != Nobody
    ensures HeldAs(s, b, s.who[b])
  {
    match s.who[b]
    case Reserved => assert BitOk(s, b);
    case Client(a) => assert ClientBits(s, a);
    case Thread(t) => assert ThreadOk(s, t);
  }

  // ---------------------------------------------------------------- allocations

  /** Live allocations lie inside the arena, do not overlap, and are not scheduled for a purge. */
  lemma AllocationsApart(s: State, a: Allocation)
    requires Reachable(s) && a in s.live
    ensures a.count > 0 && a.start + a.count <= s.blocks
    ensures forall c, b :: c in s.live && c != a && In(a, b) ==> !In(c, b)
    ensures Zeros(s.purge, a.start, a.start + a.count)
    ensures forall b :: In(a, b) ==> b in s.inuse
  {
    ReachableOk(s);
    assert Fits(s, a.start, a.count);
    forall b: nat | In(a, b) ensures b < s.blocks && b !in s.purge && b in s.inuse {
      HolderIs(s, b, Client(a));
      assert BitOk(s, b);
    }
    assert In(a, a.start + a.count - 1);
    forall c, b: nat | c in s.live && c != a && In(a, b) ensures !In(c, b) {
      HolderIs(s, b, Client(a));
      if In(c, b) { HolderIs(s, b, Client(c)); }
    }
  }

  /** The blocks that a thread gives to the operating system to purge. */
  function PurgeRun(pc: Pc): (nat, nat) {
    match pc
    case FreePurging(start, count) => (start, start + count)
    case Purging(_, _, _, pos, ones) => (pos, pos + ones)
    case _ => (0, 0)
  }

  /**
   A purge is made only by a thread that holds the in-use bits of all the blocks: none of them is in
   a live allocation, held by another thread, or behind the arena.
   */
  lemma PurgesOwnBlocks(s: State, t: Tid, b: nat)
    requires Reachable(s) && t in s.pcs && PurgeRun(s.pcs[t]).0 <= b < PurgeRun(s.pcs[t]).1
    ensures b in s.inuse && b < s.blocks
    ensures forall o :: HeldAs(s, b, o) ==> o == Thread(t)
  {
    ReachableOk(s);
    assert ThreadOk(s, t);
    HolderIs(s, b, Thread(t));
    assert BitOk(s, b);
    forall o | HeldAs(s, b, o) ensures o == Thread(t) { HolderIs(s, b, o); }
  }

  // ---------------------------------------------------------------- rollback and retries

  /** A rollback clears bits that the claim had taken, and no others. */
  lemma RollbackIsExact(s: State, t: Tid, b: nat)
    requires Reachable(s) && CanRoll(s, t)
    ensures var s' := Apply(s, Roll(t));
            b in s'.inuse <==> b in s.inuse && (Holds(s.pcs[t], b) ==> Holds(s'.pcs[t], b))
  {
    ReachableOk(s);
    assert ThreadOk(s, t);
    var s' := Apply(s, Roll(t));
    if s.pcs[t].Rolling? && Field(s.pcs[t].start + s.pcs[t].done - 1) > Field(s.pcs[t].start) {
      WholeField(s, t);
    }
  }

  /** A claim fails, or is tried again, only when it holds nothing any more. */
  lemma FailureHoldsNothing(s: State, t: Tid, b: nat)
    requires Reachable(s) && CanFail(s, t)
    ensures !HeldAs(s, b, Thread(t)) && (b < |s.who| ==> s.who[b] != Thread(t))
  {
    ReachableOk(s);
    assert ThreadOk(s, t);
  }

  /** How much work a claim across fields has before it: attempts, then claiming before rollback. */
  datatype Rank = Rank(attempts: nat, phase: nat, work: nat)

  function RankOf(pc: Pc): Rank
    requires pc.Across? || pc.AcrossSeen? || pc.Rolling? || pc.RollingSeen?
  {
    match pc
    case Across(_, count, done, r) => Rank(if r <= 3 then 3 - r else 0, 1, if done <= count then 2 * (count - done) + 1 else 0)
    case AcrossSeen(_, count, done, r, _) => Rank(if r <= 3 then 3 - r else 0, 1, if done <= count then 2 * (count - done) else 0)
    case Rolling(_, _, done, r) => Rank(if r <= 3 then 3 - r else 0, 0, 2 * done + 1)
    case RollingSeen(_, _, done, r, _) => Rank(if r <= 3 then 3 - r else 0, 0, 2 * done)
  }

  predicate Less(a: Rank, b: Rank) {
    || a.attempts < b.attempts
    || (a.attempts == b.attempts && a.phase < b.phase)
    || (a.attempts == b.attempts && a.phase == b.phase && a.work < b.work)
  }

  predicate Trying(pc: Pc) {
    pc.Across? || pc.AcrossSeen? || pc.Rolling? || pc.RollingSeen?
  }

  /** The word of the thread's last read is not the current one: another thread interfered. */
  ghost predicate Stale(s: State, pc: Pc) {
    match pc
    case AcrossSeen(start, _, done, _, seen) => Word(s.inuse, Field(start + done)) != seen
    case RollingSeen(start, _, _, _, seen) => Word(s.inuse, Field(start)) != seen
    case _ => false
  }

  lemma CrossingEnds(s: State, t: Tid)
    requires CanAcross(s, t) && PcOk(s, s.pcs[t]) && !Stale(s, s.pcs[t])
    ensures var pc := DoAcross(s, t).pcs[t]; Trying(pc) ==> Less(RankOf(pc), RankOf(s.pcs[t]))
  {
    PartOfField(s, s.pcs[t].start + s.pcs[t].done, s.pcs[t].start + s.pcs[t].count);
  }

  lemma RollingEnds(s: State, t: Tid)
    requires CanRoll(s, t) && PcOk(s, s.pcs[t]) && !Stale(s, s.pcs[t])
    ensures var pc := DoRoll(s, t).pcs[t]; Trying(pc) ==> Less(RankOf(pc), RankOf(s.pcs[t]))
  {
    var start, done := s.pcs[t].start, s.pcs[t].done;
    var f := Field(start + done - 1);
    if f > Field(start) { assert start < f * FIELD_BITS <= start + done - 1; }
  }

  /**
   Every step of a claim across fields brings it closer to an end, unless a compare-and-swap finds
   the word changed: there are at most four attempts, and each is finite.
   */
  lemma ClaimsEnd(s: State, t: Tid, a: Action)
    requires Reachable(s) && t in s.pcs && Trying(s.pcs[t]) && !Stale(s, s.pcs[t])
    requires a == Crossing(t) || a == Roll(t) || a == Fail(t) || exists start :: a == Retry(t, start)
    requires Apply(s, a) != s
    ensures var pc := Apply(s, a).pcs[t]; Trying(pc) ==> Less(RankOf(pc), RankOf(s.pcs[t]))
  {
    ReachableOk(s);
    assert ThreadOk(s, t);
    if a.Crossing? {
      CrossingEnds(s, t);
    } else if a.Roll? {
      RollingEnds(s, t);
    }
  }

  // How many steps a claim takes, over a whole run.

  /** The rank as a number: how many steps the claim can take yet if nobody interferes. */
  function Weight(pc: Pc): nat
    requires Trying(pc)
  {
    var r, attempt := RankOf(pc), 4 * pc.count + 4;
    r.attempts * attempt + (if r.phase > 0 then 2 * pc.count + 2 else 0) + r.work
  }

  /** The work of one attempt is bounded by the size of the claim, which stays the same. */
  predicate Bounded(pc: Pc) {
    Trying(pc) && RankOf(pc).work < 2 * pc.count + 2 && RankOf(pc).phase <= 1
  }

  lemma BoundedAt(s: State, t: Tid)
    requires Inv(s) && t in s.pcs && Trying(s.pcs[t])
    ensures Bounded(s.pcs[t])
  {
    assert ThreadOk(s, t);
  }

  lemma WeightLess(a: Pc, b: Pc)
    requires Bounded(a) && Bounded(b) && a.count == b.count && Less(RankOf(a), RankOf(b))
    ensures Weight(a) < Weight(b)
  {
    if RankOf(a).attempts < RankOf(b).attempts {
      OneLess(RankOf(a).attempts, RankOf(b).attempts, 4 * a.count + 4);
    }
  }

  lemma OneLess(m: nat, n: nat, x: nat)
    requires m < n
    ensures m * x + x <= n * x
  {
    assert (n - m - 1) * x >= 0;
    assert n * x == m * x + x + (n - m - 1) * x;
  }

  /** A step of the claim itself: it goes on with the same count, and a compare-and-swap that fails only reads anew. */
  lemma OwnStep(s: State, t: Tid, a: Action)
    requires Inv(s) && t in s.pcs && Trying(s.pcs[t]) && a.t == t && Apply(s, a) != s
    ensures a == Crossing(t) || a == Roll(t) || a == Fail(t) || exists start :: a == Retry(t, start)
    ensures t in Apply(s, a).pcs
    ensures var pc := Apply(s, a).pcs[t]; Trying(pc) ==> pc.count == s.pcs[t].count
    ensures var pc := Apply(s, a).pcs[t];
            Stale(s, s.pcs[t]) && Trying(pc) ==> !Stale(Apply(s, a), pc) && (RankOf(pc) == RankOf(s.pcs[t]) || Less(RankOf(pc), RankOf(s.pcs[t])))
  {
    assert ThreadOk(s, t);
  }

  /** Steps of other threads leave the claim's program point alone. */
  lemma OtherStep(s: State, t: Tid, a: Action)
    requires t in s.pcs && a.t != t
    ensures t in Apply(s, a).pcs && Apply(s, a).pcs[t] == s.pcs[t]
  {
  }

  /** The word that the claim has read and is about to compare. */
  function Watched(s: State, pc: Pc): set<nat> {
    match pc
    case AcrossSeen(start, _, done, _, _) => Word(s.inuse, Field(start + done))
    case RollingSeen(start, _, _, _, _) => Word(s.inuse, Field(start))
    case _ => {}
  }

  /** All along the run, up to its last state, the thread is at the claim. */
  ghost predicate TryingAlong(s: State, actions: seq<Action>, t: Tid)
    decreases |actions|
  {
    actions != [] ==> t in s.pcs && Trying(s.pcs[t]) && TryingAlong(Apply(s, actions[0]), actions[1..], t)
  }

  /** How many steps of the run are steps of thread `t`. */
  ghost function OwnSteps(s: State, actions: seq<Action>, t: Tid): nat
    decreases |actions|
  {
    if actions == [] then 0 else
    (if actions[0].t == t && Apply(s, actions[0]) != s then 1 else 0) + OwnSteps(Apply(s, actions[0]), actions[1..], t)
  }

  /** How many steps of other threads change the word that `t` has read. */
  ghost function Interferences(s: State, actions: seq<Action>, t: Tid): nat
    decreases |actions|
  {
    if actions == [] then 0 else
    var s' := Apply(s, actions[0]);
    (if actions[0].t != t && t in s.pcs && Watched(s', s.pcs[t]) != Watched(s, s.pcs[t]) then 1 else 0) + Interferences(s', actions[1..], t)
  }

  ghost function Left(s: State, t: Tid): nat
    requires t in s.pcs
  {
    if Trying(s.pcs[t]) then Weight(s.pcs[t]) + 1 + (if Stale(s, s.pcs[t]) then 1 else 0) else 0
  }

  lemma OwnStepLess(s: State, t: Tid, a: Action)
    requires Reachable(s) && t in s.pcs && Trying(s.pcs[t]) && a.t == t && Apply(s, a) != s
    ensures t in Apply(s, a).pcs && Left(Apply(s, a), t) < Left(s, t)
  {
    ReachableOk(s);
    var s' := Apply(s, a);
    OwnStep(s, t, a);
    StepKeeps(s, a);
    if Trying(s'.pcs[t]) {
      BoundedAt(s, t);
      BoundedAt(s', t);
      if !Stale(s, s.pcs[t]) {
        ClaimsEnd(s, t, a);
        NotStaleAfter(s, t, a);
        WeightLess(s'.pcs[t], s.pcs[t]);
      } else if Less(RankOf(s'.pcs[t]), RankOf(s.pcs[t])) {
        WeightLess(s'.pcs[t], s.pcs[t]);
      }
    }
  }

  /** What was just read, or is not read yet, is not out of date. */
  lemma NotStaleAfter(s: State, t: Tid, a: Action)
    requires Inv(s) && t in s.pcs && Trying(s.pcs[t]) && a.t == t && Apply(s, a) != s && t in Apply(s, a).pcs
    ensures !Stale(Apply(s, a), Apply(s, a).pcs[t])
  {
  }

  lemma OtherStepMore(s: State, t: Tid, a: Action)
    requires t in s.pcs && a.t != t
    ensures t in Apply(s, a).pcs
    ensures Left(Apply(s, a), t) <= Left(s, t) + if Watched(Apply(s, a), s.pcs[t]) != Watched(s, s.pcs[t]) then 1 else 0
  {
    OtherStep(s, t, a);
  }

  lemma ReachableOn(s: State, a: Action)
    requires Reachable(s)
    ensures Reachable(Apply(s, a))
  {
    var start, actions :| Created(start) && RunAll(start, actions) == s;
    RunOn(start, actions, a);
  }

  lemma {:induction false} RunOn(s: State, actions: seq<Action>, a: Action)
    ensures RunAll(s, actions + [a]) == Apply(RunAll(s, actions), a)
    decreases |actions|
  {
    if actions == [] {
      assert ([] + [a])[1..] == [];
    } else {
      assert (actions + [a])[1..] == actions[1..] + [a];
      RunOn(Apply(s, actions[0]), actions[1..], a);
    }
  }

  /** A claim ends after no more steps of its own than its weight and the interferences together allow. */
  lemma {:induction false} StepsOfClaim(s: State, actions: seq<Action>, t: Tid)
    requires Reachable(s) && t in s.pcs && TryingAlong(s, actions, t)
    ensures OwnSteps(s, actions, t) <= Left(s, t) + Interferences(s, actions, t)
    decreases |actions|
  {
    if actions != [] {
      var a := actions[0];
      ReachableOn(s, a);
      if a.t != t {
        OtherStepMore(s, t, a);
      } else if Apply(s, a) != s {
        OwnStepLess(s, t, a);
      }
      StepsOfClaim(Apply(s, a), actions[1..], t);
    }
  }

  /** From its beginning: sixteen steps for each bit, sixteen more, and one for each interference. */
  lemma ClaimIsShort(s: State, actions: seq<Action>, t: Tid)
    requires Reachable(s) && t in s.pcs && TryingAlong(s, actions, t)
    requires s.pcs[t].Across? && s.pcs[t].done == 0 && s.pcs[t].retries == 0
    ensures OwnSteps(s, actions, t) <= 16 * s.pcs[t].count + 16 + Interferences(s, actions, t)
  {
    FirstWeight(s.pcs[t]);
    StepsOfClaim(s, actions, t);
  }

  lemma FirstWeight(pc: Pc)
    requires pc.Across? && pc.done == 0 && pc.retries == 0
    ensures Weight(pc) == 16 * pc.count + 15
  {
  }

  // ---------------------------------------------------------------- freeing

  /** A free finds all bits of its allocation still set, so "already freed" is never reported. */
  lemma FreeFindsItsBits(s: State, t: Tid, b: nat)
    requires Reachable(s) && t in s.pcs && s.pcs[t].Releasing?
    requires s.pcs[t].start + s.pcs[t].pos <= b < s.pcs[t].start + s.pcs[t].count
    ensures b in s.inuse
  {
    ReachableOk(s);
    assert ThreadOk(s, t);
    HolderIs(s, b, Thread(t));
    assert BitOk(s, b);
  }
}
