/**
 What each operation of an arena does from its first step to its last when no other thread comes in
 between: the steps of one thread together are the one big step that the operation stands for.
 */
module ArenaAlone {
  import opened ArenaProtocol
  import opened ArenaInvariant
  import opened ArenaSteps
  import opened ArenaPurges
  import Paths

  // ---------------------------------------------------------------- one thread on its own

  /** How the thread goes on; a claim whose first attempt is rolled back is given up. */
  function Next(s: State, t: Tid): Action {
    if t !in s.pcs then GiveUp(t) else
    match s.pcs[t]
    case Across(_, _, _, _) => Crossing(t)
    case AcrossSeen(_, _, _, _, _) => Crossing(t)
    case Rolling(_, _, done, _) => if done > 0 then Roll(t) else Fail(t)
    case RollingSeen(_, _, _, _, _) => Roll(t)
    case Clearing(_, _, _) => Walk(t)
    case Marking(_, _, _) => Walk(t)
    case FreePurging(_, _) => Walk(t)
    case Unmarking(_, _, _) => Walk(t)
    case Releasing(_, _, _) => Walk(t)
    case Idle => GiveUp(t)
    case InField(_, _) => GiveUp(t)
    case _ => Purge(t)
  }

  ghost function StepOf(t: Tid): State -> State {
    s => Apply(s, Next(s, t))
  }

  /** The thread on its own comes from `s` to `u`. */
  ghost predicate Leads(s: State, t: Tid, u: State) {
    Paths.Leads(StepOf(t), s, u)
  }

  lemma OneStep(s: State, t: Tid)
    ensures Leads(s, t, Apply(s, Next(s, t)))
  {
    Paths.OneStep(StepOf(t), s);
  }

  lemma LeadsKeeps(s: State, t: Tid, u: State)
    requires Inv(s) && Leads(s, t, u)
    ensures Inv(u)
  {
    var inv := (x: State) => Inv(x);
    forall x | inv(x) ensures inv(StepOf(t)(x)) { StepKeeps(x, Next(x, t)); }
    Paths.Keeps(StepOf(t), inv, s, u);
  }

  /** The shared state that other threads can see, and their program points. */
  ghost predicate Becomes(s: State, s': State, t: Tid, pc: Pc, inuse: set<nat>, purge: set<nat>, live: set<Allocation>) {
    && s'.pcs == s.pcs[t := pc] && s'.inuse == inuse && s'.purge == purge && s'.live == live
    && s'.fields == s.fields && s'.blocks == s.blocks
  }

  /** The thread on its own comes to `u`, which is as described. */
  ghost predicate Comes(s: State, t: Tid, u: State, pc: Pc, inuse: set<nat>, purge: set<nat>, live: set<Allocation>) {
    Leads(s, t, u) && Becomes(s, u, t, pc, inuse, purge, live)
  }

  lemma Then(s: State, t: Tid, u: State, v: State, x: Pc, pc: Pc, inuse: set<nat>, purge: set<nat>, live: set<Allocation>)
    requires Comes(s, t, u, x, u.inuse, u.purge, u.live) && Comes(u, t, v, pc, inuse, purge, live)
    ensures Comes(s, t, v, pc, inuse, purge, live)
  {
    Paths.Both(StepOf(t), s, u, v);
    assert s.pcs[t := x][t := pc] == s.pcs[t := pc];
  }

  // ---------------------------------------------------------------- sets of bits

  lemma AddBoth(bits: set<nat>, lo: nat, mid: nat, hi: nat)
    requires lo <= mid <= hi
    ensures bits + Run(lo, mid) + Run(mid, hi) == bits + Run(lo, hi)
  {
  }

  lemma AddNone(bits: set<nat>, lo: nat)
    ensures bits + Run(lo, lo) == bits
  {
  }

  lemma ExceptBoth(bits: set<nat>, lo: nat, mid: nat, hi: nat)
    requires lo <= mid <= hi
    ensures Except(Except(bits, lo, mid), mid, hi) == Except(bits, lo, hi)
    ensures Except(Except(bits, mid, hi), lo, mid) == Except(bits, lo, hi)
  {
  }

  lemma ExceptNone(bits: set<nat>, lo: nat, hi: nat)
    requires Zeros(bits, lo, hi)
    ensures Except(bits, lo, hi) == bits
  {
  }

  lemma StillFree(bits: set<nat>, lo: nat, mid: nat, hi: nat)
    requires lo <= mid <= hi && Zeros(bits, lo, hi)
    ensures Zeros(bits, lo, mid) && Zeros(bits + Run(lo, mid), mid, hi) && bits + Run(lo, mid) + Run(mid, hi) == bits + Run(lo, hi)
  {
    AddBoth(bits, lo, mid, hi);
  }

  lemma StillBlocked(bits: set<nat>, start: nat, lo: nat, hi: nat, end: nat)
    requires start <= lo <= hi <= end && Zeros(bits, lo, hi) && !Zeros(bits, lo, end)
    ensures hi < end && !Zeros(bits + Run(lo, hi), hi, end)
    ensures Except(bits + Run(lo, hi), start, hi) == Except(bits, start, lo)
  {
    var b: nat :| lo <= b < end && b in bits;
    assert b >= hi && b in bits + Run(lo, hi);
  }

  lemma TakenBack(bits: set<nat>, lo: nat, hi: nat)
    requires Zeros(bits, lo, hi)
    ensures Except(bits + Run(lo, hi), lo, hi) == bits
  {
  }

  lemma SeenIs(bits: set<nat>, lo: nat, hi: nat)
    requires hi <= (Field(lo) + 1) * FIELD_BITS
    ensures Zeros(Word(bits, Field(lo)), lo, hi) <==> Zeros(bits, lo, hi)
  {
    forall b: nat | lo <= b < hi ensures b in Word(bits, Field(lo)) <==> b in bits { assert Field(b) == Field(lo); }
  }

  // ---------------------------------------------------------------- walks over the fields

  lemma ClearStep(s: State, t: Tid, start: nat, count: nat, pos: nat) returns (u: State, hi: nat)
    requires t in s.pcs && s.pcs[t] == Clearing(start, count, pos) && Fits(s, start, count) && pos < count
    ensures start + pos < hi <= start + count
    ensures Comes(s, t, u, Clearing(start, count, hi - start), s.inuse, Except(s.purge, start + pos, hi), s.live)
  {
    hi := PartEnd(start + pos, start + count);
    PartOfField(s, start + pos, start + count);
    u := Apply(s, Walk(t));
    OneStep(s, t);
  }

  lemma HandOutStep(s: State, t: Tid, start: nat, count: nat) returns (u: State)
    requires t in s.pcs && s.pcs[t] == Clearing(start, count, count)
    ensures Comes(s, t, u, Idle, s.inuse, s.purge, s.live + {Allocation(start, count)})
  {
    u := Apply(s, Walk(t));
    OneStep(s, t);
  }

  /** A claim that succeeded clears the purge bits and hands the range out. */
  lemma {:induction false} ClearsAlone(s: State, t: Tid, start: nat, count: nat, pos: nat) returns (v: State)
    requires t in s.pcs && s.pcs[t] == Clearing(start, count, pos) && Fits(s, start, count) && pos <= count
    ensures Comes(s, t, v, Idle, s.inuse, Except(s.purge, start + pos, start + count), s.live + {Allocation(start, count)})
    decreases count - pos
  {
    if pos < count {
      var u, hi := ClearStep(s, t, start, count, pos);
      v := ClearsAlone(u, t, start, count, hi - start);
      ExceptBoth(s.purge, start + pos, hi, start + count);
      Then(s, t, u, v, u.pcs[t], Idle, v.inuse, v.purge, v.live);
    } else {
      v := HandOutStep(s, t, start, count);
      ExceptNone(s.purge, start + pos, start + count);
    }
  }

  lemma MarkStep(s: State, t: Tid, start: nat, count: nat, pos: nat) returns (u: State, hi: nat)
    requires t in s.pcs && s.pcs[t] == Marking(start, count, pos) && Fits(s, start, count) && pos < count
    ensures start + pos < hi <= start + count
    ensures Comes(s, t, u, Marking(start, count, hi - start), s.inuse, s.purge + Run(start + pos, hi), s.live)
  {
    hi := PartEnd(start + pos, start + count);
    PartOfField(s, start + pos, start + count);
    u := Apply(s, Walk(t));
    OneStep(s, t);
  }

  lemma WalkedStep(s: State, t: Tid, start: nat, count: nat) returns (u: State)
    requires t in s.pcs && (s.pcs[t] == Marking(start, count, count) || s.pcs[t] == Unmarking(start, count, count))
    ensures Comes(s, t, u, Releasing(start, count, 0), s.inuse, s.purge, s.live)
  {
    u := Apply(s, Walk(t));
    OneStep(s, t);
  }

  lemma {:induction false} MarksAlone(s: State, t: Tid, start: nat, count: nat, pos: nat) returns (v: State)
    requires t in s.pcs && s.pcs[t] == Marking(start, count, pos) && Fits(s, start, count) && pos <= count
    ensures Comes(s, t, v, Releasing(start, count, 0), s.inuse, s.purge + Run(start + pos, start + count), s.live)
    decreases count - pos
  {
    if pos < count {
      var u, hi := MarkStep(s, t, start, count, pos);
      v := MarksAlone(u, t, start, count, hi - start);
      AddBoth(s.purge, start + pos, hi, start + count);
      Then(s, t, u, v, u.pcs[t], v.pcs[t], v.inuse, v.purge, v.live);
    } else {
      v := WalkedStep(s, t, start, count);
      AddNone(s.purge, start + count);
    }
  }

  lemma UnmarkStep(s: State, t: Tid, start: nat, count: nat, pos: nat) returns (u: State, hi: nat)
    requires t in s.pcs && s.pcs[t] == Unmarking(start, count, pos) && Fits(s, start, count) && pos < count
    ensures start + pos < hi <= start + count
    ensures Comes(s, t, u, Unmarking(start, count, hi - start), s.inuse, Except(s.purge, start + pos, hi), s.live)
  {
    hi := PartEnd(start + pos, start + count);
    PartOfField(s, start + pos, start + count);
    u := Apply(s, Walk(t));
    OneStep(s, t);
  }

  lemma {:induction false} UnmarksAlone(s: State, t: Tid, start: nat, count: nat, pos: nat) returns (v: State)
    requires t in s.pcs && s.pcs[t] == Unmarking(start, count, pos) && Fits(s, start, count) && pos <= count
    ensures Comes(s, t, v, Releasing(start, count, 0), s.inuse, Except(s.purge, start + pos, start + count), s.live)
    decreases count - pos
  {
    if pos < count {
      var u, hi := UnmarkStep(s, t, start, count, pos);
      v := UnmarksAlone(u, t, start, count, hi - start);
      ExceptBoth(s.purge, start + pos, hi, start + count);
      Then(s, t, u, v, u.pcs[t], v.pcs[t], v.inuse, v.purge, v.live);
    } else {
      v := WalkedStep(s, t, start, count);
      ExceptNone(s.purge, start + pos, start + count);
    }
  }

  lemma ReleaseStep(s: State, t: Tid, start: nat, count: nat, pos: nat) returns (u: State, hi: nat)
    requires t in s.pcs && s.pcs[t] == Releasing(start, count, pos) && Fits(s, start, count) && pos < count
    ensures start + pos < hi <= start + count
    ensures Comes(s, t, u, Releasing(start, count, hi - start), Except(s.inuse, start + pos, hi), s.purge, s.live)
  {
    hi := PartEnd(start + pos, start + count);
    PartOfField(s, start + pos, start + count);
    u := Apply(s, Walk(t));
    OneStep(s, t);
  }

  lemma ReleasedStep(s: State, t: Tid, start: nat, count: nat) returns (u: State)
    requires t in s.pcs && s.pcs[t] == Releasing(start, count, count)
    ensures Comes(s, t, u, Idle, s.inuse, s.purge, s.live)
  {
    u := Apply(s, Walk(t));
    OneStep(s, t);
  }

  lemma {:induction false} ReleasesAlone(s: State, t: Tid, start: nat, count: nat, pos: nat) returns (v: State)
    requires t in s.pcs && s.pcs[t] == Releasing(start, count, pos) && Fits(s, start, count) && pos <= count
    ensures Comes(s, t, v, Idle, Except(s.inuse, start + pos, start + count), s.purge, s.live)
    decreases count - pos
  {
    if pos < count {
      var u, hi := ReleaseStep(s, t, start, count, pos);
      v := ReleasesAlone(u, t, start, count, hi - start);
      ExceptBoth(s.inuse, start + pos, hi, start + count);
      Then(s, t, u, v, u.pcs[t], v.pcs[t], v.inuse, v.purge, v.live);
    } else {
      v := ReleasedStep(s, t, start, count);
      ExceptNone(s.inuse, start + pos, start + count);
    }
  }

  // ---------------------------------------------------------------- frees

  lemma PurgedStep(s: State, t: Tid, start: nat, count: nat) returns (u: State)
    requires t in s.pcs && s.pcs[t] == FreePurging(start, count)
    ensures Comes(s, t, u, Unmarking(start, count, 0), s.inuse, s.purge, s.live)
  {
    u := Apply(s, Walk(t));
    OneStep(s, t);
  }

  /** The program point at which a free begins. */
  function Begun(a: Allocation, how: How): Pc {
    match how
    case Delayed => Marking(a.start, a.count, 0)
    case AtOnce => FreePurging(a.start, a.count)
    case Never => Releasing(a.start, a.count, 0)
  }

  function PurgeAfter(purge: set<nat>, a: Allocation, how: How): set<nat> {
    if how == Delayed then purge + Run(a.start, a.start + a.count) else purge
  }

  /** Up to the release: the blocks are marked, purged, or neither. */
  lemma SettlesAlone(s: State, t: Tid, a: Allocation, how: How) returns (u: State)
    requires t in s.pcs && s.pcs[t] == Begun(a, how) && how != Never
    requires Fits(s, a.start, a.count) && Zeros(s.purge, a.start, a.start + a.count)
    ensures Comes(s, t, u, Releasing(a.start, a.count, 0), s.inuse, PurgeAfter(s.purge, a, how), s.live)
  {
    if how == Delayed {
      u := MarksAlone(s, t, a.start, a.count, 0);
    } else {
      var w := PurgedStep(s, t, a.start, a.count);
      u := UnmarksAlone(w, t, a.start, a.count, 0);
      ExceptNone(s.purge, a.start, a.start + a.count);
      Then(s, t, w, u, w.pcs[t], u.pcs[t], u.inuse, u.purge, u.live);
    }
  }

  lemma FreedAlone(s: State, t: Tid, a: Allocation, how: How) returns (v: State)
    requires t in s.pcs && s.pcs[t] == Begun(a, how)
    requires Fits(s, a.start, a.count) && Zeros(s.purge, a.start, a.start + a.count)
    ensures Comes(s, t, v, Idle, Except(s.inuse, a.start, a.start + a.count), PurgeAfter(s.purge, a, how), s.live)
  {
    if how == Never {
      v := ReleasesAlone(s, t, a.start, a.count, 0);
    } else {
      var u := SettlesAlone(s, t, a, how);
      v := ReleasesAlone(u, t, a.start, a.count, 0);
      Then(s, t, u, v, u.pcs[t], v.pcs[t], v.inuse, v.purge, v.live);
    }
  }

  lemma FreedIsFit(s: State, a: Allocation)
    requires Inv(s) && a in s.live
    ensures Fits(s, a.start, a.count) && Zeros(s.purge, a.start, a.start + a.count)
  {
    assert ClientBits(s, a);
    forall b: nat | In(a, b) ensures b !in s.purge { assert BitOk(s, b); }
  }

  /** `_mi_arena_free`: the allocation is gone and its blocks are free; they are scheduled if the purge is to be delayed. */
  lemma FreeAlone(s: State, t: Tid, a: Allocation, how: How) returns (v: State)
    requires Inv(s) && CanBegin(s, t, Free(a, how))
    ensures Leads(Apply(s, Begins(t, Free(a, how))), t, v)
    ensures v.pcs == s.pcs && v.live == s.live - {a} && v.inuse == s.inuse - Run(a.start, a.start + a.count)
    ensures v.purge == if how == Delayed then s.purge + Run(a.start, a.start + a.count) else s.purge
  {
    var u := FreeBegun(s, t, a, how);
    v := FreedAlone(u, t, a, how);
    assert s.pcs[t := Begun(a, how)][t := Idle] == s.pcs;
  }

  lemma FreeBegun(s: State, t: Tid, a: Allocation, how: How) returns (u: State)
    requires Inv(s) && CanBegin(s, t, Free(a, how))
    ensures u == Apply(s, Begins(t, Free(a, how))) && t in s.pcs && s.pcs[t] == Idle
    ensures Becomes(s, u, t, Begun(a, how), s.inuse, s.purge, s.live - {a})
    ensures Fits(s, a.start, a.count) && Zeros(s.purge, a.start, a.start + a.count)
  {
    u := Apply(s, Begins(t, Free(a, how)));
    FreedIsFit(s, a);
  }

  // ---------------------------------------------------------------- claims within a field

  /** The state after an allocation of a free range. */
  ghost predicate Allocated(s: State, s': State, start: nat, count: nat) {
    && s'.pcs == s.pcs && s'.inuse == s.inuse + Run(start, start + count)
    && s'.purge == Except(s.purge, start, start + count) && s'.live == s.live + {Allocation(start, count)}
  }

  lemma FieldTaken(s: State, t: Tid, bit: nat, count: nat) returns (u: State)
    requires t in s.pcs && s.pcs[t] == Idle && Within(s, bit, count) && Zeros(s.inuse, bit, bit + count)
    ensures var loaded := Apply(s, Begins(t, LoadField(Field(bit)))); CanClaimField(loaded, t, bit, count) && u == Apply(loaded, ClaimField(t, bit, count))
    ensures Becomes(s, u, t, Clearing(bit, count, 0), s.inuse + Run(bit, bit + count), s.purge, s.live) && Fits(s, bit, count)
  {
    var seen := Word(s.inuse, Field(bit));
    var loaded := Apply(s, Begins(t, LoadField(Field(bit))));
    assert loaded == Goto(s, t, InField(Field(bit), seen));
    u := Apply(loaded, ClaimField(t, bit, count));
    assert u == Goto(Take(loaded, t, bit, bit + count), t, Clearing(bit, count, 0));
    assert s.pcs[t := InField(Field(bit), seen)][t := Clearing(bit, count, 0)] == s.pcs[t := Clearing(bit, count, 0)];
  }

  /** `_mi_bitmap_try_find_claim_field` and what follows it, for a range that is free. */
  lemma FieldAlone(s: State, t: Tid, bit: nat, count: nat) returns (v: State)
    requires t in s.pcs && s.pcs[t] == Idle && Within(s, bit, count) && Zeros(s.inuse, bit, bit + count)
    ensures var loaded := Apply(s, Begins(t, LoadField(Field(bit)))); Leads(Apply(loaded, ClaimField(t, bit, count)), t, v)
    ensures Allocated(s, v, bit, count)
  {
    var u := FieldTaken(s, t, bit, count);
    v := ClearsAlone(u, t, bit, count, 0);
    assert s.pcs[t := u.pcs[t]][t := Idle] == s.pcs;
  }

  // ---------------------------------------------------------------- claims across fields

  /** A field in the middle of a range, which is taken only as a whole. */
  predicate Middle(start: nat, count: nat, done: nat) {
    done > 0 && count > 0 && Field(start + done) < Field(start + count - 1)
  }

  lemma WordOf(bits: set<nat>, f: nat)
    ensures Word(bits, f) == {} <==> Zeros(bits, f * FIELD_BITS, (f + 1) * FIELD_BITS)
  {
    forall b: nat ensures b in Word(bits, f) <==> b in bits && f * FIELD_BITS <= b < (f + 1) * FIELD_BITS {}
    if Word(bits, f) != {} {
      var b :| b in Word(bits, f);
    }
  }

  /** The part of the range in a field: all of the field's bits, if it is a middle one. */
  lemma MiddleIsWhole(s: State, start: nat, count: nat, done: nat, retries: nat)
    requires Claiming(s, start, count, done, retries) && Middle(start, count, done)
    ensures Word(s.inuse, Field(start + done)) == {} <==> Zeros(s.inuse, start + done, PartEnd(start + done, start + count))
  {
    var lo := start + done;
    var f := Field(lo);
    assert lo == f * FIELD_BITS && PartEnd(lo, start + count) == (f + 1) * FIELD_BITS;
    WordOf(s.inuse, f);
  }

  /** The part of a claim up to `hi` is taken if it is free; otherwise the claim turns round. */
  ghost predicate PartStep(s: State, t: Tid, u: State, start: nat, count: nat, done: nat, retries: nat, hi: nat)
    requires start <= hi
  {
    if Zeros(s.inuse, start + done, hi)
    then Comes(s, t, u, Advanced(start, count, hi - start, retries), s.inuse + Run(start + done, hi), s.purge, s.live)
    else Comes(s, t, u, Rolling(start, count, done, retries), s.inuse, s.purge, s.live)
  }

  lemma MiddleStep(s: State, t: Tid, start: nat, count: nat, done: nat, retries: nat) returns (u: State)
    requires t in s.pcs && s.pcs[t] == Across(start, count, done, retries) && Claiming(s, start, count, done, retries) && Middle(start, count, done)
    ensures PartEnd(start + done, start + count) >= start && PartStep(s, t, u, start, count, done, retries, PartEnd(start + done, start + count))
  {
    PartOfField(s, start + done, start + count);
    MiddleIsWhole(s, start, count, done, retries);
    u := Apply(s, Crossing(t));
    OneStep(s, t);
  }

  lemma LoadStep(s: State, t: Tid, start: nat, count: nat, done: nat, retries: nat) returns (u: State)
    requires t in s.pcs && s.pcs[t] == Across(start, count, done, retries) && !Middle(start, count, done)
    ensures Comes(s, t, u, AcrossSeen(start, count, done, retries, Word(s.inuse, Field(start + done))), s.inuse, s.purge, s.live)
  {
    u := Apply(s, Crossing(t));
    OneStep(s, t);
  }

  lemma SwapStep(s: State, t: Tid, start: nat, count: nat, done: nat, retries: nat) returns (u: State)
    requires t in s.pcs && s.pcs[t] == AcrossSeen(start, count, done, retries, Word(s.inuse, Field(start + done))) && Claiming(s, start, count, done, retries)
    ensures PartEnd(start + done, start + count) >= start && PartStep(s, t, u, start, count, done, retries, PartEnd(start + done, start + count))
  {
    PartOfField(s, start + done, start + count);
    SeenIs(s.inuse, start + done, PartEnd(start + done, start + count));
    u := Apply(s, Crossing(t));
    OneStep(s, t);
  }

  /** The next part of a claim, in one step or in two. */
  lemma PartAlone(s: State, t: Tid, start: nat, count: nat, done: nat, retries: nat) returns (v: State)
    requires t in s.pcs && s.pcs[t] == Across(start, count, done, retries) && Claiming(s, start, count, done, retries)
    ensures PartEnd(start + done, start + count) >= start && PartStep(s, t, v, start, count, done, retries, PartEnd(start + done, start + count))
  {
    if Middle(start, count, done) {
      v := MiddleStep(s, t, start, count, done, retries);
    } else {
      var u := LoadStep(s, t, start, count, done, retries);
      v := SwapStep(u, t, start, count, done, retries);
      Then(s, t, u, v, u.pcs[t], v.pcs[t], v.inuse, v.purge, v.live);
    }
  }

  /** What a claim in progress needs, without the arithmetic of fields. */
  ghost predicate Claims(s: State, t: Tid, start: nat, count: nat, done: nat, retries: nat) {
    && t in s.pcs && s.pcs[t] == Across(start, count, done, retries)
    && Claiming(s, start, count, done, retries)
  }

  lemma ClaimsOf(s: State, t: Tid, start: nat, count: nat, done: nat, retries: nat)
    requires Claims(s, t, start, count, done, retries)
    ensures done < count && Fits(s, start, count)
  {
  }

  /** After the next part the claim is complete, goes on, or turns round. */
  lemma PartDone(s: State, t: Tid, start: nat, count: nat, done: nat, retries: nat) returns (u: State, hi: nat)
    requires Claims(s, t, start, count, done, retries)
    ensures start + done < hi <= start + count
    ensures !Zeros(s.inuse, start + done, hi) ==> Comes(s, t, u, Rolling(start, count, done, retries), s.inuse, s.purge, s.live)
    ensures Zeros(s.inuse, start + done, hi) && hi == start + count ==>
              Comes(s, t, u, Clearing(start, count, 0), s.inuse + Run(start + done, hi), s.purge, s.live)
    ensures Zeros(s.inuse, start + done, hi) && hi < start + count ==>
              Comes(s, t, u, Across(start, count, hi - start, retries), s.inuse + Run(start + done, hi), s.purge, s.live)
              && Claims(u, t, start, count, hi - start, retries)
  {
    u := PartAlone(s, t, start, count, done, retries);
    hi := PartEnd(start + done, start + count);
    PartOfField(s, start + done, start + count);
  }

  /** All of the rest is free: the range is claimed and handed out. */
  lemma {:induction false} CrossesAlone(s: State, t: Tid, start: nat, count: nat, done: nat, retries: nat) returns (v: State)
    requires Claims(s, t, start, count, done, retries) && Zeros(s.inuse, start + done, start + count)
    ensures Comes(s, t, v, Idle, s.inuse + Run(start + done, start + count), Except(s.purge, start, start + count), s.live + {Allocation(start, count)})
    decreases count - done
  {
    ClaimsOf(s, t, start, count, done, retries);
    var u, hi := PartDone(s, t, start, count, done, retries);
    StillFree(s.inuse, start + done, hi, start + count);
    if hi == start + count {
      v := ClearsAlone(u, t, start, count, 0);
    } else {
      v := CrossesAlone(u, t, start, count, hi - start, retries);
    }
    Then(s, t, u, v, u.pcs[t], Idle, v.inuse, v.purge, v.live);
  }

  lemma FailStep(s: State, t: Tid, start: nat, count: nat, retries: nat) returns (u: State)
    requires t in s.pcs && s.pcs[t] == Rolling(start, count, 0, retries)
    ensures Comes(s, t, u, Idle, s.inuse, s.purge, s.live)
  {
    u := Apply(s, Fail(t));
    OneStep(s, t);
  }

  lemma StoreStep(s: State, t: Tid, start: nat, count: nat, done: nat, retries: nat) returns (u: State, before: nat)
    requires Inv(s) && t in s.pcs && s.pcs[t] == Rolling(start, count, done, retries) && done > 0 && Field(start + done - 1) > Field(start)
    ensures before < done && Comes(s, t, u, Rolling(start, count, before, retries), Except(s.inuse, start + before, start + done), s.purge, s.live)
  {
    WholeField(s, t);
    before := Field(start + done - 1) * FIELD_BITS - start;
    u := Apply(s, Roll(t));
    OneStep(s, t);
  }

  lemma FirstFieldStep(s: State, t: Tid, start: nat, count: nat, done: nat, retries: nat) returns (v: State)
    requires t in s.pcs && s.pcs[t] == Rolling(start, count, done, retries) && done > 0 && Field(start + done - 1) == Field(start)
    ensures Comes(s, t, v, Rolling(start, count, 0, retries), Except(s.inuse, start, start + done), s.purge, s.live)
  {
    var u := RollLoadStep(s, t, start, count, done, retries);
    v := RollSwapStep(u, t, start, count, done, retries);
    Then(s, t, u, v, u.pcs[t], v.pcs[t], v.inuse, v.purge, v.live);
  }

  lemma RollLoadStep(s: State, t: Tid, start: nat, count: nat, done: nat, retries: nat) returns (u: State)
    requires t in s.pcs && s.pcs[t] == Rolling(start, count, done, retries) && done > 0 && Field(start + done - 1) == Field(start)
    ensures Comes(s, t, u, RollingSeen(start, count, done, retries, Word(s.inuse, Field(start))), s.inuse, s.purge, s.live)
  {
    u := Apply(s, Roll(t));
    OneStep(s, t);
  }

  lemma RollSwapStep(s: State, t: Tid, start: nat, count: nat, done: nat, retries: nat) returns (u: State)
    requires t in s.pcs && s.pcs[t] == RollingSeen(start, count, done, retries, Word(s.inuse, Field(start)))
    ensures Comes(s, t, u, Rolling(start, count, 0, retries), Except(s.inuse, start, start + done), s.purge, s.live)
  {
    u := Apply(s, Roll(t));
    OneStep(s, t);
  }

  /** A rollback gives back everything the claim had taken, and the claim fails. */
  lemma {:induction false} RollsAlone(s: State, t: Tid, start: nat, count: nat, done: nat, retries: nat) returns (v: State)
    requires Inv(s) && t in s.pcs && s.pcs[t] == Rolling(start, count, done, retries)
    ensures Comes(s, t, v, Idle, Except(s.inuse, start, start + done), s.purge, s.live)
    decreases done
  {
    if done == 0 {
      v := FailStep(s, t, start, count, retries);
      ExceptNone(s.inuse, start, start + done);
    } else {
      var u, before;
      if Field(start + done - 1) > Field(start) {
        u, before := StoreStep(s, t, start, count, done, retries);
      } else {
        u := FirstFieldStep(s, t, start, count, done, retries);
        before := 0;
      }
      LeadsKeeps(s, t, u);
      v := RollsAlone(u, t, start, count, before, retries);
      ExceptBoth(s.inuse, start, start + before, start + done);
      Then(s, t, u, v, u.pcs[t], Idle, v.inuse, v.purge, v.live);
    }
  }

  /** Some of the rest is not free: what was taken is given back, and the claim fails. */
  lemma {:induction false} BlockedAlone(s: State, t: Tid, start: nat, count: nat, done: nat, retries: nat) returns (v: State)
    requires Inv(s) && Claims(s, t, start, count, done, retries) && !Zeros(s.inuse, start + done, start + count)
    ensures Comes(s, t, v, Idle, Except(s.inuse, start, start + done), s.purge, s.live)
    decreases count - done
  {
    ClaimsOf(s, t, start, count, done, retries);
    var u, hi := PartDone(s, t, start, count, done, retries);
    LeadsKeeps(s, t, u);
    if Zeros(s.inuse, start + done, hi) {
      StillBlocked(s.inuse, start, start + done, hi, start + count);
      v := BlockedAlone(u, t, start, count, hi - start, retries);
    } else {
      v := RollsAlone(u, t, start, count, done, retries);
    }
    Then(s, t, u, v, u.pcs[t], Idle, v.inuse, v.purge, v.live);
  }

  lemma AcrossBegun(s: State, t: Tid, start: nat, count: nat) returns (u: State)
    requires Inv(s) && CanBegin(s, t, StartAcross(start, count))
    ensures u == Apply(s, Begins(t, StartAcross(start, count))) && Inv(u) && t in s.pcs && s.pcs[t] == Idle
    ensures Becomes(s, u, t, Across(start, count, 0, 0), s.inuse, s.purge, s.live) && Claims(u, t, start, count, 0, 0)
  {
    u := Apply(s, Begins(t, StartAcross(start, count)));
    StepKeeps(s, Begins(t, StartAcross(start, count)));
  }

  /**
   A claim across fields gets a range exactly if all of it is free, and otherwise leaves everything as
   it was.
   */
  lemma AcrossAlone(s: State, t: Tid, start: nat, count: nat) returns (v: State)
    requires Inv(s) && CanBegin(s, t, StartAcross(start, count))
    ensures Leads(Apply(s, Begins(t, StartAcross(start, count))), t, v)
    ensures Zeros(s.inuse, start, start + count) ==> Allocated(s, v, start, count)
    ensures !Zeros(s.inuse, start, start + count) ==> v.pcs == s.pcs && v.inuse == s.inuse && v.purge == s.purge && v.live == s.live
  {
    var u := AcrossBegun(s, t, start, count);
    assert s.pcs[t := Across(start, count, 0, 0)][t := Idle] == s.pcs;
    if Zeros(s.inuse, start, start + count) {
      v := CrossesAlone(u, t, start, count, 0, 0);
    } else {
      v := BlockedAlone(u, t, start, count, 0, 0);
      ExceptNone(s.inuse, start, start);
    }
  }

  // ---------------------------------------------------------------- purges

  lemma ScanStep(s: State, t: Tid, bit: nat, len: nat, mask: set<nat>, pos: nat) returns (u: State)
    requires t in s.pcs && s.pcs[t] == Scanning(bit, len, mask, pos)
    ensures Comes(s, t, u, if pos >= bit + len then LettingGo(bit, len) else
                           if Ones(mask, pos, bit + len) > 0 then Purging(bit, len, mask, pos, Ones(mask, pos, bit + len))
                           else Scanning(bit, len, mask, pos + 1), s.inuse, s.purge, s.live)
  {
    u := Apply(s, Purge(t));
    OneStep(s, t);
  }

  lemma PurgingStep(s: State, t: Tid, bit: nat, len: nat, mask: set<nat>, pos: nat, ones: nat) returns (u: State)
    requires t in s.pcs && s.pcs[t] == Purging(bit, len, mask, pos, ones)
    ensures Comes(s, t, u, Scanning(bit, len, mask, pos + ones + 1), s.inuse, Except(s.purge, pos, pos + ones), s.live)
  {
    u := Apply(s, Purge(t));
    OneStep(s, t);
  }

  lemma LetGoStep(s: State, t: Tid, bit: nat, len: nat) returns (u: State)
    requires t in s.pcs && s.pcs[t] == LettingGo(bit, len)
    ensures Comes(s, t, u, Idle, Except(s.inuse, bit, bit + len), s.purge, s.live)
  {
    u := Apply(s, Purge(t));
    OneStep(s, t);
  }

  lemma SweptOn(purge: set<nat>, bit: nat, len: nat, mask: set<nat>, pos: nat)
    requires bit <= pos < bit + len && Swept(purge, bit, len, mask, pos)
    ensures var ones := Ones(mask, pos, bit + len);
            && Swept(Except(purge, pos, pos + ones), bit, len, mask, pos + ones + 1)
            && Except(Except(purge, pos, pos + ones), bit, bit + len) == Except(purge, bit, bit + len)
            && (ones == 0 ==> Except(purge, pos, pos + ones) == purge)
  {
  }

  /** One round of the scan. */
  lemma ScansOnce(s: State, t: Tid, bit: nat, len: nat, mask: set<nat>, pos: nat) returns (v: State)
    requires t in s.pcs && s.pcs[t] == Scanning(bit, len, mask, pos) && bit <= pos < bit + len && Swept(s.purge, bit, len, mask, pos)
    ensures var ones := Ones(mask, pos, bit + len);
            Comes(s, t, v, Scanning(bit, len, mask, pos + ones + 1), s.inuse, Except(s.purge, pos, pos + ones), s.live)
  {
    SweptOn(s.purge, bit, len, mask, pos);
    var ones := Ones(mask, pos, bit + len);
    v := ScanStep(s, t, bit, len, mask, pos);
    if ones > 0 {
      var u := v;
      v := PurgingStep(u, t, bit, len, mask, pos, ones);
      Then(s, t, u, v, u.pcs[t], v.pcs[t], v.inuse, v.purge, v.live);
    }
  }

  /** What the scan finds scheduled in the rest of the range is purged, and then the range is let go. */
  lemma {:induction false} ScansAlone(s: State, t: Tid, bit: nat, len: nat, mask: set<nat>, pos: nat) returns (v: State)
    requires t in s.pcs && s.pcs[t] == Scanning(bit, len, mask, pos) && bit <= pos && Swept(s.purge, bit, len, mask, pos)
    ensures Comes(s, t, v, Idle, Except(s.inuse, bit, bit + len), Except(s.purge, bit, bit + len), s.live)
    decreases bit + len - pos
  {
    var u;
    if pos >= bit + len {
      u := ScanStep(s, t, bit, len, mask, pos);
      v := LetGoStep(u, t, bit, len);
      ExceptNone(s.purge, bit, bit + len);
    } else {
      SweptOn(s.purge, bit, len, mask, pos);
      u := ScansOnce(s, t, bit, len, mask, pos);
      v := ScansAlone(u, t, bit, len, mask, pos + Ones(mask, pos, bit + len) + 1);
    }
    Then(s, t, u, v, u.pcs[t], v.pcs[t], v.inuse, v.purge, v.live);
  }

  lemma OwnStep(s: State, t: Tid, bit: nat, len: nat) returns (u: State, mask: set<nat>)
    requires t in s.pcs && s.pcs[t] == Owning(bit, len) && Within(s, bit, len)
    ensures Comes(s, t, u, Scanning(bit, len, mask, bit), s.inuse, s.purge, s.live) && Swept(s.purge, bit, len, mask, bit)
  {
    mask := Word(s.purge, Field(bit));
    u := Apply(s, Purge(t));
    OneStep(s, t);
    forall b: nat | bit <= b < bit + len ensures b in s.purge <==> b in mask { assert Field(b) == Field(bit); }
  }

  lemma OwnsAlone(s: State, t: Tid, bit: nat, len: nat) returns (v: State)
    requires t in s.pcs && s.pcs[t] == Owning(bit, len) && Within(s, bit, len)
    ensures Comes(s, t, v, Idle, Except(s.inuse, bit, bit + len), Except(s.purge, bit, bit + len), s.live)
  {
    var u, mask := OwnStep(s, t, bit, len);
    v := ScansAlone(u, t, bit, len, mask, bit);
    Then(s, t, u, v, u.pcs[t], v.pcs[t], v.inuse, v.purge, v.live);
  }

  lemma TryLoadStep(s: State, t: Tid, bit: nat, len: nat) returns (u: State)
    requires t in s.pcs && s.pcs[t] == TryLoad(bit, len)
    ensures Comes(s, t, u, TrySeen(bit, len, Word(s.inuse, Field(bit))), s.inuse, s.purge, s.live)
  {
    u := Apply(s, Purge(t));
    OneStep(s, t);
  }

  /** The range is taken if it is free; otherwise a shorter one is tried. */
  lemma TrySwapStep(s: State, t: Tid, bit: nat, len: nat) returns (u: State)
    requires t in s.pcs && s.pcs[t] == TrySeen(bit, len, Word(s.inuse, Field(bit))) && Within(s, bit, len)
    ensures Zeros(s.inuse, bit, bit + len) ==> Comes(s, t, u, Owning(bit, len), s.inuse + Run(bit, bit + len), s.purge, s.live)
    ensures !Zeros(s.inuse, bit, bit + len) ==> Comes(s, t, u, if len > 1 then TryLoad(bit, len - 1) else Idle, s.inuse, s.purge, s.live)
  {
    SeenIs(s.inuse, bit, bit + len);
    u := Apply(s, Purge(t));
    OneStep(s, t);
  }

  lemma ShorterWithin(s: State, bit: nat, len: nat)
    requires Within(s, bit, len) && len > 1
    ensures Within(s, bit, len - 1)
  {
  }

  /** `mi_arena_try_purge` on a range: it purges as much of it, from its first block on, as is free. */
  lemma {:induction false} PurgeAlone(s: State, t: Tid, bit: nat, len: nat) returns (v: State, k: nat)
    requires t in s.pcs && s.pcs[t] == TryLoad(bit, len) && Within(s, bit, len)
    ensures k <= len && Zeros(s.inuse, bit, bit + k) && (k < len ==> !Zeros(s.inuse, bit, bit + k + 1))
    ensures Comes(s, t, v, Idle, s.inuse, Except(s.purge, bit, bit + k), s.live)
    decreases len
  {
    var w := TryLoadStep(s, t, bit, len);
    var u := TrySwapStep(w, t, bit, len);
    Then(s, t, w, u, w.pcs[t], u.pcs[t], u.inuse, u.purge, u.live);
    if Zeros(s.inuse, bit, bit + len) {
      k := len;
      v := OwnsAlone(u, t, bit, len);
      TakenBack(s.inuse, bit, bit + len);
      Then(s, t, u, v, u.pcs[t], v.pcs[t], v.inuse, v.purge, v.live);
    } else if len > 1 {
      ShorterWithin(s, bit, len);
      v, k := PurgeAlone(u, t, bit, len - 1);
      Then(s, t, u, v, u.pcs[t], v.pcs[t], v.inuse, v.purge, v.live);
    } else {
      v, k := u, 0;
      ExceptNone(s.purge, bit, bit);
    }
  }

  lemma PurgeBegun(s: State, t: Tid, bit: nat, len: nat) returns (u: State)
    requires t in s.pcs && s.pcs[t] == Idle && Within(s, bit, len)
    ensures u == Apply(s, Begins(t, TryPurge(bit, len))) && Becomes(s, u, t, TryLoad(bit, len), s.inuse, s.purge, s.live)
  {
    u := Apply(s, Begins(t, TryPurge(bit, len)));
  }

  /** The whole attempt: nothing but purge bits changes, and these only of the blocks from `bit` on that are free. */
  lemma TryPurgeAlone(s: State, t: Tid, bit: nat, len: nat) returns (v: State, k: nat)
    requires t in s.pcs && s.pcs[t] == Idle && Within(s, bit, len)
    ensures k <= len && Zeros(s.inuse, bit, bit + k) && (k < len ==> !Zeros(s.inuse, bit, bit + k + 1))
    ensures Leads(Apply(s, Begins(t, TryPurge(bit, len))), t, v)
    ensures v.pcs == s.pcs && v.inuse == s.inuse && v.live == s.live && v.purge == Except(s.purge, bit, bit + k)
  {
    var u := PurgeBegun(s, t, bit, len);
    v, k := PurgeAlone(u, t, bit, len);
    assert s.pcs[t := TryLoad(bit, len)][t := Idle] == s.pcs;
  }

  // ---------------------------------------------------------------- when others come in between

  /** Only the program point of `t` changes. */
  ghost predicate OnlyMoves(s: State, u: State, t: Tid, pc: Pc) {
    u == s.(pcs := s.pcs[t := pc])
  }

  /** A compare-and-swap that finds its word changed takes and drops nothing: the thread reads anew. */
  lemma FieldRetries(s: State, t: Tid, idx: nat, seen: set<nat>, bit: nat, count: nat)
    requires t in s.pcs && s.pcs[t] == InField(idx, seen) && CanClaimField(s, t, bit, count) && Word(s.inuse, idx) != seen
    ensures OnlyMoves(s, Apply(s, ClaimField(t, bit, count)), t, InField(idx, Word(s.inuse, idx)))
  {
  }

  lemma AcrossRetries(s: State, t: Tid, start: nat, count: nat, done: nat, retries: nat, seen: set<nat>)
    requires t in s.pcs && s.pcs[t] == AcrossSeen(start, count, done, retries, seen) && Word(s.inuse, Field(start + done)) != seen
    ensures OnlyMoves(s, Apply(s, Crossing(t)), t,
                      if Zeros(seen, start + done, PartEnd(start + done, start + count))
                      then AcrossSeen(start, count, done, retries, Word(s.inuse, Field(start + done))) else Rolling(start, count, done, retries))
  {
  }

  lemma RollRetries(s: State, t: Tid, start: nat, count: nat, done: nat, retries: nat, seen: set<nat>)
    requires t in s.pcs && s.pcs[t] == RollingSeen(start, count, done, retries, seen) && Word(s.inuse, Field(start)) != seen
    ensures OnlyMoves(s, Apply(s, Roll(t)), t, RollingSeen(start, count, done, retries, Word(s.inuse, Field(start))))
  {
  }

  lemma PurgeRetries(s: State, t: Tid, bit: nat, len: nat, seen: set<nat>)
    requires t in s.pcs && s.pcs[t] == TrySeen(bit, len, seen) && Word(s.inuse, Field(bit)) != seen && Zeros(seen, bit, bit + len)
    ensures OnlyMoves(s, Apply(s, Purge(t)), t, TrySeen(bit, len, Word(s.inuse, Field(bit))))
  {
  }

  /** After a rollback that is complete, up to three more attempts are made in the same field. */
  lemma TriesAgain(s: State, t: Tid, start: nat, count: nat, retries: nat, again: nat)
    requires t in s.pcs && s.pcs[t] == Rolling(start, count, 0, retries) && Field(again) == Field(start) && Crosses(s, again, count)
    ensures if retries <= 2 then OnlyMoves(s, Apply(s, Retry(t, again)), t, Across(again, count, 0, retries + 1)) else Apply(s, Retry(t, again)) == s
  {
  }
}
