/**
 Allocation and purging in one arena (bitmap.cpp:50-108, 211-226, 248-358, 399-455; arena.cpp:235-314,
 563-723, 760-843, 987-995) as a transition system: one step per atomic operation on a field of the
 in-use bitmap or the purge bitmap, any number of threads, sequentially consistent atomics.

 The searches only read, so they appear as a free choice of the range that is claimed next. `live`
 are the allocations in the hands of clients. `who` is a history variable that no step looks at.
 */
module ArenaProtocol {
  const FIELD_BITS: nat := 64

  type Tid = nat

  datatype Allocation = Allocation(start: nat, count: nat)

  /** How `_mi_arena_free` goes about the purge: option and pinning decide. */
  datatype How = Delayed | AtOnce | Never

  datatype Pc =
    | Idle
    | InField(idx: nat, seen: set<nat>)                                        // bitmap.cpp:80
    | Across(start: nat, count: nat, done: nat, retries: nat)                  // bitmap.cpp:286-324
    | AcrossSeen(start: nat, count: nat, done: nat, retries: nat, seen: set<nat>)
    | Rolling(start: nat, count: nat, done: nat, retries: nat)                 // bitmap.cpp:330-348
    | RollingSeen(start: nat, count: nat, done: nat, retries: nat, seen: set<nat>)
    | Clearing(start: nat, count: nat, pos: nat)                               // arena.cpp:270
    | Marking(start: nat, count: nat, pos: nat)                                // arena.cpp:622
    | FreePurging(start: nat, count: nat)                                      // arena.cpp:574, the OS call
    | Unmarking(start: nat, count: nat, pos: nat)                              // arena.cpp:588
    | Releasing(start: nat, count: nat, pos: nat)                              // arena.cpp:837
    | TryLoad(bit: nat, len: nat)                                              // bitmap.cpp:218
    | TrySeen(bit: nat, len: nat, seen: set<nat>)                              // bitmap.cpp:223
    | Owning(bit: nat, len: nat)                                               // arena.cpp:702
    | Scanning(bit: nat, len: nat, mask: set<nat>, pos: nat)                   // arena.cpp:634
    | Purging(bit: nat, len: nat, mask: set<nat>, pos: nat, ones: nat)         // arena.cpp:646, the OS call
    | LettingGo(bit: nat, len: nat)                                            // arena.cpp:709

  datatype Owner = Nobody | Reserved | Client(a: Allocation) | Thread(t: Tid)

  datatype State = State(
    fields: nat,                // `field_count`
    blocks: nat,                // `block_count`
    inuse: set<nat>,            // the bits of `blocks_inuse`
    purge: set<nat>,            // the bits of `blocks_purge`
    pcs: map<Tid, Pc>,
    live: set<Allocation>,
    who: seq<Owner>)

  // ---------------------------------------------------------------- words and ranges

  function Field(b: nat): nat {
    b / FIELD_BITS
  }

  /** The value of a field, as the set of its one bits. */
  function Word(bits: set<nat>, f: nat): set<nat> {
    set b | b in bits && Field(b) == f
  }

  /** The bits from `lo` up to `hi`. */
  function Run(lo: nat, hi: nat): (r: set<nat>)
    ensures forall b :: b in r <==> lo <= b < hi
    decreases hi - lo
  {
    if lo < hi then {lo} + Run(lo + 1, hi) else {}
  }

  function Except(bits: set<nat>, lo: nat, hi: nat): set<nat> {
    set b | b in bits && !(lo <= b < hi)
  }

  /** None of the bits from `lo` up to `hi` is set. */
  predicate Zeros(bits: set<nat>, lo: nat, hi: nat) {
    forall b :: lo <= b < hi ==> b !in bits
  }

  /** Where the field of `b` ends, or `end` if that comes first: what one atomic operation covers. */
  function PartEnd(b: nat, end: nat): nat {
    var e := (Field(b) + 1) * FIELD_BITS;
    if e <= end then e else end
  }

  function Assign(who: seq<Owner>, lo: nat, hi: nat, to: Owner): (r: seq<Owner>)
    ensures |r| == |who| && forall b :: 0 <= b < |who| ==> r[b] == if lo <= b < hi then to else who[b]
  {
    seq(|who|, b requires 0 <= b < |who| => if lo <= b < hi then to else who[b])
  }

  function Goto(s: State, t: Tid, pc: Pc): State {
    s.(pcs := s.pcs[t := pc])
  }

  function Take(s: State, t: Tid, lo: nat, hi: nat): State {
    s.(inuse := s.inuse + Run(lo, hi), who := Assign(s.who, lo, hi, Thread(t)))
  }

  function Drop(s: State, lo: nat, hi: nat): State {
    s.(inuse := Except(s.inuse, lo, hi), who := Assign(s.who, lo, hi, Nobody))
  }

  // ---------------------------------------------------------------- claiming

  datatype Begin =
    | LoadField(idx: nat)
    | StartAcross(start: nat, count: nat)
    | Free(a: Allocation, how: How)
    | TryPurge(bit: nat, len: nat)

  /** A range that needs more than the free end of its first field, and fits in the bitmap. */
  predicate Crosses(s: State, start: nat, count: nat) {
    start + count <= s.fields * FIELD_BITS && PartEnd(start, start + count) < start + count
  }

  ghost predicate CanBegin(s: State, t: Tid, a: Begin) {
    && t in s.pcs && s.pcs[t] == Idle
    && match a
       case LoadField(idx) => idx < s.fields
       case StartAcross(start, count) => Crosses(s, start, count)
       case Free(b, _) => b in s.live
       case TryPurge(bit, len) => len > 0 && Field(bit) < s.fields && bit + len <= (Field(bit) + 1) * FIELD_BITS
  }

  ghost function DoBegin(s: State, t: Tid, a: Begin): State
    requires CanBegin(s, t, a)
  {
    match a
    case LoadField(idx) => Goto(s, t, InField(idx, Word(s.inuse, idx)))
    case StartAcross(start, count) => Goto(s, t, Across(start, count, 0, 0))
    case Free(b, how) =>
      var taken := s.(live := s.live - {b}, who := Assign(s.who, b.start, b.start + b.count, Thread(t)));
      Goto(taken, t, match how
                     case Delayed => Marking(b.start, b.count, 0)
                     case AtOnce => FreePurging(b.start, b.count)
                     case Never => Releasing(b.start, b.count, 0))
    case TryPurge(bit, len) => Goto(s, t, TryLoad(bit, len))
  }

  /** `_mi_bitmap_try_find_claim_field`: the CAS at a place that is free in the word that was read. */
  ghost predicate CanClaimField(s: State, t: Tid, bit: nat, count: nat) {
    && t in s.pcs && s.pcs[t].InField? && count > 0
    && Field(bit) == s.pcs[t].idx && bit + count <= (Field(bit) + 1) * FIELD_BITS
    && Zeros(s.pcs[t].seen, bit, bit + count)
  }

  ghost function DoClaimField(s: State, t: Tid, bit: nat, count: nat): State
    requires CanClaimField(s, t, bit, count)
  {
    var idx := s.pcs[t].idx;
    if Word(s.inuse, idx) != s.pcs[t].seen then Goto(s, t, InField(idx, Word(s.inuse, idx)))
    else Goto(Take(s, t, bit, bit + count), t, Clearing(bit, count, 0))
  }

  ghost predicate CanGiveUp(s: State, t: Tid) {
    t in s.pcs && s.pcs[t].InField?
  }

  ghost predicate CanAcross(s: State, t: Tid) {
    t in s.pcs && (s.pcs[t].Across? || s.pcs[t].AcrossSeen?)
  }

  /** Claimed up to `done`: the whole range, or on to the next field. */
  function Advanced(start: nat, count: nat, done: nat, retries: nat): Pc {
    if done == count then Clearing(start, count, 0) else Across(start, count, done, retries)
  }

  ghost function DoAcross(s: State, t: Tid): State
    requires CanAcross(s, t)
  {
    match s.pcs[t]
    case Across(start, count, done, retries) =>
      var lo := start + done;
      var hi := PartEnd(lo, start + count);
      if done > 0 && count > 0 && Field(lo) < Field(start + count - 1) then
        // an intermediate field: it must be free as a whole
        if Word(s.inuse, Field(lo)) != {} then Goto(s, t, Rolling(start, count, done, retries))
        else Goto(Take(s, t, lo, hi), t, Advanced(start, count, if hi >= start then hi - start else 0, retries))
      else
        Goto(s, t, AcrossSeen(start, count, done, retries, Word(s.inuse, Field(lo))))
    case AcrossSeen(start, count, done, retries, seen) =>
      var lo := start + done;
      var hi := PartEnd(lo, start + count);
      if !Zeros(seen, lo, hi) then Goto(s, t, Rolling(start, count, done, retries))
      else if Word(s.inuse, Field(lo)) != seen then
        Goto(s, t, AcrossSeen(start, count, done, retries, Word(s.inuse, Field(lo))))
      else Goto(Take(s, t, lo, hi), t, Advanced(start, count, if hi >= start then hi - start else 0, retries))
    case _ => s
  }

  ghost predicate CanRoll(s: State, t: Tid) {
    t in s.pcs && ((s.pcs[t].Rolling? && s.pcs[t].done > 0) || s.pcs[t].RollingSeen?)
  }

  /** The rollback: plain stores of zero to the intermediate fields, and a CAS on the first. */
  ghost function DoRoll(s: State, t: Tid): State
    requires CanRoll(s, t)
  {
    match s.pcs[t]
    case Rolling(start, count, done, retries) =>
      var f := Field(start + done - 1);
      if f > Field(start) then
        var lo := f * FIELD_BITS;
        Goto(s.(inuse := s.inuse - Word(s.inuse, f), who := Assign(s.who, lo, start + done, Nobody)), t,
             Rolling(start, count, if lo >= start then lo - start else 0, retries))
      else Goto(s, t, RollingSeen(start, count, done, retries, Word(s.inuse, f)))
    case RollingSeen(start, count, done, retries, seen) =>
      if Word(s.inuse, Field(start)) != seen then Goto(s, t, RollingSeen(start, count, done, retries, Word(s.inuse, Field(start))))
      else Goto(Drop(s, start, start + done), t, Rolling(start, count, 0, retries))
    case _ => s
  }

  /** All is given back: another attempt in the same field, or failure. */
  ghost predicate CanRetry(s: State, t: Tid, start: nat) {
    && t in s.pcs && s.pcs[t].Rolling? && s.pcs[t].done == 0 && s.pcs[t].retries <= 2
    && Field(start) == Field(s.pcs[t].start) && Crosses(s, start, s.pcs[t].count)
  }

  ghost predicate CanFail(s: State, t: Tid) {
    t in s.pcs && s.pcs[t].Rolling? && s.pcs[t].done == 0
  }

  // ---------------------------------------------------------------- allocating and freeing

  ghost predicate CanWalk(s: State, t: Tid) {
    t in s.pcs && (s.pcs[t].Clearing? || s.pcs[t].Marking? || s.pcs[t].FreePurging? || s.pcs[t].Unmarking? || s.pcs[t].Releasing?)
  }

  /** The steps over the fields of an allocation, one atomic operation each. */
  ghost function DoWalk(s: State, t: Tid): State
    requires CanWalk(s, t)
  {
    match s.pcs[t]
    case Clearing(start, count, pos) =>
      if pos < count then
        var hi := PartEnd(start + pos, start + count);
        Goto(s.(purge := Except(s.purge, start + pos, hi)), t, Clearing(start, count, if hi >= start then hi - start else 0))
      else
        var a := Allocation(start, count);
        Goto(s.(live := s.live + {a}, who := Assign(s.who, start, start + count, Client(a))), t, Idle)
    case Marking(start, count, pos) =>
      if pos < count then
        var hi := PartEnd(start + pos, start + count);
        Goto(s.(purge := s.purge + Run(start + pos, hi)), t, Marking(start, count, if hi >= start then hi - start else 0))
      else Goto(s, t, Releasing(start, count, 0))
    case FreePurging(start, count) => Goto(s, t, Unmarking(start, count, 0))
    case Unmarking(start, count, pos) =>
      if pos < count then
        var hi := PartEnd(start + pos, start + count);
        Goto(s.(purge := Except(s.purge, start + pos, hi)), t, Unmarking(start, count, if hi >= start then hi - start else 0))
      else Goto(s, t, Releasing(start, count, 0))
    case Releasing(start, count, pos) =>
      if pos < count then
        var hi := PartEnd(start + pos, start + count);
        Goto(Drop(s, start + pos, hi), t, Releasing(start, count, if hi >= start then hi - start else 0))
      else Goto(s, t, Idle)
    case _ => s
  }

  // ---------------------------------------------------------------- purging

  /** How many one bits of `mask` there are from `pos` on, up to `end`. */
  function Ones(mask: set<nat>, pos: nat, end: nat): (n: nat)
    ensures pos <= end ==> pos + n <= end
    ensures forall b :: pos <= b < pos + n ==> b in mask
    ensures pos + n < end ==> pos + n !in mask
    decreases end - pos
  {
    if pos < end && pos in mask then 1 + Ones(mask, pos + 1, end) else 0
  }

  ghost predicate CanPurge(s: State, t: Tid) {
    && t in s.pcs
    && (s.pcs[t].TryLoad? || s.pcs[t].TrySeen? || s.pcs[t].Owning? || s.pcs[t].Scanning? || s.pcs[t].Purging? || s.pcs[t].LettingGo?)
  }

  /** `mi_arena_try_purge` and `mi_arena_purge_range` */
  ghost function DoPurge(s: State, t: Tid): State
    requires CanPurge(s, t)
  {
    match s.pcs[t]
    case TryLoad(bit, len) => Goto(s, t, TrySeen(bit, len, Word(s.inuse, Field(bit))))
    case TrySeen(bit, len, seen) =>
      if !Zeros(seen, bit, bit + len) then Goto(s, t, if len > 1 then TryLoad(bit, len - 1) else Idle)
      else if Word(s.inuse, Field(bit)) != seen then Goto(s, t, TrySeen(bit, len, Word(s.inuse, Field(bit))))
      else Goto(Take(s, t, bit, bit + len), t, Owning(bit, len))
    case Owning(bit, len) => Goto(s, t, Scanning(bit, len, Word(s.purge, Field(bit)), bit))
    case Scanning(bit, len, mask, pos) =>
      if pos >= bit + len then Goto(s, t, LettingGo(bit, len))
      else
        var ones := Ones(mask, pos, bit + len);
        Goto(s, t, if ones > 0 then Purging(bit, len, mask, pos, ones) else Scanning(bit, len, mask, pos + 1))
    case Purging(bit, len, mask, pos, ones) =>
      Goto(s.(purge := Except(s.purge, pos, pos + ones)), t, Scanning(bit, len, mask, pos + ones + 1))
    case LettingGo(bit, len) => Goto(Drop(s, bit, bit + len), t, Idle)
    case _ => s
  }

  // ---------------------------------------------------------------- runs

  datatype Action =
    | Begins(t: Tid, a: Begin)
    | ClaimField(t: Tid, bit: nat, count: nat)
    | GiveUp(t: Tid)
    | Crossing(t: Tid)
    | Roll(t: Tid)
    | Retry(t: Tid, start: nat)
    | Fail(t: Tid)
    | Walk(t: Tid)
    | Purge(t: Tid)

  /** One step; an action that is not possible in `s` leaves `s` as it is. */
  ghost function Apply(s: State, a: Action): State {
    match a
    case Begins(t, b) => if CanBegin(s, t, b) then DoBegin(s, t, b) else s
    case ClaimField(t, bit, count) => if CanClaimField(s, t, bit, count) then DoClaimField(s, t, bit, count) else s
    case GiveUp(t) => if CanGiveUp(s, t) then Goto(s, t, Idle) else s
    case Crossing(t) => if CanAcross(s, t) then DoAcross(s, t) else s
    case Roll(t) => if CanRoll(s, t) then DoRoll(s, t) else s
    case Retry(t, start) =>
      if CanRetry(s, t, start) then Goto(s, t, Across(start, s.pcs[t].count, 0, s.pcs[t].retries + 1)) else s
    case Fail(t) => if CanFail(s, t) then Goto(s, t, Idle) else s
    case Walk(t) => if CanWalk(s, t) then DoWalk(s, t) else s
    case Purge(t) => if CanPurge(s, t) then DoPurge(s, t) else s
  }
}
