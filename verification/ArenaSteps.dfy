/**
 Every step of the arena protocol keeps its invariant.
 */
module ArenaSteps {
  import opened ArenaProtocol
  import opened ArenaInvariant

  // ---------------------------------------------------------------- kinds of steps

  /** A step that changes no bits. */
  lemma GotoKeeps(s: State, t: Tid, pc: Pc)
    requires Inv(s) && t in s.pcs && PcOk(s, pc) && Cleared(s, pc)
    requires forall b: nat {:trigger Holds(pc, b)} :: Holds(pc, b) <==> Holds(s.pcs[t], b)
    ensures Inv(Goto(s, t, pc))
  {
    var s' := Goto(s, t, pc);
    assert ThreadOk(s, t);
    assert forall b :: BitOk(s, b) ==> BitOk(s', b);
    assert ThreadBits(s', t);
    NearKeeps(s, s', t);
  }

  lemma TakeBits(s: State, t: Tid, lo: nat, hi: nat, pc: Pc)
    requires Bits(s) && t in s.pcs && lo <= hi <= Size(s) && Zeros(s.inuse, lo, hi)
    ensures var s' := Goto(Take(s, t, lo, hi), t, pc); Bits(s') && Near(s, s', t)
  {
    var s' := Goto(Take(s, t, lo, hi), t, pc);
    forall b: nat | b < Size(s) ensures BitOk(s', b) && (lo <= b < hi ==> s.who[b] == Nobody) {
      assert BitOk(s, b);
    }
  }

  /** Free bits become bits of the thread. */
  lemma TakeKeeps(s: State, t: Tid, lo: nat, hi: nat, pc: Pc)
    requires Inv(s) && t in s.pcs && lo <= hi <= Size(s) && Zeros(s.inuse, lo, hi)
    requires PcOk(s, pc) && (pc.Clearing? ==> pc.pos == 0)
    requires forall b: nat {:trigger Holds(pc, b)} :: Holds(pc, b) <==> Holds(s.pcs[t], b) || lo <= b < hi
    ensures Inv(Goto(Take(s, t, lo, hi), t, pc))
  {
    assert ThreadOk(s, t);
    TakeBits(s, t, lo, hi, pc);
    NearKeeps(s, Goto(Take(s, t, lo, hi), t, pc), t);
  }

  lemma DropBits(s: State, s': State, t: Tid, lo: nat, hi: nat)
    requires Bits(s) && ThreadBits(s, t) && t in s.pcs && lo <= hi <= Size(s)
    requires forall b {:trigger s.who[b]} :: lo <= b < hi ==> s.who[b] == Thread(t)
    requires t in s'.pcs && s' == Goto(Drop(s, lo, hi), t, s'.pcs[t])
    ensures Bits(s') && Near(s, s', t)
  {
    forall b: nat | b < Size(s) ensures BitOk(s', b) {
      assert BitOk(s, b);
    }
  }

  /** Bits of the thread become free. */
  lemma DropKeeps(s: State, t: Tid, lo: nat, hi: nat, pc: Pc)
    requires Inv(s) && t in s.pcs && lo <= hi <= Size(s) && PcOk(s, pc) && !pc.Clearing?
    requires forall b: nat {:trigger Holds(s.pcs[t], b)} :: lo <= b < hi ==> Holds(s.pcs[t], b)
    requires forall b: nat {:trigger Holds(pc, b)} :: Holds(pc, b) <==> Holds(s.pcs[t], b) && !(lo <= b < hi)
    ensures Inv(Goto(Drop(s, lo, hi), t, pc))
  {
    assert ThreadOk(s, t);
    assert forall b {:trigger s.who[b]} :: lo <= b < hi ==> Holds(s.pcs[t], b) && s.who[b] == Thread(t);
    DropBits(s, Goto(Drop(s, lo, hi), t, pc), t, lo, hi);
    NearKeeps(s, Goto(Drop(s, lo, hi), t, pc), t);
  }

  /** A step on the purge bitmap that clears bits, or marks bits of the thread itself. */
  lemma PurgeKeeps(s: State, t: Tid, purge: set<nat>, pc: Pc)
    requires Inv(s) && t in s.pcs && PcOk(s, pc) && Cleared(s.(purge := purge), pc)
    requires forall b: nat {:trigger Holds(pc, b)} :: Holds(pc, b) <==> Holds(s.pcs[t], b)
    requires forall b {:trigger b in purge} :: b in purge ==> b in s.purge || (b < Size(s) && Holds(pc, b))
    ensures Inv(Goto(s.(purge := purge), t, pc))
  {
    var s' := Goto(s.(purge := purge), t, pc);
    assert ThreadOk(s, t);
    forall b: nat | b < Size(s) ensures BitOk(s', b) { assert BitOk(s, b); }
    assert ThreadBits(s', t);
    NearKeeps(s, s', t);
  }

  // ---------------------------------------------------------------- handing over an allocation

  ghost predicate Handed(s: State, s': State, t: Tid, a: Allocation, from: Owner, to: Owner) {
    && t in s.pcs && t in s'.pcs && s'.fields == s.fields && s'.blocks == s.blocks && s'.inuse == s.inuse && s'.purge == s.purge
    && s'.who == Assign(s.who, a.start, a.start + a.count, to)
    && s'.pcs == s.pcs[t := s'.pcs[t]]
    && Fits(s, a.start, a.count)
    && (forall b {:trigger s.who[b]} :: a.start <= b < a.start + a.count ==> b < |s.who| && s.who[b] == from)
    && from != Nobody && to != Nobody && from != Reserved && to != Reserved
  }

  lemma HandedBits(s: State, s': State, t: Tid, a: Allocation, from: Owner, to: Owner)
    requires Bits(s) && Handed(s, s', t, a, from, to)
    requires to.Client? ==> Zeros(s.purge, a.start, a.start + a.count)
    ensures Bits(s')
  {
    forall b: nat | b < Size(s) ensures BitOk(s', b) { assert BitOk(s, b); }
  }

  lemma HandedOther(s: State, s': State, t: Tid, a: Allocation, from: Owner, to: Owner, u: Tid)
    requires |s.who| == Size(s) && Handed(s, s', t, a, from, to) && ThreadOk(s, u) && u != t && from != Thread(u) && to != Thread(u)
    ensures ThreadOk(s', u)
  {
    assert u in s.pcs <==> u in s'.pcs;
    assert u in s.pcs ==> s'.pcs[u] == s.pcs[u];
    forall b | 0 <= b < |s'.who| ensures s'.who[b] == Thread(u) <==> u in s'.pcs && Holds(s'.pcs[u], b) {
      assert s.who[b] == s.who[b];
    }
  }

  lemma HandedClient(s: State, s': State, t: Tid, a: Allocation, from: Owner, to: Owner, c: Allocation)
    requires Handed(s, s', t, a, from, to) && ClientBits(s, c)
    requires c in s'.live <==> (c in s.live && from != Client(c)) || to == Client(c)
    requires from == Client(c) || to == Client(c) ==> a == c
    ensures ClientBits(s', c)
  {
    forall b | 0 <= b < |s'.who| ensures s'.who[b] == Client(c) <==> c in s'.live && In(c, b) {
      assert s.who[b] == s.who[b];
    }
  }

  /** A free takes an allocation back from its client. */
  lemma FreeKeeps(s: State, t: Tid, a: Allocation, how: How)
    requires Inv(s) && CanBegin(s, t, Free(a, how))
    ensures Inv(DoBegin(s, t, Free(a, how)))
  {
    var s' := DoBegin(s, t, Free(a, how));
    assert ThreadOk(s, t) && ClientBits(s, a);
    assert Handed(s, s', t, a, Client(a), Thread(t));
    HandedBits(s, s', t, a, Client(a), Thread(t));
    forall u ensures ThreadOk(s', u) {
      assert ThreadOk(s, u);
      if u == t { assert ThreadBits(s', t); } else { HandedOther(s, s', t, a, Client(a), Thread(t), u); }
    }
    forall c ensures ClientBits(s', c) {
      assert ClientBits(s, c);
      HandedClient(s, s', t, a, Client(a), Thread(t), c);
    }
  }

  /** A claimed range whose purge bits are cleared becomes an allocation. */
  lemma HandOutKeeps(s: State, t: Tid)
    requires Inv(s) && CanWalk(s, t) && s.pcs[t].Clearing? && s.pcs[t].pos >= s.pcs[t].count
    ensures Inv(DoWalk(s, t))
  {
    var s' := DoWalk(s, t);
    var Clearing(start, count, pos) := s.pcs[t];
    var a := Allocation(start, count);
    assert ThreadOk(s, t);
    forall b: nat | start <= b < start + count ensures b < |s.who| && s.who[b] == Thread(t) { assert Holds(s.pcs[t], b); }
    assert Handed(s, s', t, a, Thread(t), Client(a));
    HandedBits(s, s', t, a, Thread(t), Client(a));
    forall u ensures ThreadOk(s', u) {
      assert ThreadOk(s, u);
      if u == t { assert ThreadBits(s', t); } else { HandedOther(s, s', t, a, Thread(t), Client(a), u); }
    }
    forall c ensures ClientBits(s', c) {
      assert ClientBits(s, c);
      if a in s.live { assert s.who[start] == Thread(t); }
      HandedClient(s, s', t, a, Thread(t), Client(a), c);
    }
  }

  // ---------------------------------------------------------------- claims

  /** What a compare-and-swap on an unchanged word tells of the bits themselves. */
  lemma SeenZeros(bits: set<nat>, f: nat, lo: nat, hi: nat)
    requires Zeros(Word(bits, f), lo, hi) && Field(lo) == f && hi <= (f + 1) * FIELD_BITS
    ensures Zeros(bits, lo, hi)
  {
    forall b: nat | lo <= b < hi ensures b !in bits {
      assert Field(b) == f;
      assert b in Word(bits, f) <==> b in bits;
    }
  }

  lemma PartOfField(s: State, lo: nat, end: nat)
    requires lo < end <= Size(s)
    ensures lo < PartEnd(lo, end) <= end && PartEnd(lo, end) <= (Field(lo) + 1) * FIELD_BITS
    ensures PartEnd(lo, end) < end ==> PartEnd(lo, end) % FIELD_BITS == 0
  {
  }

  lemma BeginKeeps(s: State, t: Tid, a: Begin)
    requires Inv(s) && CanBegin(s, t, a)
    ensures Inv(DoBegin(s, t, a))
  {
    match a
    case LoadField(idx) => GotoKeeps(s, t, InField(idx, Word(s.inuse, idx)));
    case StartAcross(start, count) => GotoKeeps(s, t, Across(start, count, 0, 0));
    case Free(b, how) => FreeKeeps(s, t, b, how);
    case TryPurge(bit, len) => GotoKeeps(s, t, TryLoad(bit, len));
  }

  lemma ClaimFieldKeeps(s: State, t: Tid, bit: nat, count: nat)
    requires Inv(s) && CanClaimField(s, t, bit, count)
    ensures Inv(DoClaimField(s, t, bit, count))
  {
    assert ThreadOk(s, t);
    var InField(idx, seen) := s.pcs[t];
    if Word(s.inuse, idx) != seen {
      GotoKeeps(s, t, InField(idx, Word(s.inuse, idx)));
    } else {
      SeenZeros(s.inuse, idx, bit, bit + count);
      TakeKeeps(s, t, bit, bit + count, Clearing(bit, count, 0));
    }
  }

  /** The next part of a range is claimed. */
  lemma AdvanceKeeps(s: State, t: Tid, start: nat, count: nat, done: nat, retries: nat)
    requires Inv(s) && t in s.pcs && Claiming(s, start, count, done, retries)
    requires Lo(s.pcs[t]) == start && Hi(s.pcs[t]) == start + done
    requires Zeros(s.inuse, start + done, PartEnd(start + done, start + count))
    ensures Inv(TakenPart(s, t, start, count, done, retries))
  {
    var hi := PartEnd(start + done, start + count);
    PartOfField(s, start + done, start + count);
    TakeKeeps(s, t, start + done, hi, Advanced(start, count, hi - start, retries));
  }

  /** The state in which the part from `start + done` on is claimed. */
  ghost function TakenPart(s: State, t: Tid, start: nat, count: nat, done: nat, retries: nat): State
    requires start + done < start + count <= Size(s)
  {
    var hi := PartEnd(start + done, start + count);
    PartOfField(s, start + done, start + count);
    Goto(Take(s, t, start + done, hi), t, Advanced(start, count, hi - start, retries))
  }

  lemma NextFieldTakes(s: State, t: Tid, start: nat, count: nat, done: nat, retries: nat)
    requires t in s.pcs && s.pcs[t] == Across(start, count, done, retries) && Claiming(s, start, count, done, retries)
    requires done > 0 && Field(start + done) < Field(start + count - 1) && Word(s.inuse, Field(start + done)) == {}
    ensures DoAcross(s, t) == TakenPart(s, t, start, count, done, retries)
    ensures Zeros(s.inuse, start + done, PartEnd(start + done, start + count))
  {
    PartOfField(s, start + done, start + count);
    SeenZeros(s.inuse, Field(start + done), start + done, PartEnd(start + done, start + count));
  }

  lemma NextFieldKeeps(s: State, t: Tid)
    requires Inv(s) && CanAcross(s, t) && s.pcs[t].Across?
    ensures Inv(DoAcross(s, t))
  {
    assert ThreadOk(s, t);
    var Across(start, count, done, retries) := s.pcs[t];
    if done > 0 && Field(start + done) < Field(start + count - 1) {
      if Word(s.inuse, Field(start + done)) != {} {
        GotoKeeps(s, t, Rolling(start, count, done, retries));
      } else {
        NextFieldTakes(s, t, start, count, done, retries);
        AdvanceKeeps(s, t, start, count, done, retries);
      }
    } else {
      GotoKeeps(s, t, AcrossSeen(start, count, done, retries, Word(s.inuse, Field(start + done))));
    }
  }

  lemma AcrossKeeps(s: State, t: Tid)
    requires Inv(s) && CanAcross(s, t)
    ensures Inv(DoAcross(s, t))
  {
    if s.pcs[t].Across? { NextFieldKeeps(s, t); } else { AcrossSeenKeeps(s, t); }
  }

  lemma SeenTakes(s: State, t: Tid, start: nat, count: nat, done: nat, retries: nat, seen: set<nat>)
    requires t in s.pcs && s.pcs[t] == AcrossSeen(start, count, done, retries, seen) && Claiming(s, start, count, done, retries)
    requires Word(s.inuse, Field(start + done)) == seen && Zeros(seen, start + done, PartEnd(start + done, start + count))
    ensures DoAcross(s, t) == TakenPart(s, t, start, count, done, retries)
    ensures Zeros(s.inuse, start + done, PartEnd(start + done, start + count))
  {
    PartOfField(s, start + done, start + count);
    SeenZeros(s.inuse, Field(start + done), start + done, PartEnd(start + done, start + count));
  }

  lemma AcrossSeenKeeps(s: State, t: Tid)
    requires Inv(s) && CanAcross(s, t) && s.pcs[t].AcrossSeen?
    ensures Inv(DoAcross(s, t))
  {
    assert ThreadOk(s, t);
    var AcrossSeen(start, count, done, retries, seen) := s.pcs[t];
    var lo := start + done;
    if !Zeros(seen, lo, PartEnd(lo, start + count)) || Word(s.inuse, Field(lo)) != seen {
      var pc := if !Zeros(seen, lo, PartEnd(lo, start + count)) then Rolling(start, count, done, retries)
                else AcrossSeen(start, count, done, retries, Word(s.inuse, Field(lo)));
      GotoKeeps(s, t, pc);
      assert DoAcross(s, t) == Goto(s, t, pc);
    } else {
      SeenTakes(s, t, start, count, done, retries, seen);
      AdvanceKeeps(s, t, start, count, done, retries);
    }
  }

  // ---------------------------------------------------------------- rollback

  /** An intermediate field that is rolled back belongs to the thread as a whole: the plain store of
      zero clears its bits and no others. */
  lemma WholeField(s: State, t: Tid)
    requires Inv(s) && CanRoll(s, t) && s.pcs[t].Rolling? && Field(s.pcs[t].start + s.pcs[t].done - 1) > Field(s.pcs[t].start)
    ensures var Rolling(start, _, done, _) := s.pcs[t]; var f := Field(start + done - 1);
            && f * FIELD_BITS > start && start + done == (f + 1) * FIELD_BITS
            && Word(s.inuse, f) == Run(f * FIELD_BITS, start + done)
            && s.inuse - Word(s.inuse, f) == Except(s.inuse, f * FIELD_BITS, start + done)
  {
    assert ThreadOk(s, t);
    var Rolling(start, count, done, _) := s.pcs[t];
    var f := Field(start + done - 1);
    forall b: nat | f * FIELD_BITS <= b < start + done ensures b in s.inuse {
      assert BitOk(s, b) && Holds(s.pcs[t], b);
    }
  }

  lemma StoreKeeps(s: State, t: Tid)
    requires Inv(s) && CanRoll(s, t) && s.pcs[t].Rolling?
    ensures Inv(DoRoll(s, t))
  {
    assert ThreadOk(s, t);
    var Rolling(start, count, done, retries) := s.pcs[t];
    var f := Field(start + done - 1);
    if f > Field(start) {
      WholeField(s, t);
      DropKeeps(s, t, f * FIELD_BITS, start + done, Rolling(start, count, f * FIELD_BITS - start, retries));
    } else {
      GotoKeeps(s, t, RollingSeen(start, count, done, retries, Word(s.inuse, f)));
    }
  }

  lemma RollKeeps(s: State, t: Tid)
    requires Inv(s) && CanRoll(s, t)
    ensures Inv(DoRoll(s, t))
  {
    assert ThreadOk(s, t);
    match s.pcs[t]
    case Rolling(_, _, _, _) => StoreKeeps(s, t);
    case RollingSeen(start, count, done, retries, seen) =>
      if Word(s.inuse, Field(start)) != seen {
        GotoKeeps(s, t, RollingSeen(start, count, done, retries, Word(s.inuse, Field(start))));
      } else {
        DropKeeps(s, t, start, start + done, Rolling(start, count, 0, retries));
      }
  }

  lemma RetryKeeps(s: State, t: Tid, start: nat)
    requires Inv(s) && CanRetry(s, t, start)
    ensures Inv(Goto(s, t, Across(start, s.pcs[t].count, 0, s.pcs[t].retries + 1)))
  {
    assert ThreadOk(s, t);
    GotoKeeps(s, t, Across(start, s.pcs[t].count, 0, s.pcs[t].retries + 1));
  }

  // ---------------------------------------------------------------- walks and purges

  lemma ReleasingKeeps(s: State, t: Tid)
    requires Inv(s) && CanWalk(s, t) && s.pcs[t].Releasing?
    ensures Inv(DoWalk(s, t))
  {
    assert ThreadOk(s, t);
    var Releasing(start, count, pos) := s.pcs[t];
    if pos < count {
      var hi := PartEnd(start + pos, start + count);
      PartOfField(s, start + pos, start + count);
      DropKeeps(s, t, start + pos, hi, Releasing(start, count, hi - start));
      assert DoWalk(s, t) == Goto(Drop(s, start + pos, hi), t, Releasing(start, count, hi - start));
    } else {
      GotoKeeps(s, t, Idle);
    }
  }

  lemma ClearingKeeps(s: State, t: Tid)
    requires Inv(s) && CanWalk(s, t) && s.pcs[t].Clearing?
    ensures Inv(DoWalk(s, t))
  {
    assert ThreadOk(s, t);
    var Clearing(start, count, pos) := s.pcs[t];
    if pos < count {
      var hi := PartEnd(start + pos, start + count);
      PartOfField(s, start + pos, start + count);
      PurgeKeeps(s, t, Except(s.purge, start + pos, hi), Clearing(start, count, hi - start));
    } else {
      HandOutKeeps(s, t);
    }
  }

  lemma MarkingKeeps(s: State, t: Tid)
    requires Inv(s) && CanWalk(s, t) && s.pcs[t].Marking?
    ensures Inv(DoWalk(s, t))
  {
    assert ThreadOk(s, t);
    var Marking(start, count, pos) := s.pcs[t];
    if pos < count {
      var hi := PartEnd(start + pos, start + count);
      PartOfField(s, start + pos, start + count);
      PurgeKeeps(s, t, s.purge + Run(start + pos, hi), Marking(start, count, hi - start));
    } else {
      GotoKeeps(s, t, Releasing(start, count, 0));
    }
  }

  lemma UnmarkingKeeps(s: State, t: Tid)
    requires Inv(s) && CanWalk(s, t) && s.pcs[t].Unmarking?
    ensures Inv(DoWalk(s, t))
  {
    assert ThreadOk(s, t);
    var Unmarking(start, count, pos) := s.pcs[t];
    if pos < count {
      var hi := PartEnd(start + pos, start + count);
      PartOfField(s, start + pos, start + count);
      PurgeKeeps(s, t, Except(s.purge, start + pos, hi), Unmarking(start, count, hi - start));
    } else {
      GotoKeeps(s, t, Releasing(start, count, 0));
    }
  }

  lemma WalkKeeps(s: State, t: Tid)
    requires Inv(s) && CanWalk(s, t)
    ensures Inv(DoWalk(s, t))
  {
    assert ThreadOk(s, t);
    match s.pcs[t]
    case Clearing(_, _, _) => ClearingKeeps(s, t);
    case Marking(_, _, _) => MarkingKeeps(s, t);
    case FreePurging(start, count) => GotoKeeps(s, t, Unmarking(start, count, 0));
    case Unmarking(_, _, _) => UnmarkingKeeps(s, t);
    case Releasing(_, _, _) => ReleasingKeeps(s, t);
  }

  lemma TrySeenKeeps(s: State, t: Tid)
    requires Inv(s) && CanPurge(s, t) && s.pcs[t].TrySeen?
    ensures Inv(DoPurge(s, t))
  {
    assert ThreadOk(s, t);
    var TrySeen(bit, len, seen) := s.pcs[t];
    if !Zeros(seen, bit, bit + len) {
      GotoKeeps(s, t, if len > 1 then TryLoad(bit, len - 1) else Idle);
    } else if Word(s.inuse, Field(bit)) != seen {
      GotoKeeps(s, t, TrySeen(bit, len, Word(s.inuse, Field(bit))));
    } else {
      SeenZeros(s.inuse, Field(bit), bit, bit + len);
      TakeKeeps(s, t, bit, bit + len, Owning(bit, len));
    }
  }

  lemma ScanningKeeps(s: State, t: Tid)
    requires Inv(s) && CanPurge(s, t) && s.pcs[t].Scanning?
    ensures Inv(DoPurge(s, t))
  {
    assert ThreadOk(s, t);
    var Scanning(bit, len, mask, pos) := s.pcs[t];
    if pos >= bit + len {
      GotoKeeps(s, t, LettingGo(bit, len));
    } else {
      var ones := Ones(mask, pos, bit + len);
      GotoKeeps(s, t, if ones > 0 then Purging(bit, len, mask, pos, ones) else Scanning(bit, len, mask, pos + 1));
    }
  }

  lemma PurgeStepKeeps(s: State, t: Tid)
    requires Inv(s) && CanPurge(s, t)
    ensures Inv(DoPurge(s, t))
  {
    assert ThreadOk(s, t);
    match s.pcs[t]
    case TryLoad(bit, len) => GotoKeeps(s, t, TrySeen(bit, len, Word(s.inuse, Field(bit))));
    case TrySeen(_, _, _) => TrySeenKeeps(s, t);
    case Owning(bit, len) => GotoKeeps(s, t, Scanning(bit, len, Word(s.purge, Field(bit)), bit));
    case Scanning(_, _, _, _) => ScanningKeeps(s, t);
    case Purging(bit, len, mask, pos, ones) =>
      PurgeKeeps(s, t, Except(s.purge, pos, pos + ones), Scanning(bit, len, mask, pos + ones + 1));
    case LettingGo(bit, len) => DropKeeps(s, t, bit, bit + len, Idle);
  }

  lemma StepKeeps(s: State, a: Action)
    requires Inv(s)
    ensures Inv(Apply(s, a))
  {
    match a
    case Begins(t, b) => if CanBegin(s, t, b) { BeginKeeps(s, t, b); }
    case ClaimField(t, bit, count) => if CanClaimField(s, t, bit, count) { ClaimFieldKeeps(s, t, bit, count); }
    case GiveUp(t) => if CanGiveUp(s, t) { GotoKeeps(s, t, Idle); }
    case Crossing(t) => if CanAcross(s, t) { AcrossKeeps(s, t); }
    case Roll(t) => if CanRoll(s, t) { RollKeeps(s, t); }
    case Retry(t, start) => if CanRetry(s, t, start) { RetryKeeps(s, t, start); }
    case Fail(t) => if CanFail(s, t) { GotoKeeps(s, t, Idle); }
    case Walk(t) => if CanWalk(s, t) { WalkKeeps(s, t); }
    case Purge(t) => if CanPurge(s, t) { PurgeStepKeeps(s, t); }
  }
}
