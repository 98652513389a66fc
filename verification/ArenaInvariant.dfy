/**
 The invariant of the arena protocol: who holds which bit. Every thread holds an interval that its
 program point determines, so holdings of different threads, and live allocations, are disjoint.
 */
module ArenaInvariant {
  import opened ArenaProtocol

  // ---------------------------------------------------------------- what a thread holds

  /** The interval of bits that a thread holds, half open. */
  function Lo(pc: Pc): nat {
    match pc
    case Across(start, _, _, _) => start
    case AcrossSeen(start, _, _, _, _) => start
    case Rolling(start, _, _, _) => start
    case RollingSeen(start, _, _, _, _) => start
    case Clearing(start, _, _) => start
    case Marking(start, _, _) => start
    case FreePurging(start, _) => start
    case Unmarking(start, _, _) => start
    case Releasing(start, _, pos) => start + pos
    case Owning(bit, _) => bit
    case Scanning(bit, _, _, _) => bit
    case Purging(bit, _, _, _, _) => bit
    case LettingGo(bit, _) => bit
    case _ => 0
  }

  function Hi(pc: Pc): nat {
    match pc
    case Across(start, _, done, _) => start + done
    case AcrossSeen(start, _, done, _, _) => start + done
    case Rolling(start, _, done, _) => start + done
    case RollingSeen(start, _, done, _, _) => start + done
    case Clearing(start, count, _) => start + count
    case Marking(start, count, _) => start + count
    case FreePurging(start, count) => start + count
    case Unmarking(start, count, _) => start + count
    case Releasing(start, count, _) => start + count
    case Owning(bit, len) => bit + len
    case Scanning(bit, len, _, _) => bit + len
    case Purging(bit, len, _, _, _) => bit + len
    case LettingGo(bit, len) => bit + len
    case _ => 0
  }

  predicate Holds(pc: Pc, b: nat) {
    Lo(pc) <= b < Hi(pc)
  }

  predicate In(a: Allocation, b: nat) {
    a.start <= b < a.start + a.count
  }

  // ---------------------------------------------------------------- invariant

  function Size(s: State): nat {
    s.fields * FIELD_BITS
  }

  /** A set bit has an owner, a clear bit has none. */
  ghost predicate BitOk(s: State, b: nat) {
    && b < |s.who|
    && (b in s.inuse <==> s.who[b] != Nobody)
    && (s.who[b] == Reserved <==> b >= s.blocks)
    && (b in s.purge ==> !s.who[b].Client?)
  }

  ghost predicate Bits(s: State) {
    && |s.who| == Size(s)
    && (forall b {:trigger BitOk(s, b)} :: 0 <= b < Size(s) ==> BitOk(s, b))
    && (forall b :: b in s.inuse ==> b < Size(s))
  }

  /** The bits of a thread are those that its program point says, no more and no fewer. */
  ghost predicate ThreadBits(s: State, t: Tid) {
    forall b {:trigger s.who[b]} :: 0 <= b < |s.who| ==> (s.who[b] == Thread(t) <==> t in s.pcs && Holds(s.pcs[t], b))
  }

  ghost predicate ClientBits(s: State, a: Allocation) {
    forall b {:trigger s.who[b]} :: 0 <= b < |s.who| ==> (s.who[b] == Client(a) <==> a in s.live && In(a, b))
  }

  /** A claim in progress has whole parts: up to the end of a field. */
  predicate Claiming(s: State, start: nat, count: nat, done: nat, retries: nat) {
    && Crosses(s, start, count) && retries <= 3
    && done < count && (done == 0 || (start + done) % FIELD_BITS == 0)
  }

  /** A range within one field. */
  predicate Within(s: State, bit: nat, len: nat) {
    len > 0 && Field(bit) < s.fields && bit + len <= (Field(bit) + 1) * FIELD_BITS
  }

  predicate Fits(s: State, start: nat, count: nat) {
    count > 0 && start + count <= Size(s)
  }

  predicate PcOk(s: State, pc: Pc) {
    match pc
    case Idle => true
    case InField(idx, seen) => idx < s.fields && (forall b :: b in seen ==> Field(b) == idx)
    case Across(start, count, done, retries) => Claiming(s, start, count, done, retries)
    case AcrossSeen(start, count, done, retries, seen) => Claiming(s, start, count, done, retries)
    case Rolling(start, count, done, retries) => Claiming(s, start, count, done, retries)
    case RollingSeen(start, count, done, retries, seen) =>
      Claiming(s, start, count, done, retries) && done > 0 && Field(start + done - 1) == Field(start)
    case Clearing(start, count, pos) => Fits(s, start, count) && pos <= count
    case Marking(start, count, pos) => Fits(s, start, count) && pos <= count
    case FreePurging(start, count) => Fits(s, start, count)
    case Unmarking(start, count, pos) => Fits(s, start, count) && pos <= count
    case Releasing(start, count, pos) => Fits(s, start, count) && pos <= count
    case TryLoad(bit, len) => Within(s, bit, len)
    case TrySeen(bit, len, _) => Within(s, bit, len)
    case Owning(bit, len) => Within(s, bit, len)
    case Scanning(bit, len, _, pos) => Within(s, bit, len) && bit <= pos
    case Purging(bit, len, _, pos, ones) => Within(s, bit, len) && bit <= pos && pos + ones <= bit + len && ones > 0
    case LettingGo(bit, len) => Within(s, bit, len)
  }

  /** Purge bits that are already cleared stay so: only the holder of a bit marks it. */
  ghost predicate Cleared(s: State, pc: Pc) {
    pc.Clearing? ==> Zeros(s.purge, pc.start, pc.start + pc.pos)
  }

  ghost predicate ThreadOk(s: State, t: Tid) {
    ThreadBits(s, t) && (t in s.pcs ==> PcOk(s, s.pcs[t]) && Cleared(s, s.pcs[t]))
  }

  ghost predicate Inv(s: State) {
    && Bits(s)
    && (forall t {:trigger ThreadOk(s, t)} :: ThreadOk(s, t))
    && (forall a {:trigger ClientBits(s, a)} :: ClientBits(s, a))
    && (forall a :: a in s.live ==> Fits(s, a.start, a.count))
  }

  // ---------------------------------------------------------------- one thread moves

  /** What a step of `t` leaves alone: bits that belong to others, and their purge bits. */
  ghost predicate Near(s: State, s': State, t: Tid) {
    && t in s.pcs && s'.fields == s.fields && s'.blocks == s.blocks && |s'.who| == |s.who|
    && (forall u {:trigger s'.pcs[u]} {:trigger u in s'.pcs} :: u != t ==> (u in s'.pcs <==> u in s.pcs) && (u in s.pcs ==> s'.pcs[u] == s.pcs[u]))
    && (forall b {:trigger s'.who[b]} :: 0 <= b < |s.who| && s'.who[b] != s.who[b] ==>
          s.who[b] in {Nobody, Thread(t)} && s'.who[b] in {Nobody, Thread(t)})
    && (forall b {:trigger b in s'.purge} :: b in s'.purge && b !in s.purge ==> b < |s.who| && s.who[b] == Thread(t))
  }

  lemma OtherThread(s: State, s': State, t: Tid, u: Tid)
    requires Near(s, s', t) && u != t && ThreadOk(s, u) && |s.who| == Size(s)
    ensures ThreadOk(s', u)
  {
    if u in s.pcs {
      assert u in s'.pcs && s'.pcs[u] == s.pcs[u];
      var pc := s.pcs[u];
      if pc.Clearing? {
        forall b | pc.start <= b < pc.start + pc.pos ensures b !in s'.purge {
          assert s.who[b] == Thread(u);
        }
      }
    }
  }

  /** A step that neither hands out nor takes back an allocation. */
  lemma NearKeeps(s: State, s': State, t: Tid)
    requires Inv(s) && Near(s, s', t) && s'.live == s.live && Bits(s') && ThreadOk(s', t)
    ensures Inv(s')
  {
    forall u ensures ThreadOk(s', u) {
      assert ThreadOk(s, u);
      if u != t { OtherThread(s, s', t, u); }
    }
    forall a ensures ClientBits(s', a) {
      assert ClientBits(s, a);
    }
  }
}
