/**
 Commit masks (segment.cpp:28-181): one bit for each slice of a segment, kept in machine words.
 Each loop over the words is proved to compute the set operation it stands for; the run
 iteration visits every bit exactly once.
 */
module CommitMasks {
  import opened Words

  const WORDS: nat := 8
  const MASK_BITS: nat := 512

  type Mask = m: seq<Word> | |m| == 8 witness seq(8, _ => seq(64, _ => false))

  predicate HasBit(m: Mask, b: nat) {
    b < MASK_BITS && m[b / WORD_BITS][b % WORD_BITS]
  }

  ghost function Bits(m: Mask): set<nat> {
    set b: nat | b < MASK_BITS && HasBit(m, b)
  }

  function Range(start: nat, count: nat): (r: set<nat>)
    ensures forall b :: b in r <==> start <= b < start + count
  {
    if count == 0 then {} else Range(start, count - 1) + {start + count - 1}
  }

  // ---------------------------------------------------------------- word operations

  function And(a: Word, b: Word): Word {
    seq(64, k requires 0 <= k < 64 => a[k] && b[k])
  }

  function Or(a: Word, b: Word): Word {
    seq(64, k requires 0 <= k < 64 => a[k] || b[k])
  }

  function AndNot(a: Word, b: Word): Word {
    seq(64, k requires 0 <= k < 64 => a[k] && !b[k])
  }

  function Zero(): Word {
    seq(64, _ => false)
  }

  /** `((1 << count) - 1) << ofs`, or all ones. */
  function Ones(ofs: nat, count: nat): Word {
    seq(64, k => ofs <= k < ofs + count)
  }

  lemma BitAt(m: Mask, i: nat, k: nat)
    requires i < 8 && k < 64
    ensures HasBit(m, i * 64 + k) == m[i][k]
  {
  }

  /** The bits of a mask built word by word. */
  lemma BitsOf(m: Mask, bits: set<nat>)
    requires forall b :: b in bits ==> b < MASK_BITS
    requires forall i, k :: 0 <= i < 8 && 0 <= k < 64 ==> (m[i][k] <==> i * 64 + k in bits)
    ensures Bits(m) == bits
  {
    forall b: nat | b < MASK_BITS ensures HasBit(m, b) <==> b in bits {
      assert b == (b / 64) * 64 + b % 64;
      assert m[b / 64][b % 64] <==> (b / 64) * 64 + b % 64 in bits;
    }
  }

  // ---------------------------------------------------------------- mask operations

  method AllSet(commit: Mask, cm: Mask) returns (r: bool)
    ensures r <==> Bits(cm) <= Bits(commit)
  {
    for i := 0 to WORDS
      invariant forall b: nat :: b < i * 64 && HasBit(cm, b) ==> HasBit(commit, b)
    {
      if And(commit[i], cm[i]) != cm[i] {
        var k :| 0 <= k < 64 && And(commit[i], cm[i])[k] != cm[i][k];
        BitAt(cm, i, k);
        BitAt(commit, i, k);
        assert i * 64 + k in Bits(cm) && i * 64 + k !in Bits(commit);
        return false;
      }
      forall b: nat | i * 64 <= b < i * 64 + 64 && HasBit(cm, b) ensures HasBit(commit, b) {
        assert And(commit[i], cm[i])[b % 64] == cm[i][b % 64];
      }
    }
    return true;
  }

  method AnySet(commit: Mask, cm: Mask) returns (r: bool)
    ensures r <==> Bits(commit) * Bits(cm) != {}
  {
    for i := 0 to WORDS
      invariant forall b: nat :: b < i * 64 ==> !(HasBit(commit, b) && HasBit(cm, b))
    {
      if And(commit[i], cm[i]) != Zero() {
        var k :| 0 <= k < 64 && And(commit[i], cm[i])[k] != Zero()[k];
        BitAt(cm, i, k);
        BitAt(commit, i, k);
        assert i * 64 + k in Bits(commit) * Bits(cm);
        return true;
      }
      forall b: nat | i * 64 <= b < i * 64 + 64 ensures !(HasBit(commit, b) && HasBit(cm, b)) {
        assert And(commit[i], cm[i])[b % 64] == Zero()[b % 64];
      }
    }
    assert Bits(commit) * Bits(cm) == {};
    return false;
  }

  method Intersect(commit: Mask, cm: Mask) returns (res: Mask)
    ensures Bits(res) == Bits(commit) * Bits(cm)
  {
    res := commit;
    for i := 0 to WORDS
      invariant forall j :: 0 <= j < i ==> res[j] == And(commit[j], cm[j])
      invariant forall j :: i <= j < 8 ==> res[j] == commit[j]
    {
      res := res[i := And(commit[i], cm[i])];
    }
  }

  method Clear(res0: Mask, cm: Mask) returns (res: Mask)
    ensures Bits(res) == Bits(res0) - Bits(cm)
  {
    res := res0;
    for i := 0 to WORDS
      invariant forall j :: 0 <= j < i ==> res[j] == AndNot(res0[j], cm[j])
      invariant forall j :: i <= j < 8 ==> res[j] == res0[j]
    {
      res := res[i := AndNot(res[i], cm[i])];
    }
  }

  method Set(res0: Mask, cm: Mask) returns (res: Mask)
    ensures Bits(res) == Bits(res0) + Bits(cm)
  {
    res := res0;
    for i := 0 to WORDS
      invariant forall j :: 0 <= j < i ==> res[j] == Or(res0[j], cm[j])
      invariant forall j :: i <= j < 8 ==> res[j] == res0[j]
    {
      res := res[i := Or(res[i], cm[i])];
    }
  }

  method IsEmpty(commit: Mask) returns (r: bool)
    ensures r <==> Bits(commit) == {}
  {
    for i := 0 to WORDS
      invariant forall b: nat :: b < i * 64 ==> !HasBit(commit, b)
    {
      if commit[i] != Zero() {
        var k :| 0 <= k < 64 && commit[i][k] != Zero()[k];
        BitAt(commit, i, k);
        assert i * 64 + k in Bits(commit);
        return false;
      }
      forall b: nat | i * 64 <= b < i * 64 + 64 ensures !HasBit(commit, b) {
        assert commit[i][b % 64] == Zero()[b % 64];
      }
    }
    return true;
  }

  method IsFull(commit: Mask) returns (r: bool)
    ensures r <==> Bits(commit) == Range(0, MASK_BITS)
  {
    for i := 0 to WORDS
      invariant forall b: nat :: b < i * 64 ==> HasBit(commit, b)
    {
      if commit[i] != Ones(0, 64) {
        var k :| 0 <= k < 64 && commit[i][k] != Ones(0, 64)[k];
        BitAt(commit, i, k);
        assert i * 64 + k in Range(0, MASK_BITS) && i * 64 + k !in Bits(commit);
        return false;
      }
      forall b: nat | i * 64 <= b < i * 64 + 64 ensures HasBit(commit, b) {
        assert commit[i][b % 64] == Ones(0, 64)[b % 64];
      }
    }
    return true;
  }

  method CreateEmpty() returns (cm: Mask)
    ensures Bits(cm) == {}
  {
    cm := seq(8, _ => Zero());
    BitsOf(cm, {});
  }

  method CreateFull() returns (cm: Mask)
    ensures Bits(cm) == Range(0, MASK_BITS)
  {
    cm := seq(8, _ => Ones(0, 64));
    BitsOf(cm, Range(0, MASK_BITS));
  }

  /** segment.cpp:72-102: the bits `[bitidx, bitidx + bitcount)`, filled word by word. */
  method Create(bitidx: nat, bitcount: nat) returns (cm: Mask)
    requires bitidx < MASK_BITS && bitidx + bitcount <= MASK_BITS
    ensures Bits(cm) == Range(bitidx, bitcount)
  {
    if bitcount == MASK_BITS {
      cm := CreateFull();
    } else if bitcount == 0 {
      cm := CreateEmpty();
    } else {
      cm := CreateEmpty();
      var i: nat := bitidx / WORD_BITS;
      var ofs: nat := bitidx % WORD_BITS;
      var left: nat := bitcount;
      while left > 0
        invariant left <= bitcount && ofs < 64
        invariant left > 0 ==> i * 64 + ofs + left == bitidx + bitcount && i < 8 && (left < bitcount ==> ofs == 0)
        invariant Bits(cm) == Range(bitidx, bitcount - left)
        decreases left
      {
        var avail := WORD_BITS - ofs;
        var count := if left > avail then avail else left;
        ghost var before := cm;
        cm := cm[i := Ones(ofs, count)];
        CreateStep(before, cm, bitidx, bitcount - left, i, ofs, count);
        left := left - count;
        i := i + 1;
        ofs := 0;
      }
    }
  }

  lemma CreateStep(before: Mask, after: Mask, bitidx: nat, done: nat, i: nat, ofs: nat, count: nat)
    requires i < 8 && ofs + count <= 64 && i * 64 + ofs == bitidx + done && (done == 0 || ofs == 0)
    requires Bits(before) == Range(bitidx, done) && after == before[i := Ones(ofs, count)]
    ensures Bits(after) == Range(bitidx, done + count)
  {
    forall b: nat | b < MASK_BITS ensures HasBit(after, b) <==> bitidx <= b < bitidx + done + count {
      assert HasBit(before, b) <==> b in Range(bitidx, done);
    }
  }

  // ---------------------------------------------------------------- runs

  /** The first maximal run of bits at or after `idx`; `count == 0` and the end if there is none. */
  ghost predicate IsNextRun(bits: set<nat>, idx: nat, start: nat, count: nat) {
    && idx <= start
    && (forall b :: idx <= b < start ==> b !in bits)
    && (forall b :: start <= b < start + count ==> b in bits)
    && start + count !in bits
    && (count == 0 ==> start == MASK_BITS)
    && start + count <= MASK_BITS
  }

  /** segment.cpp:134-149: the first one-bit at or after `i * 64 + ofs`; a right shift drops low bits. */
  method FirstOne(cm: Mask, idx: nat) returns (i: nat, ofs: nat)
    requires idx <= MASK_BITS
    ensures i <= 8 && ofs < 64 && (i == 8 ==> ofs == 0) && idx <= i * 64 + ofs
    ensures i < 8 ==> cm[i][ofs]
    ensures forall b :: idx <= b < i * 64 + ofs ==> !HasBit(cm, b)
  {
    i := idx / WORD_BITS;
    ofs := idx % WORD_BITS;
    while i < WORDS
      invariant i <= 8 && ofs < 64 && idx <= i * 64 + ofs && (i == 8 ==> ofs == 0)
      invariant forall b :: idx <= b < i * 64 + ofs ==> !HasBit(cm, b)
      decreases 8 - i
    {
      var mask := cm[i][ofs..];
      if true in mask {
        while !mask[0]
          invariant ofs < 64 && mask == cm[i][ofs..] && true in mask && idx <= i * 64 + ofs
          invariant forall b :: idx <= b < i * 64 + ofs ==> !HasBit(cm, b)
          decreases 64 - ofs
        {
          BitAt(cm, i, ofs);
          mask := mask[1..];
          ofs := ofs + 1;
        }
        return;
      }
      NoBits(cm, i, ofs);
      i := i + 1;
      ofs := 0;
    }
  }

  /** The inner loop of segment.cpp:164-168: the ones of one word from `pos` on. */
  method OnesInWord(cm: Mask, i: nat, pos: nat) returns (end: nat)
    requires i < 8 && i * 64 <= pos < i * 64 + 64 && HasBit(cm, pos)
    ensures pos < end <= i * 64 + 64
    ensures forall b :: pos <= b < end ==> HasBit(cm, b)
    ensures end < i * 64 + 64 ==> !HasBit(cm, end)
  {
    var mask := cm[i][pos - i * 64..];
    end := pos;
    BitAt(cm, i, pos - i * 64);
    while |mask| > 0 && mask[0]
      invariant pos <= end <= i * 64 + 64 && mask == cm[i][end - i * 64..]
      invariant end > pos || mask[0]
      invariant forall b :: pos <= b < end ==> HasBit(cm, b)
      decreases |mask|
    {
      BitAt(cm, i, end - i * 64);
      end := end + 1;
      mask := mask[1..];
    }
    if end < i * 64 + 64 { BitAt(cm, i, end - i * 64); }
  }

  /** segment.cpp:128-181 */
  method NextRun(cm: Mask, idx: nat) returns (start: nat, count: nat)
    requires idx <= MASK_BITS
    ensures IsNextRun(Bits(cm), idx, start, count)
  {
    var i, ofs := FirstOne(cm, idx);
    if i >= WORDS {
      return MASK_BITS, 0;
    }
    start := i * WORD_BITS + ofs;
    var pos := start;
    BitAt(cm, i, ofs);
    while true
      invariant i < 8 && start <= pos && i * 64 <= pos < i * 64 + 64 && HasBit(cm, pos)
      invariant forall b :: start <= b < pos ==> HasBit(cm, b)
      decreases 8 - i
    {
      pos := OnesInWord(cm, i, pos);
      if pos % WORD_BITS == 0 {
        i := i + 1;
        if i >= WORDS { break; }
      }
      if !HasBit(cm, pos) { break; }
    }
    count := pos - start;
  }

  lemma NoBits(cm: Mask, i: nat, ofs: nat)
    requires i < 8 && ofs < 64 && true !in cm[i][ofs..]
    ensures forall b :: i * 64 + ofs <= b < i * 64 + 64 ==> !HasBit(cm, b)
  {
    forall b | i * 64 + ofs <= b < i * 64 + 64 ensures !HasBit(cm, b) {
      assert cm[i][ofs..][b - i * 64 - ofs] == cm[i][b - i * 64];
      BitAt(cm, i, b - i * 64);
    }
  }

  datatype Run = Run(start: nat, count: nat)

  predicate Inside(r: Run, b: nat) {
    r.start <= b < r.start + r.count
  }

  /** Non-empty runs below `end`, in order, with a gap between any two. */
  ghost predicate Spaced(runs: seq<Run>, end: nat) {
    && (forall j :: 0 <= j < |runs| ==> runs[j].count > 0 && runs[j].start + runs[j].count <= end)
    && (forall j, k :: 0 <= j < k < |runs| ==> runs[j].start + runs[j].count < runs[k].start)
  }

  /** The bits below `end` are those inside some run; as the runs are spaced, each is inside one only. */
  ghost predicate Visits(runs: seq<Run>, m: Mask, end: nat) {
    forall b: nat :: b < end ==> (HasBit(m, b) <==> exists j :: 0 <= j < |runs| && Inside(runs[j], b))
  }

  lemma MoreSpaced(runs: seq<Run>, m: Mask, end: nat, start: nat, count: nat)
    requires Spaced(runs, end) && count > 0 && end <= start && (runs == [] || end < start)
    ensures Spaced(runs + [Run(start, count)], start + count)
  {
  }

  lemma MoreVisits(runs: seq<Run>, m: Mask, end: nat, start: nat, count: nat)
    requires Spaced(runs, end) && Visits(runs, m, end) && IsNextRun(Bits(m), end, start, count)
    ensures Visits(runs + [Run(start, count)], m, start + count)
  {
    var more := runs + [Run(start, count)];
    forall b: nat | b < start + count ensures HasBit(m, b) <==> exists j :: 0 <= j < |more| && Inside(more[j], b) {
      assert HasBit(m, b) <==> b in Bits(m);
      if b < end && HasBit(m, b) {
        var j :| 0 <= j < |runs| && Inside(runs[j], b);
        assert Inside(more[j], b);
      } else if start <= b {
        assert Inside(more[|runs|], b);
      }
    }
  }

  lemma NoMoreVisits(runs: seq<Run>, m: Mask, end: nat)
    requires Spaced(runs, end) && Visits(runs, m, end) && IsNextRun(Bits(m), end, MASK_BITS, 0)
    ensures Visits(runs, m, MASK_BITS)
  {
    forall b: nat | end <= b < MASK_BITS ensures !HasBit(m, b) {
      assert b !in Bits(m);
    }
  }

  /** `mi_commit_mask_foreach`: the runs visit every bit, each once, and the loop ends. */
  method Runs(cm: Mask) returns (runs: seq<Run>)
    ensures Spaced(runs, MASK_BITS) && Visits(runs, cm, MASK_BITS)
  {
    runs := [];
    ghost var end := 0;
    var idx, count := NextRun(cm, 0);
    while count > 0
      invariant IsNextRun(Bits(cm), end, idx, count)
      invariant Spaced(runs, end) && Visits(runs, cm, end)
      invariant runs == [] || end !in Bits(cm)
      decreases MASK_BITS - end
    {
      MoreSpaced(runs, cm, end, idx, count);
      MoreVisits(runs, cm, end, idx, count);
      runs := runs + [Run(idx, count)];
      end := idx + count;
      idx, count := NextRun(cm, idx + count);
    }
    NoMoreVisits(runs, cm, end);
  }
}
