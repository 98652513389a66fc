/**
 Finding and claiming a run of zero bits (bitmap.cpp:50-128, 248-328, 362-396) when no other thread
 interferes: the searches miss nothing. The interleaved protocol, with its rollback, is in
 `ArenaProtocol`.

 The bits of all fields are one array; field `f` is the 64 bits from `64 * f`.
 */
module BitmapSearch {
  import opened Sequences
  import opened Words

  const FIELD_BITS: nat := 64

  /** `count` zero bits from `b` on. */
  predicate FreeRun(bits: seq<bool>, b: nat, count: nat) {
    b + count <= |bits| && forall k :: b <= k < b + count ==> !bits[k]
  }

  /** `mi_ctz(~map)`: the first zero bit. */
  function FirstZero(w: seq<bool>): (k: nat)
    ensures k <= |w| && (k < |w| ==> !w[k])
    ensures forall j :: 0 <= j < k ==> w[j]
  {
    if w == [] || !w[0] then 0 else
      var k := FirstZero(w[1..]);
      assert forall j :: 1 <= j < k + 1 ==> w[j] == w[1..][j - 1];
      k + 1
  }

  /** `mi_clz(map)`: the number of zero bits at the top. */
  function LeadingZeros(w: seq<bool>): (k: nat)
    ensures k <= |w| && (k < |w| ==> w[|w| - 1 - k])
    ensures forall j :: |w| - k <= j < |w| ==> !w[j]
  {
    if w == [] || w[|w| - 1] then 0 else 1 + LeadingZeros(w[..|w| - 1])
  }

  /** `word & m` for the mask `m` of `count` bits from `bit` on. */
  function Masked(w: Word, bit: nat, count: nat): Word {
    seq(64, k requires 0 <= k < 64 => w[k] && bit <= k < bit + count)
  }

  predicate IsZero(w: Word) {
    forall k :: 0 <= k < 64 ==> !w[k]
  }

  /** `before` with the bits `[lo, hi)` set is `after`. */
  predicate Claimed(before: seq<bool>, after: seq<bool>, lo: nat, hi: nat) {
    && |after| == |before|
    && forall k :: 0 <= k < |before| ==> after[k] == (before[k] || lo <= k < hi)
  }

  /** No run of `count` zero bits lies within field `f`. */
  ghost predicate NoRunInside(bits: seq<bool>, f: nat, count: nat) {
    forall i {:trigger FreeRun(bits, i, count)} :: FIELD_BITS * f <= i <= FIELD_BITS * f + 64 - count ==> !FreeRun(bits, i, count)
  }

  /** No run of `count` zero bits begins in field `f` and goes on into the next. */
  ghost predicate NoRunAcross(bits: seq<bool>, f: nat, count: nat) {
    forall i {:trigger FreeRun(bits, i, count)} :: FIELD_BITS * f <= i < FIELD_BITS * f + 64 < i + count ==> !FreeRun(bits, i, count)
  }

  /** Field `f` is among the first `visited` ones from `start` on, going round. */
  predicate Visited(f: nat, start: nat, visited: nat, fields: nat) {
    if f >= start then f - start < visited else f + fields - start < visited
  }

  /** Where the visit of all fields begins. */
  function FirstField(start: nat, fields: nat): nat {
    if start < fields then start else 0
  }

  /** How many fields are visited before field `f`. */
  function Distance(f: nat, first: nat, fields: nat): nat
    requires f < fields && first <= fields
  {
    if f >= first then f - first else f + fields - first
  }

  /** No run of `count` zero bits begins from `lo` up to `hi`. */
  ghost predicate NoneBegins(bits: seq<bool>, lo: nat, hi: nat, count: nat) {
    forall i {:trigger FreeRun(bits, i, count)} :: lo <= i < hi ==> !FreeRun(bits, i, count)
  }

  /** Of the runs within fields, the one at `i` is the first, in the order of the visit. */
  ghost predicate FirstInside(bits: seq<bool>, fields: nat, start: nat, i: nat, count: nat) {
    var f, first := i / FIELD_BITS, FirstField(start, fields);
    && f < fields && NoneBegins(bits, FIELD_BITS * f, i, count)
    && forall g: nat :: g < fields && Visited(g, first, Distance(f, first, fields), fields) ==> NoRunInside(bits, g, count)
  }

  /** The same of all runs. */
  ghost predicate FirstOfAll(bits: seq<bool>, fields: nat, start: nat, i: nat, count: nat) {
    var f, first := i / FIELD_BITS, FirstField(start, fields);
    && f < fields && NoneBegins(bits, FIELD_BITS * f, i, count)
    && forall g: nat :: g < fields && Visited(g, first, Distance(f, first, fields), fields) ==> NoneBegins(bits, FIELD_BITS * g, FIELD_BITS * g + 64, count)
  }

  /** A run that begins in a field lies within it or goes on into the next. */
  lemma InsideOrAcross(bits: seq<bool>, f: nat, count: nat)
    requires NoRunInside(bits, f, count) && NoRunAcross(bits, f, count)
    ensures NoneBegins(bits, FIELD_BITS * f, FIELD_BITS * f + 64, count)
  {
  }

  class Bitmap {
    const fields: nat
    const bits: array<bool>

    ghost predicate Valid()
      reads this
    {
      bits.Length == FIELD_BITS * fields
    }

    constructor (fields: nat)
      ensures Valid() && this.fields == fields && forall k :: 0 <= k < bits.Length ==> !bits[k]
    {
      this.fields := fields;
      this.bits := new bool[FIELD_BITS * fields](_ => false);
    }

    /** `mi_atomic_load_relaxed` of a field. */
    method Load(f: nat) returns (w: Word)
      requires Valid() && f < fields
      ensures w == bits[FIELD_BITS * f..FIELD_BITS * f + 64]
    {
      return bits[FIELD_BITS * f..FIELD_BITS * f + 64];
    }

    /** The compare-and-swap of one field from `w` to `w` with the masked bits set. */
    method SetBits(f: nat, bit: nat, count: nat)
      requires Valid() && f < fields && bit + count <= 64
      modifies bits
      ensures Claimed(old(bits[..]), bits[..], FIELD_BITS * f + bit, FIELD_BITS * f + bit + count)
    {
      var lo := FIELD_BITS * f + bit;
      for k := lo to lo + count
        invariant forall j :: 0 <= j < bits.Length ==> bits[j] == (old(bits[j]) || lo <= j < k)
      {
        bits[k] := true;
      }
    }

    /** `_mi_bitmap_try_find_claim_field`: the first run in the field, if there is one. */
    method ClaimInField(f: nat, count: nat) returns (found: Option<nat>)
      requires Valid() && f < fields && 0 < count <= 64
      modifies bits
      ensures found.None? ==> bits[..] == old(bits[..])
      ensures found.None? ==> NoRunInside(old(bits[..]), f, count)
      ensures found.Some? ==>
                var i := found.value;
                && FIELD_BITS * f <= i && i + count <= FIELD_BITS * f + 64 && FreeRun(old(bits[..]), i, count)
                && Claimed(old(bits[..]), bits[..], i, i + count)
                && forall j :: FIELD_BITS * f <= j < i ==> !FreeRun(old(bits[..]), j, count)
    {
      var word := Load(f);
      ghost var all := bits[..];
      FieldRuns(all, word, f, count);
      var bit := FirstZero(word);
      NoRunBefore(word, bit, count);
      if forall k :: 0 <= k < 64 ==> word[k] {
        return None;
      }
      var max := 64 - count;
      while bit <= max
        invariant bits[..] == all
        invariant forall b :: 0 <= b < bit && b <= max ==> !FreeRun(word, b, count)
        decreases 64 - bit
      {
        var mapm := Masked(word, bit, count);
        if IsZero(mapm) {
          assert FreeRun(word, bit, count) by {
            forall k | bit <= k < bit + count ensures !word[k] { assert !mapm[k]; }
          }
          assert FreeRun(all, FIELD_BITS * f + bit, count);
          SetBits(f, bit, count);
          return Some(FIELD_BITS * f + bit);
        }
        var shift := if count == 1 then 1 else 64 - LeadingZeros(mapm) - bit;
        SkipIsSafe(word, mapm, bit, count, shift);
        bit := bit + shift;
      }
      return None;
    }

    /** `_mi_bitmap_try_find_from_claim`: all fields, each for itself. */
    method FindInFields(start: nat, count: nat) returns (found: Option<nat>)
      requires Valid() && 0 < count <= 64
      modifies bits
      ensures found.None? ==> bits[..] == old(bits[..]) && forall f :: 0 <= f < fields ==> NoRunInside(old(bits[..]), f, count)
      ensures found.Some? ==>
                var i := found.value;
                FreeRun(old(bits[..]), i, count) && Claimed(old(bits[..]), bits[..], i, i + count) && i % FIELD_BITS + count <= 64
      ensures found.Some? ==> FirstInside(old(bits[..]), fields, start, found.value, count)
    {
      var idx := start;
      ghost var first := FirstField(start, fields);
      ghost var all := bits[..];
      for visited := 0 to fields
        invariant idx == if visited == 0 then start else if first + visited <= fields then first + visited else first + visited - fields
        invariant bits[..] == all
        invariant forall f :: 0 <= f < fields && Visited(f, first, visited, fields) ==> NoRunInside(all, f, count)
      {
        if idx >= fields {
          idx := 0;
        }
        found := ClaimInField(idx, count);
        if found.Some? {
          assert found.value / FIELD_BITS == idx && Distance(idx, first, fields) == visited;
          return;
        }
        idx := idx + 1;
      }
      found := None;
    }

    /** `mi_bitmap_try_find_claim_field_across`: a run from the free end of field `f` into the next ones. */
    method ClaimAcross(f: nat, count: nat) returns (found: Option<nat>)
      requires Valid() && f < fields && 0 < count
      modifies bits
      ensures found.None? ==> bits[..] == old(bits[..]) && NoRunAcross(old(bits[..]), f, count)
      ensures found.Some? ==>
                var i := found.value;
                && FreeRun(old(bits[..]), i, count) && Claimed(old(bits[..]), bits[..], i, i + count)
                && FIELD_BITS * f <= i < FIELD_BITS * f + 64
                && forall j {:trigger FreeRun(old(bits[..]), j, count)} :: FIELD_BITS * f <= j < i && FIELD_BITS * f + 64 < j + count ==> !FreeRun(old(bits[..]), j, count)
    {
      var word := Load(f);
      var initial := LeadingZeros(word);
      ghost var all := bits[..];
      if initial == 0 {
        assert all[FIELD_BITS * f + 63] == word[63];
        return None;
      }
      TopIsFree(all, word, f, initial);
      if initial >= count {
        found := ClaimInField(f, count);
        assert FreeRun(all, FIELD_BITS * f + 64 - count, count);
        return;
      }
      if (count - initial + 63) / 64 >= fields - f {
        NoRoom(all, f, count, initial, fields);
        return None;
      }
      var ok := ScanAhead(f, count, initial);
      if !ok {
        return None;
      }
      ClaimParts(f, count, initial);
      BeginsNoEarlier(all, f, count, initial);
      return Some(FIELD_BITS * f + 64 - initial);
    }

    /** Are the bits behind field `f` free, too? (bitmap.cpp:266-279) */
    method ScanAhead(f: nat, count: nat, initial: nat) returns (ok: bool)
      requires Valid() && f < fields && 0 < initial < count && initial <= 64 && (count - initial + 63) / 64 < fields - f
      requires FreeRun(bits[..], FIELD_BITS * f + 64 - initial, initial)
      requires initial < 64 ==> bits[FIELD_BITS * f + 63 - initial]
      ensures ok ==> FreeRun(bits[..], FIELD_BITS * f + 64 - initial, count)
      ensures !ok ==> NoRunAcross(bits[..], f, count)
    {
      var base := FIELD_BITS * f + 64 - initial;
      var found := initial;
      var g := f;
      while found < count
        invariant initial <= found <= count && f <= g < fields
        invariant FreeRun(bits[..], base, found)
        invariant found < count ==> base + found == FIELD_BITS * g + 64
      {
        g := g + 1;
        var word := Load(g);
        var maskBits := if found + 64 <= count then 64 else count - found;
        assert forall k :: 0 <= k < 64 ==> word[k] == bits[FIELD_BITS * g + k];
        if !IsZero(Masked(word, 0, maskBits)) {
          ghost var k :| 0 <= k < 64 && Masked(word, 0, maskBits)[k];
          Blocked(bits[..], f, count, initial, FIELD_BITS * g + k);
          return false;
        }
        forall k | base + found <= k < base + found + maskBits ensures !bits[k] {
          assert !Masked(word, 0, maskBits)[k - FIELD_BITS * g];
        }
        found := found + maskBits;
      }
      return true;
    }

    /** The claim, field by field (bitmap.cpp:284-328); all compare-and-swaps succeed. */
    method ClaimParts(f: nat, count: nat, initial: nat)
      requires Valid() && f < fields && 0 < initial < count && initial <= 64 && FIELD_BITS * f + 64 - initial + count <= bits.Length
      modifies bits
      ensures var base := FIELD_BITS * f + 64 - initial; Claimed(old(bits[..]), bits[..], base, base + count)
    {
      ghost var base := FIELD_BITS * f + 64 - initial;
      SetBits(f, 64 - initial, initial);
      var done := initial;
      var g := f + 1;
      while count - done > 64
        invariant initial <= done < count && base + done == FIELD_BITS * g
        invariant Claimed(old(bits[..]), bits[..], base, base + done)
      {
        SetBits(g, 0, 64);
        done := done + 64;
        g := g + 1;
      }
      SetBits(g, 0, count - done);
    }

    /** One round (bitmap.cpp:381-393): a run within the field, or one that begins in it. */
    method ClaimField(f: nat, count: nat) returns (found: Option<nat>)
      requires Valid() && f < fields && 0 < count
      modifies bits
      ensures found.None? ==> bits[..] == old(bits[..]) && NoRunInside(old(bits[..]), f, count) && NoRunAcross(old(bits[..]), f, count)
      ensures found.Some? ==>
                var i := found.value;
                && FreeRun(old(bits[..]), i, count) && Claimed(old(bits[..]), bits[..], i, i + count)
                && FIELD_BITS * f <= i < FIELD_BITS * f + 64 && NoneBegins(old(bits[..]), FIELD_BITS * f, i, count)
    {
      if count <= 64 {
        found := ClaimInField(f, count);
        if found.Some? {
          return;
        }
      }
      found := ClaimAcross(f, count);
    }

    /**
     `_mi_bitmap_try_find_from_claim_across`: with more than two bits, it succeeds exactly when there is
     a run of that many zero bits in the bitmap; with one or two, when there is one within a field.
     */
    method FindAcross(start: nat, count: nat) returns (found: Option<nat>)
      requires Valid() && 0 < count
      modifies bits
      ensures found.Some? ==>
                var i := found.value;
                FreeRun(old(bits[..]), i, count) && Claimed(old(bits[..]), bits[..], i, i + count)
      ensures found.None? ==> bits[..] == old(bits[..])
      ensures count > 2 ==> (found.Some? <==> exists i: nat :: FreeRun(old(bits[..]), i, count))
      ensures count <= 2 ==> (found.Some? <==> exists i: nat :: i % FIELD_BITS + count <= 64 && FreeRun(old(bits[..]), i, count))
      ensures found.Some? && count <= 2 ==> found.value % FIELD_BITS + count <= 64
      ensures found.Some? && count <= 2 ==> FirstInside(old(bits[..]), fields, start, found.value, count)
      ensures found.Some? && count > 2 ==> FirstOfAll(old(bits[..]), fields, start, found.value, count)
    {
      if count <= 2 {
        ghost var before := bits[..];
        found := FindInFields(start, count);
        if found.None? {
          NoRunInFields(before, fields, count);
        }
        return;
      }
      var idx := start;
      ghost var first := FirstField(start, fields);
      ghost var all := bits[..];
      for visited := 0 to fields
        invariant idx == if visited == 0 then start else if first + visited <= fields then first + visited else first + visited - fields
        invariant bits[..] == all
        invariant forall f :: 0 <= f < fields && Visited(f, first, visited, fields) ==> NoRunInside(all, f, count) && NoRunAcross(all, f, count)
      {
        if idx >= fields {
          idx := 0;
        }
        found := ClaimField(idx, count);
        if found.Some? {
          FirstVisited(all, fields, start, found.value, count, idx, visited);
          return;
        }
        idx := idx + 1;
      }
      NoRunAnywhere(all, fields, count);
      found := None;
    }
  }

  /** The zero bits at the top of a word, in the bitmap. */
  lemma TopIsFree(all: seq<bool>, word: Word, f: nat, initial: nat)
    requires FIELD_BITS * f + 64 <= |all| && word == all[FIELD_BITS * f..FIELD_BITS * f + 64] && initial == LeadingZeros(word)
    ensures FreeRun(all, FIELD_BITS * f + 64 - initial, initial)
    ensures initial < 64 ==> all[FIELD_BITS * f + 63 - initial]
  {
    forall k | FIELD_BITS * f + 64 - initial <= k < FIELD_BITS * f + 64 ensures !all[k] {
      assert !word[k - FIELD_BITS * f];
    }
    if initial < 64 { assert word[63 - initial]; }
  }

  /** A run that begins in field `f` and leaves it begins among the zero bits at its top. */
  lemma BeginsAtTheTop(all: seq<bool>, f: nat, count: nat, initial: nat, i: nat)
    requires FIELD_BITS * f + 64 <= |all| && initial <= 64 && (initial < 64 ==> all[FIELD_BITS * f + 63 - initial])
    requires FIELD_BITS * f <= i < FIELD_BITS * f + 64 < i + count && FreeRun(all, i, count)
    ensures i >= FIELD_BITS * f + 64 - initial
  {
  }

  lemma BeginsNoEarlier(all: seq<bool>, f: nat, count: nat, initial: nat)
    requires FIELD_BITS * f + 64 <= |all| && initial <= 64 && (initial < 64 ==> all[FIELD_BITS * f + 63 - initial])
    ensures forall j {:trigger FreeRun(all, j, count)} :: FIELD_BITS * f <= j < FIELD_BITS * f + 64 - initial && FIELD_BITS * f + 64 < j + count ==> !FreeRun(all, j, count)
  {
    forall j: nat | FIELD_BITS * f <= j < FIELD_BITS * f + 64 - initial && FIELD_BITS * f + 64 < j + count ensures !FreeRun(all, j, count) {
      if FreeRun(all, j, count) { BeginsAtTheTop(all, f, count, initial, j); }
    }
  }

  /** The run that is found in the field that is being visited. */
  lemma FirstVisited(all: seq<bool>, fields: nat, start: nat, i: nat, count: nat, f: nat, visited: nat)
    requires f < fields && FIELD_BITS * f <= i < FIELD_BITS * f + 64 && NoneBegins(all, FIELD_BITS * f, i, count)
    requires visited == Distance(f, FirstField(start, fields), fields)
    requires forall g :: 0 <= g < fields && Visited(g, FirstField(start, fields), visited, fields) ==> NoRunInside(all, g, count) && NoRunAcross(all, g, count)
    ensures FirstOfAll(all, fields, start, i, count)
  {
    assert i / FIELD_BITS == f;
    forall g: nat | g < fields && Visited(g, FirstField(start, fields), visited, fields)
      ensures NoneBegins(all, FIELD_BITS * g, FIELD_BITS * g + 64, count)
    {
      InsideOrAcross(all, g, count);
    }
  }

  /** The check for the end of the bitmap is exact. */
  lemma NoRoom(all: seq<bool>, f: nat, count: nat, initial: nat, fields: nat)
    requires |all| == FIELD_BITS * fields && f < fields && 0 < initial < count && initial <= 64
    requires initial < 64 ==> all[FIELD_BITS * f + 63 - initial]
    requires (count - initial + 63) / 64 >= fields - f
    ensures NoRunAcross(all, f, count)
  {
    forall i: nat | FIELD_BITS * f <= i < FIELD_BITS * f + 64 < i + count ensures !FreeRun(all, i, count) {
      if FreeRun(all, i, count) { BeginsAtTheTop(all, f, count, initial, i); }
    }
  }

  /** A set bit among the `count` bits from the free end on is in the way of every run. */
  lemma Blocked(all: seq<bool>, f: nat, count: nat, initial: nat, k: nat)
    requires FIELD_BITS * f + 64 <= k < FIELD_BITS * f + 64 - initial + count && k < |all| && all[k]
    requires initial <= 64 && (initial < 64 ==> all[FIELD_BITS * f + 63 - initial])
    ensures NoRunAcross(all, f, count)
  {
    forall i: nat | FIELD_BITS * f <= i < FIELD_BITS * f + 64 < i + count ensures !FreeRun(all, i, count) {
      if i >= FIELD_BITS * f + 64 - initial {
        assert i <= k < i + count;
      } else {
        assert i <= FIELD_BITS * f + 63 - initial < i + count;
      }
    }
  }

  /** A run lies within a field, or begins in a field and goes on into the next. */
  lemma NoRunAnywhere(all: seq<bool>, fields: nat, count: nat)
    requires |all| == FIELD_BITS * fields && count > 0
    requires forall f :: 0 <= f < fields ==> NoRunInside(all, f, count) && NoRunAcross(all, f, count)
    ensures forall i :: i >= 0 ==> !FreeRun(all, i, count)
  {
    forall i: nat ensures !FreeRun(all, i, count) {
      if i < |all| {
        var f := i / FIELD_BITS;
        assert NoRunInside(all, f, count) && NoRunAcross(all, f, count);
      }
    }
  }

  /** Runs that lie within a field are those that the search of the fields looks at. */
  lemma NoRunInFields(all: seq<bool>, fields: nat, count: nat)
    requires |all| == FIELD_BITS * fields && count > 0 && forall f :: 0 <= f < fields ==> NoRunInside(all, f, count)
    ensures forall i: nat :: i % FIELD_BITS + count <= 64 ==> !FreeRun(all, i, count)
  {
    forall i: nat | i % FIELD_BITS + count <= 64 ensures !FreeRun(all, i, count) {
      var f := i / FIELD_BITS;
      assert f < fields ==> NoRunInside(all, f, count);
    }
  }

  /** Two free bits on both sides of the end of a field: a run, but none within a field. */
  lemma RunAcrossTheEnd(bits: seq<bool>)
    requires |bits| == 128 && forall k :: 0 <= k < 128 ==> (bits[k] <==> k != 63 && k != 64)
    ensures FreeRun(bits, 63, 2) && NoRunInside(bits, 0, 2) && NoRunInside(bits, 1, 2)
    ensures forall i: nat :: i % FIELD_BITS + 2 <= 64 ==> !FreeRun(bits, i, 2)
  {
    forall i | 0 <= i <= 62 ensures !FreeRun(bits, i, 2) { assert bits[i]; }
    forall i | 64 <= i <= 126 ensures !FreeRun(bits, i, 2) { assert bits[i + 1]; }
    assert NoRunInside(bits, 0, 2) && NoRunInside(bits, 1, 2);
    NoRunInFields(bits, 2, 2);
  }

  lemma NoRunBefore(word: Word, bit: nat, count: nat)
    requires count > 0 && bit <= 64 && forall j :: 0 <= j < bit ==> word[j]
    ensures forall b :: 0 <= b < bit ==> !FreeRun(word, b, count)
  {
    forall b | 0 <= b < bit ensures !FreeRun(word, b, count) { assert word[b]; }
  }

  /** Runs inside a field are runs of its word. */
  lemma FieldRuns(all: seq<bool>, word: Word, f: nat, count: nat)
    requires FIELD_BITS * f + 64 <= |all| && word == all[FIELD_BITS * f..FIELD_BITS * f + 64] && count <= 64
    ensures forall i {:trigger FreeRun(all, i, count)} :: FIELD_BITS * f <= i <= FIELD_BITS * f + 64 - count ==>
              (FreeRun(all, i, count) <==> FreeRun(word, i - FIELD_BITS * f, count))
  {
    forall i | FIELD_BITS * f <= i <= FIELD_BITS * f + 64 - count
      ensures FreeRun(all, i, count) <==> FreeRun(word, i - FIELD_BITS * f, count)
    {
      var b := i - FIELD_BITS * f;
      assert forall k :: 0 <= k < 64 ==> word[k] == all[FIELD_BITS * f + k];
      if FreeRun(word, b, count) {
        forall k | i <= k < i + count ensures !all[k] { assert !word[k - FIELD_BITS * f]; }
      }
      if FreeRun(all, i, count) {
        forall k | b <= k < b + count ensures !word[k] { assert !all[FIELD_BITS * f + k]; }
      }
    }
  }

  /** The shift past the highest set bit of the window makes progress and jumps over no run. */
  lemma SkipIsSafe(word: Word, mapm: Word, bit: nat, count: nat, shift: int)
    requires 0 < count && bit + count <= 64 && mapm == Masked(word, bit, count) && !IsZero(mapm)
    requires shift == if count == 1 then 1 else 64 - LeadingZeros(mapm) - bit
    ensures 0 < shift <= count
    ensures forall b :: bit <= b < bit + shift && b <= 64 - count ==> !FreeRun(word, b, count)
  {
    var h := 63 - LeadingZeros(mapm);
    var k :| 0 <= k < 64 && mapm[k];
    assert mapm[h] && word[h] && bit <= h < bit + count;
    assert bit + shift == h + 1;
    forall b | bit <= b < bit + shift && b <= 64 - count ensures !FreeRun(word, b, count) {
      assert b <= h < b + count && word[h];
    }
  }
}
