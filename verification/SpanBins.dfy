/**
 Size classes of free slice spans (segment.cpp:212-232) against the queue bounds of init.cpp:122-129.
 A shift right by `k` is a division by 2^k; `(s << 2) | q` with `q < 4` is `4 * s + q`.
 */
module SpanBins {
  import opened Words

  const BIN_MAX: nat := 35
  const SLICES_PER_SEGMENT: nat := 512

  /** The `slice_count` bounds of the queues, as initialised in init.cpp. */
  const BOUNDS: seq<nat> := [
    1, 1, 2, 3, 4, 5, 6, 7, 10,
    12, 14, 16, 20, 24, 28, 32, 40,
    48, 56, 64, 80, 96, 112, 128, 160,
    192, 224, 256, 320, 384, 448, 512, 640,
    768, 896, 1024]

  /** `mi_bsr`: the index of the highest one bit. */
  function Bsr(n: nat): (s: nat)
    requires n > 0
    ensures Pow2(s) <= n < 2 * Pow2(s)
  {
    if n == 1 then 0 else 1 + Bsr(n / 2)
  }

  function Bin8(sliceCount: nat): nat {
    if sliceCount <= 1 then sliceCount
    else
      var n := sliceCount - 1;
      var s := Bsr(n);
      if s <= 2 then n + 1
      else 4 * s + (n / Pow2(s - 2)) % 4 - 4
  }

  /** The bound of a bin, in closed form. */
  function Bound(bin: nat): nat {
    if bin == 0 then 1
    else if bin <= 7 then bin
    else (5 + bin % 4) * Pow2((bin + 4) / 4 - 2)
  }

  lemma BoundsTable(bin: nat)
    requires bin <= BIN_MAX
    ensures |BOUNDS| == BIN_MAX + 1 && BOUNDS[bin] == Bound(bin)
  {
    assert Pow2(0) == 1 && Pow2(1) == 2 && Pow2(2) == 4 && Pow2(3) == 8;
    assert Pow2(4) == 16 && Pow2(5) == 32 && Pow2(6) == 64 && Pow2(7) == 128;
  }

  lemma {:induction false} BsrUnique(n: nat, s: nat)
    requires n > 0 && Pow2(s) <= n < 2 * Pow2(s)
    ensures Bsr(n) == s
  {
    if s > 0 { BsrUnique(n / 2, s - 1); }
  }

  lemma {:induction false} Pow2Step(k: nat)
    ensures Pow2(k + 2) == 4 * Pow2(k) && Pow2(k + 1) == 2 * Pow2(k)
  {
    assert Pow2(k + 2) == 2 * Pow2(k + 1);
  }

  lemma MulLe(a: int, b: int, p: int)
    requires a <= b && 0 <= p
    ensures a * p <= b * p
  {
  }

  /** The quotient that selects one of four bins within a power of two. */
  lemma Quarter(n: nat, p: nat)
    requires p > 0 && 4 * p <= n < 8 * p
    ensures 4 <= n / p < 8
    ensures (n / p) * p <= n < (n / p + 1) * p
  {
    var q := n / p;
    assert n == q * p + n % p;
    if q < 4 { MulLe(q + 1, 4, p); }
    if q >= 8 { MulLe(8, q, p); }
  }

  /** A bin holds exactly the counts above the previous bin's bound and up to its own. */
  lemma BinHolds(n: nat)
    requires n >= 2
    ensures Bin8(n) >= 2
    ensures Bound(Bin8(n) - 1) < n <= Bound(Bin8(n))
  {
    if Bsr(n - 1) <= 2 { Small(n); } else { Large(n, Bsr(n - 1)); }
  }

  lemma Large(n: nat, s: nat)
    requires n >= 2 && s == Bsr(n - 1) && s > 2
    ensures Bin8(n) >= 2
    ensures Bound(Bin8(n) - 1) < n <= Bound(Bin8(n))
  {
    var p, q := Pow2(s - 2), QuarterOf(n - 1, s);
    QuarterIs(n - 1, s);
    assert Bin8(n) == 4 * s + q - 4;
    BoundOf(s, q);
    Previous(s, q);
  }

  /** Which of the four bins within a power of two. */
  function QuarterOf(m: nat, s: nat): (q: nat)
    requires s > 2
    ensures q < 4
  {
    m / Pow2(s - 2) % 4
  }

  lemma QuarterIs(m: nat, s: nat)
    requires m > 0 && s == Bsr(m) && s > 2
    ensures (4 + QuarterOf(m, s)) * Pow2(s - 2) <= m < (5 + QuarterOf(m, s)) * Pow2(s - 2)
  {
    Pow2Step(s - 2);
    Quarter(m, Pow2(s - 2));
    assert m / Pow2(s - 2) == 4 + QuarterOf(m, s);
  }

  /** The closed form of a bound, by the power of two and the quarter. */
  lemma BoundOf(s: nat, q: nat)
    requires s > 2 && q < 4
    ensures Bound(4 * s + q - 4) == (5 + q) * Pow2(s - 2)
  {
    var b := 4 * s + q - 4;
    assert b % 4 == q && (b + 4) / 4 == s;
  }

  lemma Small(n: nat)
    requires n >= 2 && Bsr(n - 1) <= 2
    ensures n <= 8 && Bin8(n) == n && Bound(n - 1) < n <= Bound(n)
  {
    assert Pow2(0) == 1 && Pow2(1) == 2 && Pow2(2) == 4;
  }

  lemma Previous(s: nat, q: nat)
    requires s >= 3 && q < 4
    ensures Bound(4 * s + q - 5) <= (4 + q) * Pow2(s - 2)
  {
    var b := 4 * s + q - 5;
    if b == 7 {
      assert s == 3 && q == 0;
    } else if q > 0 {
      assert b % 4 == q - 1 && (b + 4) / 4 == s;
    } else {
      assert b % 4 == 3 && (b + 4) / 4 == s - 1;
      assert Pow2(s - 2) == 2 * Pow2(s - 3);
    }
  }

  /** Bounds grow from bin to bin. */
  lemma BoundGrows(b: nat)
    requires b >= 1
    ensures Bound(b) < Bound(b + 1)
  {
    if b >= 8 {
      var k := (b + 4) / 4 - 2;
      if b % 4 == 3 {
        assert (b + 1) % 4 == 0 && (b + 5) / 4 - 2 == k + 1;
        assert Pow2(k + 1) == 2 * Pow2(k);
      } else {
        assert (b + 1) % 4 == b % 4 + 1 && (b + 5) / 4 - 2 == k;
      }
    } else if b == 7 {
      assert Pow2(1) == 2;
    }
  }

  lemma {:induction false} BoundMonotone(b: nat, c: nat)
    requires 1 <= b <= c
    ensures Bound(b) <= Bound(c)
    decreases c - b
  {
    if b < c {
      BoundGrows(b);
      BoundMonotone(b + 1, c);
    }
  }

  /**
   `Bin8(n)` is the least bin from 1 up whose bound covers `n`: the bins that can serve a request
   of `n` slices as a whole are exactly those from `Bin8(n)` on.
   */
  lemma LeastBin(n: nat, b: nat)
    requires n >= 1 && b >= 1
    ensures n <= Bound(b) <==> Bin8(n) <= b
  {
    if n >= 2 {
      BinHolds(n);
      if Bin8(n) <= b { BoundMonotone(Bin8(n), b); } else { BoundMonotone(b, Bin8(n) - 1); }
    } else {
      BoundMonotone(1, b);
    }
  }

  lemma BinMonotone(m: nat, n: nat)
    requires m <= n
    ensures Bin8(m) <= Bin8(n)
  {
    if m >= 1 {
      BinPositive(m);
      BinPositive(n);
      LeastBin(n, Bin8(n));
      LeastBin(m, Bin8(n));
    }
  }

  lemma BinPositive(n: nat)
    requires n >= 1
    ensures Bin8(n) >= 1
  {
    if n >= 2 { BinHolds(n); }
  }

  /** Every span of a segment has a queue: `mi_slice_bin8(MI_SLICES_PER_SEGMENT) <= MI_SEGMENT_BIN_MAX`. */
  lemma BinInRange(n: nat)
    requires n <= SLICES_PER_SEGMENT
    ensures Bin8(n) <= BIN_MAX
  {
    if n >= 1 {
      BoundsTable(BIN_MAX);
      LeastBin(n, BIN_MAX);
    }
  }

  /** `sq->slice_count >= slice_count` for the queue chosen by `mi_span_queue_for`. */
  lemma QueueCovers(n: nat)
    requires n <= SLICES_PER_SEGMENT
    ensures Bin8(n) <= BIN_MAX && BOUNDS[Bin8(n)] >= n
  {
    BinInRange(n);
    BoundsTable(Bin8(n));
    if n >= 1 { BinPositive(n); LeastBin(n, Bin8(n)); }
  }
}
