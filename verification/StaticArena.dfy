/**
 `mi_arena_static_zalloc` (arena.cpp:162-198): a bump allocator over a static area whose rollback may
 fail. One step per atomic operation on `mi_arena_static_top`, any number of threads. The counter is
 unbounded here; alignment is relative to the start of the area.
 */
module StaticArena {
  const MAX: nat := 8192

  type Tid = nat

  datatype Pc =
    | Idle
    | Checked(size: nat, align: nat)     // arena.cpp:183, about to add to the top
    | Overshot(base: nat, top: nat)      // arena.cpp:188, about to roll back

  /** A range that was handed out: `[start, start + size)`, inside the claim `[lo, hi)`. */
  datatype Claim = Claim(lo: nat, hi: nat, start: nat, size: nat, align: nat)

  datatype State = State(top: nat, pcs: map<Tid, Pc>, claims: set<Claim>)

  /** `_mi_align_up` */
  function AlignUp(n: nat, align: nat): (r: nat)
    requires align > 0
    ensures n <= r < n + align && r % align == 0
  {
    AlignedUp(n, align);
    (n + align - 1) / align * align
  }

  lemma AlignedUp(n: nat, align: nat)
    requires align > 0
    ensures n <= (n + align - 1) / align * align < n + align
    ensures ((n + align - 1) / align * align) % align == 0
  {
    var q := (n + align - 1) / align;
    assert q * align + (n + align - 1) % align == n + align - 1;
    MultipleOf(q, align);
  }

  lemma Scaled(x: int, align: int)
    requires align > 0
    ensures x >= 1 ==> x * align >= align
    ensures x <= -1 ==> x * align <= 0 - align
  {
  }

  lemma MultipleOf(q: nat, align: nat)
    requires align > 0
    ensures (q * align) % align == 0
  {
    var d, r := (q * align) / align, (q * align) % align;
    assert q * align == d * align + r;
    assert (q - d) * align == r;
    Scaled(q - d, align);
  }

  // ---------------------------------------------------------------- steps

  function Goto(s: State, t: Tid, pc: Pc): State {
    s.(pcs := s.pcs[t := pc])
  }

  datatype Action = Check(t: Tid, size: nat, align: nat) | Add(t: Tid) | RollBack(t: Tid)

  function Step(s: State, a: Action): State {
    match a
    case Check(t, size, align0) =>
      if t !in s.pcs || s.pcs[t] != Idle then s else
        var align := if align0 == 0 then 1 else align0;
        if size == 0 || size > MAX || s.top + size > MAX || size + align - 1 > MAX then s
        else Goto(s, t, Checked(size, align))
    case Add(t) =>
      if t !in s.pcs || !s.pcs[t].Checked? || s.pcs[t].align == 0 then s else
        var Checked(size, align) := s.pcs[t];
        var top := s.top + size + align - 1;
        if top > MAX then Goto(s.(top := top), t, Overshot(s.top, top))
        else Goto(s.(top := top, claims := s.claims + {Claim(s.top, top, AlignUp(s.top, align), size, align)}), t, Idle)
    case RollBack(t) =>
      if t !in s.pcs || !s.pcs[t].Overshot? then s else
        Goto(if s.top == s.pcs[t].top then s.(top := s.pcs[t].base) else s, t, Idle)
  }

  function Run(s: State, actions: seq<Action>): State
    decreases |actions|
  {
    if actions == [] then s else Run(Step(s, actions[0]), actions[1..])
  }

  // ---------------------------------------------------------------- invariant

  predicate ClaimOk(s: State, c: Claim) {
    && c.lo < c.hi <= MAX && c.hi <= s.top
    && c.lo <= c.start && c.size > 0 && c.start + c.size <= c.hi
    && c.align > 0 && c.start % c.align == 0
  }

  ghost predicate PcOk(s: State, pc: Pc) {
    match pc
    case Idle => true
    case Checked(size, align) => size > 0 && align > 0
    case Overshot(base, top) => base < top && MAX < top <= s.top && forall c :: c in s.claims ==> c.hi <= base
  }

  /** Two overshoots that are still to be rolled back do not overlap. */
  predicate Disjoint(p: Pc, q: Pc) {
    p.Overshot? && q.Overshot? ==> p.top <= q.base || q.top <= p.base
  }

  ghost predicate Inv(s: State) {
    && (forall c :: c in s.claims ==> ClaimOk(s, c))
    && (forall c, d :: c in s.claims && d in s.claims && c != d ==> c.hi <= d.lo || d.hi <= c.lo)
    && (forall t {:trigger s.pcs[t]} :: t in s.pcs ==> PcOk(s, s.pcs[t]))
    && (forall t, u {:trigger s.pcs[t], s.pcs[u]} :: t in s.pcs && u in s.pcs && t != u ==> Disjoint(s.pcs[t], s.pcs[u]))
  }

  lemma AddKeeps(s: State, t: Tid)
    requires Inv(s)
    ensures Inv(Step(s, Add(t)))
  {
    if t in s.pcs && s.pcs[t].Checked? {
      var s' := Step(s, Add(t));
      assert PcOk(s, s.pcs[t]);
      forall u | u in s'.pcs ensures PcOk(s', s'.pcs[u]) {
        if u != t { assert PcOk(s, s.pcs[u]); }
      }
      forall u, v | u in s'.pcs && v in s'.pcs && u != v ensures Disjoint(s'.pcs[u], s'.pcs[v]) {
        if u != t { assert PcOk(s, s.pcs[u]); }
        if v != t { assert PcOk(s, s.pcs[v]); }
        if u != t && v != t { assert Disjoint(s.pcs[u], s.pcs[v]); }
      }
    }
  }

  lemma RollBackKeeps(s: State, t: Tid)
    requires Inv(s)
    ensures Inv(Step(s, RollBack(t)))
  {
    if t in s.pcs && s.pcs[t].Overshot? {
      var s' := Step(s, RollBack(t));
      assert PcOk(s, s.pcs[t]);
      forall u | u in s'.pcs ensures PcOk(s', s'.pcs[u]) {
        if u != t { assert PcOk(s, s.pcs[u]) && Disjoint(s.pcs[t], s.pcs[u]); }
      }
      forall u, v | u in s'.pcs && v in s'.pcs && u != v ensures Disjoint(s'.pcs[u], s'.pcs[v]) {
        if u != t && v != t { assert Disjoint(s.pcs[u], s.pcs[v]); }
      }
    }
  }

  lemma CheckKeeps(s: State, t: Tid, size: nat, align: nat)
    requires Inv(s)
    ensures Inv(Step(s, Check(t, size, align)))
  {
    var s' := Step(s, Check(t, size, align));
    forall u | u in s'.pcs ensures PcOk(s', s'.pcs[u]) {
      if s'.pcs[u] != s.pcs[u] { assert u == t; } else { assert PcOk(s, s.pcs[u]); }
    }
    forall u, v | u in s'.pcs && v in s'.pcs && u != v ensures Disjoint(s'.pcs[u], s'.pcs[v]) {
      assert Disjoint(s.pcs[u], s.pcs[v]);
    }
  }

  lemma {:induction false} RunKeeps(s: State, actions: seq<Action>)
    requires Inv(s)
    ensures Inv(Run(s, actions))
    decreases |actions|
  {
    if actions != [] {
      match actions[0]
      case Check(t, size, align) => CheckKeeps(s, t, size, align);
      case Add(t) => AddKeeps(s, t);
      case RollBack(t) => RollBackKeeps(s, t);
    }
    if actions != [] {
      RunKeeps(Step(s, actions[0]), actions[1..]);
    }
  }

  // ---------------------------------------------------------------- what callers get

  ghost predicate Start(s: State) {
    s.top == 0 && s.claims == {} && forall t {:trigger s.pcs[t]} :: t in s.pcs ==> s.pcs[t] == Idle
  }

  /**
   After any interleaving: every range that was handed out is aligned and inside the static area,
   and no two of them overlap, whatever rollbacks succeeded or failed.
   */
  lemma RangesAreApart(start: State, actions: seq<Action>, c: Claim)
    requires Start(start) && c in Run(start, actions).claims
    ensures c.align > 0 && c.start % c.align == 0 && c.size > 0 && c.start + c.size <= MAX
    ensures forall d :: d in Run(start, actions).claims && d != c ==> c.start + c.size <= d.start || d.start + d.size <= c.start
  {
    RunKeeps(start, actions);
    var s := Run(start, actions);
    assert ClaimOk(s, c);
    forall d | d in s.claims && d != c ensures c.start + c.size <= d.start || d.start + d.size <= c.start {
      assert ClaimOk(s, d);
    }
  }

  /** What is handed out stays handed out, and each successful call adds its own range. */
  lemma AddGivesRange(s: State, t: Tid)
    requires Inv(s) && t in s.pcs && s.pcs[t].Checked?
    ensures s.claims <= Step(s, Add(t)).claims
    ensures s.top + s.pcs[t].size + s.pcs[t].align - 1 <= MAX <==>
              exists c :: c in Step(s, Add(t)).claims && c !in s.claims && c.size == s.pcs[t].size && c.align == s.pcs[t].align
  {
    var Checked(size, align) := s.pcs[t];
    assert PcOk(s, s.pcs[t]);
    if s.top + size + align - 1 <= MAX {
      var c := Claim(s.top, s.top + size + align - 1, AlignUp(s.top, align), size, align);
      assert c in Step(s, Add(t)).claims;
      assert c in s.claims ==> ClaimOk(s, c);
    }
  }

  // ---------------------------------------------------------------- whole calls

  /** The rollback puts the top back where the call found it, unless others have moved it on; nothing handed out changes. */
  lemma RollBackRestores(s: State, t: Tid, base: nat, top: nat)
    requires t in s.pcs && s.pcs[t] == Overshot(base, top)
    ensures var s' := Step(s, RollBack(t));
            && s'.top == (if s.top == top then base else s.top)
            && s'.claims == s.claims && s'.pcs == s.pcs[t := Idle]
  {
  }

  /** The add moves the top on by the size and what the alignment may need. */
  lemma AddMoves(s: State, t: Tid, size: nat, align: nat)
    requires t in s.pcs && s.pcs[t] == Checked(size, align) && align > 0
    ensures var s' := Step(s, Add(t)); var top := s.top + size + align - 1;
            && s'.top == top
            && (top > MAX ==> s'.claims == s.claims && s'.pcs == s.pcs[t := Overshot(s.top, top)])
            && (top <= MAX ==> s'.pcs == s.pcs[t := Idle] && exists c :: GivenFrom(c, s.top, size, align) && s'.claims == s.claims + {c})
  {
    if s.top + size + align - 1 <= MAX {
      var c := Claim(s.top, s.top + size + align - 1, AlignUp(s.top, align), size, align);
      assert GivenFrom(c, s.top, size, align) && Step(s, Add(t)).claims == s.claims + {c};
    }
  }

  /** The range begins at the first aligned place from `top` on. */
  predicate GivenFrom(c: Claim, top: nat, size: nat, align: nat) {
    && c.size == size && c.align == align && align > 0 && c.lo == top && c.hi == top + size + align - 1
    && top <= c.start < top + align && c.start % align == 0
  }

  lemma RunThree(s: State, a: Action, b: Action, c: Action)
    ensures Run(s, [a, b, c]) == Step(Step(Step(s, a), b), c)
  {
    assert [a, b, c][1..] == [b, c] && [b, c][1..] == [c] && [c][1..] == [];
    assert Run(s, [a, b, c]) == Run(Step(s, a), [b, c]);
    assert Run(Step(s, a), [b, c]) == Run(Step(Step(s, a), b), [c]);
    assert Run(Step(Step(s, a), b), [c]) == Run(Step(Step(Step(s, a), b), c), []);
  }

  /** The call is let through to the add. */
  lemma CheckDecides(s: State, t: Tid, size: nat, align: nat)
    requires t in s.pcs && s.pcs[t] == Idle
    ensures var a := if align == 0 then 1 else align;
            Step(s, Check(t, size, align)) == if 0 < size && s.top + size <= MAX && size + a - 1 <= MAX then s.(pcs := s.pcs[t := Checked(size, a)]) else s
  {
  }

  /**
   A call that nobody disturbs: it gets an aligned range exactly if there is room for the size and the
   alignment behind the top; otherwise everything is left as it was, the top included.
   */
  lemma CallAlone(s: State, t: Tid, size: nat, align: nat)
    requires t in s.pcs && s.pcs[t] == Idle
    ensures var s' := Run(s, [Check(t, size, align), Add(t), RollBack(t)]); var a := if align == 0 then 1 else align;
            if size > 0 && s.top + size + a - 1 <= MAX
            then s'.top == s.top + size + a - 1 && s'.pcs == s.pcs && exists c :: GivenFrom(c, s.top, size, a) && s'.claims == s.claims + {c}
            else s' == s
  {
    var a := if align == 0 then 1 else align;
    RunThree(s, Check(t, size, align), Add(t), RollBack(t));
    CheckDecides(s, t, size, align);
    var u := Step(s, Check(t, size, align));
    if u != s {
      AddMoves(u, t, size, a);
      var v := Step(u, Add(t));
      assert s.pcs[t := Checked(size, a)][t := Idle] == s.pcs;
      if s.top + size + a - 1 > MAX {
        RollBackRestores(v, t, s.top, s.top + size + a - 1);
        assert s.pcs[t := Checked(size, a)][t := v.pcs[t]][t := Idle] == s.pcs;
      } else {
        assert v.pcs == s.pcs && Step(v, RollBack(t)) == v;
      }
    }
  }
}
