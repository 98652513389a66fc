/** What repeated steps lead to. */
module Paths {
  ghost predicate StepAt<S>(step: S -> S, states: seq<S>, i: nat)
    requires i + 1 < |states|
  {
    states[i + 1] == step(states[i])
  }

  ghost predicate Path<S>(step: S -> S, s: S, u: S, states: seq<S>) {
    && |states| > 0 && states[0] == s && states[|states| - 1] == u
    && forall i: nat {:trigger StepAt(step, states, i)} :: i + 1 < |states| ==> StepAt(step, states, i)
  }

  /** Some number of steps leads from `s` to `u`. */
  ghost predicate Leads<S(!new)>(step: S -> S, s: S, u: S) {
    exists states :: Path(step, s, u, states)
  }

  lemma Nowhere<S(!new)>(step: S -> S, s: S)
    ensures Leads(step, s, s)
  {
    assert Path(step, s, s, [s]);
  }

  lemma OneStep<S(!new)>(step: S -> S, s: S)
    ensures Leads(step, s, step(s))
  {
    var states := [s, step(s)];
    assert StepAt(step, states, 0);
    assert Path(step, s, step(s), states);
  }

  lemma Both<S(!new)>(step: S -> S, s: S, u: S, v: S)
    requires Leads(step, s, u) && Leads(step, u, v)
    ensures Leads(step, s, v)
  {
    var x :| Path(step, s, u, x);
    var y :| Path(step, u, v, y);
    var z := x + y[1..];
    forall i: nat | i + 1 < |z| ensures StepAt(step, z, i) {
      if i + 1 < |x| {
        assert StepAt(step, x, i);
      } else {
        assert StepAt(step, y, i + 1 - |x|);
        assert z[i] == y[i + 1 - |x|] && z[i + 1] == y[i + 2 - |x|];
      }
    }
    assert Path(step, s, v, z);
  }

  lemma {:induction false} PathKeeps<S>(step: S -> S, inv: S -> bool, s: S, u: S, states: seq<S>)
    requires Path(step, s, u, states) && inv(s)
    requires forall i: nat {:trigger StepAt(step, states, i)} :: i + 1 < |states| && inv(states[i]) ==> inv(states[i + 1])
    ensures inv(u)
    decreases |states|
  {
    if |states| > 1 {
      assert StepAt(step, states, 0);
      forall i: nat | i + 1 < |states[1..]| ensures StepAt(step, states[1..], i) && (inv(states[1..][i]) ==> inv(states[1..][i + 1])) {
        assert StepAt(step, states, i + 1);
      }
      PathKeeps(step, inv, states[1], u, states[1..]);
    }
  }

  /** What every step keeps holds in the end. */
  lemma Keeps<S(!new)>(step: S -> S, inv: S -> bool, s: S, u: S)
    requires Leads(step, s, u) && inv(s)
    requires forall x :: inv(x) ==> inv(step(x))
    ensures inv(u)
  {
    var states :| Path(step, s, u, states);
    forall i: nat | i + 1 < |states| && inv(states[i]) ensures inv(states[i + 1]) { assert StepAt(step, states, i); }
    PathKeeps(step, inv, s, u, states);
  }
}
