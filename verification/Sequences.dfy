/** Shared vocabulary: optional values, duplicate-free sequences, and parts of sets. */
module Sequences {
  datatype Option<+T> = None | Some(value: T)

  function First<T>(s: seq<T>): Option<T> {
    if s == [] then None else Some(s[0])
  }

  ghost predicate NoDup<T>(s: seq<T>) {
    forall i, j :: 0 <= i < j < |s| ==> s[i] != s[j]
  }

  /** A duplicate-free sequence is as long as the set of its members. */
  lemma {:induction false} NoDupSize<T>(s: seq<T>, members: set<T>)
    requires NoDup(s)
    requires forall x :: x in s ==> x in members
    ensures |s| <= |members|
    ensures |s| == |members| ==> forall x :: x in members ==> x in s
    decreases |s|
  {
    if s != [] {
      var rest := s[1..];
      assert forall x :: x in rest ==> x in members - {s[0]};
      NoDupSize(rest, members - {s[0]});
      if |s| == |members| {
        forall x | x in members ensures x in s {
          if x != s[0] { assert x in members - {s[0]}; assert x in rest; }
        }
      }
    }
  }

  /** A part of a set is not larger, and as large only if it is all. */
  lemma SubsetSize<T>(part: set<T>, all: set<T>)
    requires part <= all
    ensures |part| <= |all|
    ensures |part| == |all| ==> part == all
  {
    assert all == part + (all - part);
  }
}
