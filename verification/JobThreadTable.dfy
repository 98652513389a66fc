/**
 The table from thread ids to job runners (JobManager.cpp:132-148, 173-183): open addressing with
 linear probing, one slot for each possible runner. The hash is any function of the id.
 */
module JobThreadTable {
  import opened Sequences

  /** `MaximumRunnerCount`: the size of the table, and also the largest number of runners. */
  const SLOTS: nat := 64

  type ThreadId = nat

  datatype Runner = Runner(number: nat, id: ThreadId)

  type Slots = s: seq<Option<Runner>> | |s| == 64 witness seq(64, _ => None)

  /** The next slot, going round. */
  function After(i: nat): (j: nat)
    requires i < SLOTS
    ensures j < SLOTS
  {
    if i + 1 < SLOTS then i + 1 else 0
  }

  lemma AfterIs(i: nat)
    requires i < SLOTS
    ensures (i + 1) % SLOTS == After(i)
  {
  }

  /** The `k`-th slot that is probed from `start` on. */
  function Probe(start: nat, k: nat): (i: nat)
    ensures i < SLOTS
  {
    if k == 0 then start % SLOTS else After(Probe(start, k - 1))
  }

  lemma {:induction false} ProbeAt(start: nat, k: nat)
    requires k <= SLOTS
    ensures var h := Probe(start, 0); Probe(start, k) == if h + k < SLOTS then h + k else h + k - SLOTS
  {
    if k > 0 { ProbeAt(start, k - 1); }
  }

  /** The slots that hold a runner. */
  function Occupied(s: Slots): set<nat> {
    set i | 0 <= i < SLOTS && s[i].Some?
  }

  /** A probe for `id` stops here: an empty slot, or the runner with that id. */
  predicate Stops(s: Slots, id: ThreadId, i: nat)
    requires i < SLOTS
  {
    s[i].None? || s[i].value.id == id
  }

  /** How many steps it takes from slot `i` to slot `j`, going round. */
  function Distance(i: nat, j: nat): nat
    requires i < SLOTS && j < SLOTS
  {
    if i <= j then j - i else j + SLOTS - i
  }

  /** The runner is in slot `p`, and no slot that is probed before it is empty. */
  ghost predicate Placed(s: Slots, start: nat, r: Runner, p: nat) {
    && p < SLOTS && s[p] == Some(r)
    && Passed(s, start, Distance(Probe(start, 0), p))
  }

  /** The first `steps` slots that are probed are taken. */
  ghost predicate Passed(s: Slots, start: nat, steps: nat) {
    forall k {:trigger Probe(start, k)} :: 0 <= k < steps ==> s[Probe(start, k)].Some?
  }

  lemma PassedOne(s: Slots, start: nat, steps: nat)
    requires Passed(s, start, steps) && s[Probe(start, steps)].Some?
    ensures Passed(s, start, steps + 1)
  {
  }

  lemma StillPlaced(s: Slots, i: nat, x: Runner, start: nat, r: Runner, p: nat)
    requires i < SLOTS && s[i].None? && Placed(s, start, r, p)
    ensures Placed(s[i := Some(x)], start, r, p)
  {
  }

  /** The table has room exactly as long as a slot is empty. */
  lemma Room(s: Slots)
    ensures |Occupied(s)| < SLOTS <==> exists i :: 0 <= i < SLOTS && s[i].None?
  {
    RoomAmong(s, Occupied(s), SLOTS);
  }

  lemma RoomAmong(s: seq<Option<Runner>>, occupied: set<nat>, n: nat)
    requires |s| == n && forall i :: i in occupied <==> 0 <= i < n && s[i].Some?
    ensures |occupied| < n <==> exists i :: 0 <= i < n && s[i].None?
  {
    var all := Upto(n);
    if i :| 0 <= i < n && s[i].None? {
      SubsetSize(occupied, all - {i});
    } else {
      assert occupied == all;
    }
  }

  lemma OneMore(s: Slots, i: nat, x: Runner)
    requires i < SLOTS && s[i].None?
    ensures |Occupied(s[i := Some(x)])| == |Occupied(s)| + 1
  {
    assert Occupied(s[i := Some(x)]) == Occupied(s) + {i};
  }

  /** All runners up to `i`, and no others, are in the map. */
  ghost predicate Filled(m: map<ThreadId, Runner>, all: seq<Runner>, i: nat) {
    && i <= |all|
    && (forall k {:trigger all[k]} :: 0 <= k < i ==> all[k].id in m && m[all[k].id] == all[k])
    && (forall id :: id in m ==> exists k :: 0 <= k < i && all[k].id == id)
  }

  predicate Distinct(all: seq<Runner>) {
    forall i, j {:trigger all[i], all[j]} :: 0 <= i < j < |all| ==> all[i].id != all[j].id
  }

  lemma FilledNext(m: map<ThreadId, Runner>, all: seq<Runner>, i: nat)
    requires Distinct(all) && i < |all| && Filled(m, all, i)
    ensures all[i].id !in m && Filled(m[all[i].id := all[i]], all, i + 1)
  {
    var m' := m[all[i].id := all[i]];
    forall k | 0 <= k < i + 1 ensures all[k].id in m' && m'[all[k].id] == all[k] {
      if k < i { assert all[k].id in m; }
    }
    forall id | id in m' ensures exists k :: 0 <= k < i + 1 && all[k].id == id {
      if id == all[i].id { assert all[i].id == id; } else { var k :| 0 <= k < i && all[k].id == id; }
    }
  }

  /** After so many steps the probe is at `index`, has passed taken slots only, and the target is still to come. */
  ghost predicate Probing(s: Slots, start: nat, target: nat, steps: nat, index: nat)
    requires target < SLOTS && index < SLOTS
  {
    && index == Probe(start, steps) && steps == Distance(Probe(start, 0), index)
    && steps <= Distance(Probe(start, 0), target) && Passed(s, start, steps)
  }

  lemma OnePast(s: Slots, start: nat, target: nat, steps: nat, index: nat)
    requires target < SLOTS && index < SLOTS && Probing(s, start, target, steps, index) && index != target && s[index].Some?
    ensures Probing(s, start, target, steps + 1, After(index)) && After(index) == (index + 1) % SLOTS
  {
    NextProbe(start, steps, target);
    PassedOne(s, start, steps);
    AfterIs(index);
  }

  class Table {
    const slots: array<Option<Runner>>       // `m_jobThreadIdLookup`
    const hash: ThreadId -> nat              // `Math::Hash`
    ghost var runners: map<ThreadId, Runner> // what has been inserted
    ghost var place: map<ThreadId, nat>      // in which slot

    ghost predicate Valid()
      reads this, slots
    {
      && slots.Length == SLOTS && place.Keys == runners.Keys
      && (forall id {:trigger place[id]} :: id in runners ==> runners[id].id == id && Placed(slots[..], hash(id), runners[id], place[id]))
      && (forall i {:trigger slots[i]} :: 0 <= i < SLOTS && slots[i].Some? ==> slots[i].value.id in runners && place[slots[i].value.id] == i)
      && |runners| == |Occupied(slots[..])|
    }

    constructor (hash: ThreadId -> nat)
      ensures Valid() && runners == map[] && this.hash == hash && fresh(slots)
    {
      this.hash := hash;
      slots := new Option<Runner>[SLOTS](_ => None);
      runners, place := map[], map[];
      new;
      assert Occupied(slots[..]) == {};
    }

    /** There is a slot for one more, as long as not all are taken. */
    lemma SlotLeft()
      requires Valid()
      ensures |runners| < SLOTS <==> exists i :: 0 <= i < SLOTS && slots[i].None?
    {
      Room(slots[..]);
    }

    /** The place of a runner holds it, and any other slot with its id does not exist. */
    lemma OwnSlot(id: ThreadId, i: nat)
      requires Valid() && i < SLOTS && slots[i].Some? && slots[i].value.id == id
      ensures id in runners && i == place[id] && slots[i] == Some(runners[id])
    {
    }

    /** Probing for a runner that is there comes to no empty slot before its place. */
    lemma OnTheWay(id: ThreadId, steps: nat)
      requires Valid() && id in runners && steps <= Distance(Probe(hash(id), 0), place[id])
      ensures slots[Probe(hash(id), steps)].Some?
    {
      assert Placed(slots[..], hash(id), runners[id], place[id]);
      if steps == Distance(Probe(hash(id), 0), place[id]) { Reaches(hash(id), place[id]); }
      assert slots[..][Probe(hash(id), steps)] == slots[Probe(hash(id), steps)];
    }

    /** The loop of `GetJobThreadIndexFromId`: it ends, as a slot to stop at is still to come. */
    method ProbeFor(id: ThreadId, ghost target: nat) returns (index: nat, ghost steps: nat)
      requires slots.Length == SLOTS && target < SLOTS && Stops(slots[..], id, target)
      ensures index < SLOTS && Stops(slots[..], id, index) && Probing(slots[..], hash(id), target, steps, index)
    {
      steps := 0;
      index := hash(id) % SLOTS;
      while slots[index].Some? && slots[index].value.id != id
        invariant index < SLOTS && Probing(slots[..], hash(id), target, steps, index)
        decreases Distance(Probe(hash(id), 0), target) - steps
      {
        OnePast(slots[..], hash(id), target, steps, index);
        index := (index + 1) % SLOTS;
        steps := steps + 1;
      }
    }

    /** `GetJobThreadIndexFromId`: the slot of the runner with this id, or an empty slot if there is none. */
    method IndexFromId(id: ThreadId) returns (index: nat)
      requires Valid() && (id in runners || |runners| < SLOTS)
      ensures index < SLOTS
      ensures id in runners ==> index == place[id] && slots[index] == Some(runners[id])
      ensures id !in runners ==> slots[index].None?
      ensures Passed(slots[..], hash(id), Distance(Probe(hash(id), 0), index))
    {
      SlotLeft();
      ghost var target: nat :| target < SLOTS && (if id in runners then target == place[id] else slots[target].None?);
      ghost var steps;
      index, steps := ProbeFor(id, target);
      if slots[index].Some? {
        OwnSlot(id, index);
      } else if id in runners {
        OnTheWay(id, steps);
      }
    }

    /** The slot is assigned (JobManager.cpp:132-137). */
    method Insert(r: Runner)
      requires Valid() && r.id !in runners && |runners| < SLOTS
      modifies this, slots
      ensures Valid() && runners == old(runners)[r.id := r] && |runners| == old(|runners|) + 1
    {
      var i := IndexFromId(r.id);
      ghost var before, map0, place0 := slots[..], runners, place;
      OneMore(before, i, r);
      slots[i] := Some(r);
      runners, place := runners[r.id := r], place[r.id := i];
      assert slots[..] == before[i := Some(r)];
      forall id | id in runners ensures runners[id].id == id && Placed(slots[..], hash(id), runners[id], place[id]) {
        if id != r.id {
          assert place0[id] == place[id];
          StillPlaced(before, i, r, hash(id), runners[id], place[id]);
        }
      }
    }

    /** The lookup of a runner by its thread id: none when no runner has it. */
    method Find(id: ThreadId) returns (r: Option<Runner>)
      requires Valid() && (id in runners || |runners| < SLOTS)
      ensures r == if id in runners then Some(runners[id]) else None
    {
      var i := IndexFromId(id);
      return slots[i];
    }

    /** `StartRunners`: all runners are inserted, in whatever order; ids are distinct. */
    method Fill(all: seq<Runner>)
      requires Valid() && runners == map[] && |all| <= SLOTS
      requires Distinct(all)
      modifies this, slots
      ensures Valid() && |runners| == |all| && Filled(runners, all, |all|)
    {
      for i := 0 to |all|
        invariant Valid() && |runners| == i && Filled(runners, all, i)
      {
        FilledNext(runners, all, i);
        Insert(all[i]);
      }
    }

    /**
     When a probe ends: for an id that was not inserted, exactly when a slot is left. A table with all
     64 runners has none, and the loop for an unknown id then goes round forever.
     */
    lemma ProbeEnds(id: ThreadId)
      requires Valid()
      ensures (exists k :: 0 <= k && Stops(slots[..], id, Probe(hash(id), k))) <==> id in runners || |runners| < SLOTS
    {
      SlotLeft();
      if id in runners {
        Reaches(hash(id), place[id]);
      } else if |runners| < SLOTS {
        var i :| 0 <= i < SLOTS && slots[i].None?;
        Reaches(hash(id), i);
      }
    }
  }

  function Upto(n: nat): (r: set<nat>)
    ensures |r| == n && forall i :: i in r <==> 0 <= i < n
  {
    if n == 0 then {} else Upto(n - 1) + {n - 1}
  }

  lemma NextProbe(start: nat, steps: nat, target: nat)
    requires target < SLOTS && steps <= Distance(Probe(start, 0), target) && Probe(start, steps) != target
    ensures Probe(start, steps + 1) == After(Probe(start, steps))
    ensures steps + 1 <= Distance(Probe(start, 0), target) && steps + 1 == Distance(Probe(start, 0), Probe(start, steps + 1))
  {
    ProbeAt(start, 0);
    ProbeAt(start, steps);
    ProbeAt(start, steps + 1);
  }

  /** Every slot is probed at some time. */
  lemma Reaches(start: nat, i: nat)
    requires i < SLOTS
    ensures Probe(start, Distance(Probe(start, 0), i)) == i
  {
    ProbeAt(start, Distance(Probe(start, 0), i));
  }
}
