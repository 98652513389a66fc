/**
 Committing and purging the slices of a normal segment (segment.cpp:493-726). MI_COMMIT_SIZE and
 MI_MINIMAL_COMMIT_SIZE are the slice size, so the aligned range of whole slices is the range
 itself. What the operating system answers is a parameter.

 `live` are the slices of spans in use. Every purge has the precondition that it meets none of
 them: the callers prove that no purge, immediate or delayed, touches a page in use.
 */
module SegmentMasks {
  import opened CommitMasks

  /** `_mi_clock_now` and the options for delayed purges. */
  datatype Clock = Clock(now: int, delay: int, extendDelay: int)

  /** Where the maximal run of `s` that `b` is in begins. */
  ghost function RunStart(s: set<nat>, b: nat): nat {
    if b == 0 || b - 1 !in s then b else RunStart(s, b - 1)
  }

  /** The bits of the runs for which the operating system answers that it decommitted them. */
  ghost function Decommitted(s: set<nat>, decommits: nat -> bool): set<nat> {
    set b | b in s && decommits(RunStart(s, b))
  }

  ghost function DecommittedBelow(s: set<nat>, decommits: nat -> bool, end: nat): set<nat> {
    set b | b in s && b < end && decommits(RunStart(s, b))
  }

  lemma {:induction false} RunStartIs(s: set<nat>, start: nat, b: nat)
    requires start <= b && (forall k :: start <= k < b ==> k in s) && (start == 0 || start - 1 !in s)
    ensures RunStart(s, b) == start
    decreases b
  {
    if start < b { RunStartIs(s, start, b - 1); }
  }

  /** What one round of the loop over the runs adds. */
  lemma OneRun(s: set<nat>, decommits: nat -> bool, end: nat, start: nat, count: nat)
    requires IsNextRun(s, end, start, count) && count > 0 && (end == 0 || end !in s)
    ensures DecommittedBelow(s, decommits, start + count)
         == DecommittedBelow(s, decommits, end) + if decommits(start) then Range(start, count) else {}
  {
    assert start == 0 || start - 1 !in s;
    forall b | b in s && end <= b < start + count ensures b in Range(start, count) && RunStart(s, b) == start {
      RunStartIs(s, start, b);
    }
  }

  /** A run of `s` that cannot be made longer. */
  ghost predicate IsRun(s: set<nat>, start: nat, count: nat) {
    count > 0 && Range(start, count) <= s && (start == 0 || start - 1 !in s) && start + count !in s
  }

  /** Of what was committed, `after` lacks the runs of `s` that the operating system decommitted, and nothing else. */
  ghost predicate RunsPurged(s: set<nat>, before: set<nat>, after: set<nat>, decommits: nat -> bool) {
    && after <= before && before - s <= after
    && forall start: nat, count: nat {:trigger IsRun(s, start, count)} :: IsRun(s, start, count) ==>
         if decommits(start) then Range(start, count) !! after else Range(start, count) * before <= after
  }

  lemma DecommittedRuns(s: set<nat>, before: set<nat>, decommits: nat -> bool)
    ensures RunsPurged(s, before, before - Decommitted(s, decommits), decommits)
  {
    var after := before - Decommitted(s, decommits);
    forall start: nat, count: nat | IsRun(s, start, count)
      ensures if decommits(start) then Range(start, count) !! after else Range(start, count) * before <= after
    {
      forall b | b in Range(start, count) ensures b in Decommitted(s, decommits) <==> decommits(start) { RunStartIs(s, start, b); }
    }
  }

  lemma {:induction false} RunStartBefore(s: set<nat>, b: nat)
    requires b in s
    ensures var start := RunStart(s, b);
            start <= b && Range(start, b + 1 - start) <= s && (start == 0 || start - 1 !in s)
    decreases b
  {
    if b > 0 && b - 1 in s { RunStartBefore(s, b - 1); }
  }

  lemma {:induction false} RunEnd(s: set<nat>, start: nat, count: nat, bound: nat)
    requires count > 0 && Range(start, count) <= s && (start == 0 || start - 1 !in s) && forall b :: b in s ==> b < bound
    ensures exists more: nat :: more >= count && IsRun(s, start, more)
    decreases bound - (start + count)
  {
    if start + count !in s {
      assert IsRun(s, start, count);
    } else {
      assert Range(start, count + 1) <= s && start + count < bound;
      RunEnd(s, start, count + 1, bound);
    }
  }

  /** Every bit is in a run, so `RunsPurged` decides on each. */
  lemma InARun(s: set<nat>, b: nat, bound: nat)
    requires b in s && forall k :: k in s ==> k < bound
    ensures exists start: nat, count: nat {:trigger IsRun(s, start, count)} :: IsRun(s, start, count) && b in Range(start, count)
  {
    RunStartBefore(s, b);
    var start := RunStart(s, b);
    RunEnd(s, start, b + 1 - start, bound);
    var more: nat :| more >= b + 1 - start && IsRun(s, start, more);
    assert b in Range(start, more);
  }

  /** The masks as sets of slices, and when the scheduled purges are due. */
  datatype Masks = Masks(commit: set<nat>, purge: set<nat>, expire: int)

  /** Everything scheduled is purged, if it is due or forced. */
  ghost function Tried(m: Masks, force: bool, clock: Clock, decommits: nat -> bool): Masks {
    if m.purge == {} || (!force && clock.now < m.expire) then m
    else Masks(m.commit - Decommitted(m.purge, decommits), {}, 0)
  }

  /** Purges were due long enough ago (segment.cpp:678-681). */
  predicate Overdue(expire: int, clock: Clock) {
    expire != 0 && expire <= clock.now && expire + clock.extendDelay <= clock.now
  }

  /** What is committed in the range is scheduled; what is long due is purged along with it. */
  ghost function Scheduled(m: Masks, start: nat, count: nat, clock: Clock, decommits: nat -> bool): Masks {
    if clock.delay == 0 then
      Masks(m.commit - if decommits(start) then Range(start, count) else {}, m.purge - Range(start, count), m.expire)
    else
      var more := m.(purge := m.purge + m.commit * Range(start, count));
      if m.expire == 0 then more.(expire := clock.now + clock.delay)
      else if clock.now < m.expire then more.(expire := m.expire + clock.extendDelay)
      else if clock.now < m.expire + clock.extendDelay then more.(expire := clock.now + clock.extendDelay)
      else Tried(more, true, clock, decommits)
  }

  class PurgeState {
    var commitMask: Mask
    var purgeMask: Mask
    var purgeExpire: int
    const allowPurge: bool
    ghost var live: set<nat>

    ghost predicate Valid()
      reads this
    {
      && Bits(purgeMask) <= Bits(commitMask)
      && live <= Bits(commitMask)
      && live !! Bits(purgeMask)
    }

    ghost function Now(): Masks
      reads this
    {
      Masks(Bits(commitMask), Bits(purgeMask), purgeExpire)
    }

    /** segment.cpp:1011-1037: what is committed at first; nothing is in use or scheduled. */
    constructor (commitMask: Mask, allowPurge: bool)
      ensures Valid() && live == {} && Bits(purgeMask) == {}
      ensures this.commitMask == commitMask && this.allowPurge == allowPurge
    {
      this.commitMask := commitMask;
      this.allowPurge := allowPurge;
      this.purgeExpire := 0;
      this.live := {};
      new;
      purgeMask := CreateEmpty();
    }

    /** `mi_segment_commit` */
    method Commit(start: nat, count: nat, clock: Clock, commitOk: bool) returns (ok: bool)
      requires Valid() && count > 0 && start + count <= MASK_BITS
      modifies this
      ensures Valid() && live == old(live)
      ensures ok <==> commitOk || Range(start, count) <= old(Bits(commitMask))
      ensures ok ==> Bits(commitMask) == old(Bits(commitMask)) + Range(start, count)
      ensures ok ==> Bits(purgeMask) == old(Bits(purgeMask)) - Range(start, count)
      ensures ok ==> purgeExpire == if old(Bits(purgeMask)) !! Range(start, count) then old(purgeExpire) else clock.now + clock.delay
      ensures !ok ==> commitMask == old(commitMask) && purgeMask == old(purgeMask) && purgeExpire == old(purgeExpire)
    {
      var mask := Create(start, count);
      var all := AllSet(commitMask, mask);
      if !all {
        if !commitOk {
          return false;
        }
        commitMask := Set(commitMask, mask);
      }
      var any := AnySet(purgeMask, mask);
      if any {
        purgeExpire := clock.now + clock.delay;
      }
      purgeMask := Clear(purgeMask, mask);
      return true;
    }

    /** `mi_segment_ensure_committed` */
    method EnsureCommitted(start: nat, count: nat, clock: Clock, commitOk: bool) returns (ok: bool)
      requires Valid() && count > 0 && start + count <= MASK_BITS
      modifies this
      ensures Valid() && live == old(live)
      ensures ok <==> commitOk || Range(start, count) <= old(Bits(commitMask))
      ensures ok ==> Bits(commitMask) == old(Bits(commitMask)) + Range(start, count)
      ensures ok ==> Bits(purgeMask) == old(Bits(purgeMask)) - Range(start, count)
      ensures ok ==> purgeExpire == if old(Bits(purgeMask)) !! Range(start, count) then old(purgeExpire) else clock.now + clock.delay
      ensures !ok ==> commitMask == old(commitMask) && purgeMask == old(purgeMask) && purgeExpire == old(purgeExpire)
    {
      var full := IsFull(commitMask);
      var empty := IsEmpty(purgeMask);
      if full && empty {
        assert Range(start, count) <= Range(0, MASK_BITS);
        return true;
      }
      ok := Commit(start, count, clock, commitOk);
    }

    /** `mi_segment_purge`; `decommits` is the answer of `_mi_os_purge`. */
    method Purge(start: nat, count: nat, decommits: bool)
      requires Valid() && count > 0 && start + count <= MASK_BITS
      requires Range(start, count) !! live
      modifies this`commitMask, this`purgeMask
      ensures Valid()
      ensures !allowPurge ==> commitMask == old(commitMask) && purgeMask == old(purgeMask)
      ensures allowPurge ==> Bits(purgeMask) == old(Bits(purgeMask)) - Range(start, count)
      ensures allowPurge ==> Bits(commitMask) == old(Bits(commitMask)) - (if decommits then Range(start, count) else {})
    {
      if !allowPurge {
        return;
      }
      var mask := Create(start, count);
      var any := AnySet(commitMask, mask);
      if any {
        if decommits {
          commitMask := Clear(commitMask, mask);
        }
      }
      purgeMask := Clear(purgeMask, mask);
    }

    /** `mi_segment_try_purge`: purge what is scheduled, run by run. */
    method TryPurge(force: bool, clock: Clock, decommits: nat -> bool)
      requires Valid()
      modifies this`commitMask, this`purgeMask, this`purgeExpire
      ensures Valid()
      ensures Now() == if allowPurge then Tried(old(Now()), force, clock, decommits) else old(Now())
      ensures !allowPurge || old(Bits(purgeMask)) == {} || (!force && clock.now < old(purgeExpire)) ==>
                Bits(commitMask) == old(Bits(commitMask)) && Bits(purgeMask) == old(Bits(purgeMask)) && purgeExpire == old(purgeExpire)
      ensures allowPurge && old(Bits(purgeMask)) != {} && (force || old(purgeExpire) <= clock.now) ==>
                Bits(purgeMask) == {} && purgeExpire == 0 && RunsPurged(old(Bits(purgeMask)), old(Bits(commitMask)), Bits(commitMask), decommits)
    {
      var empty := IsEmpty(purgeMask);
      if !allowPurge || empty {
        return;
      }
      if !force && clock.now < purgeExpire {
        return;
      }
      var mask := purgeMask;
      purgeExpire := 0;
      purgeMask := CreateEmpty();
      PurgeRuns(mask, decommits);
      DecommittedRuns(Bits(mask), old(Bits(commitMask)), decommits);
    }

    /** The loop over the runs (segment.cpp:714-724). */
    method PurgeRuns(mask: Mask, decommits: nat -> bool)
      requires Valid() && allowPurge && Bits(purgeMask) == {} && live !! Bits(mask)
      modifies this`commitMask, this`purgeMask
      ensures Valid() && Bits(purgeMask) == {}
      ensures Bits(commitMask) == old(Bits(commitMask)) - Decommitted(Bits(mask), decommits)
    {
      ghost var bits, before, end := Bits(mask), Bits(commitMask), 0;
      var idx, count := NextRun(mask, 0);
      while count > 0
        invariant Valid() && Bits(purgeMask) == {} && live !! bits
        invariant IsNextRun(bits, end, idx, count) && (end == 0 || end !in bits)
        invariant Bits(commitMask) == before - DecommittedBelow(bits, decommits, end)
        decreases MASK_BITS - idx
      {
        assert Range(idx, count) <= bits;
        Purge(idx, count, decommits(idx));
        OneRun(bits, decommits, end, idx, count);
        end := idx + count;
        idx, count := NextRun(mask, idx + count);
      }
      assert DecommittedBelow(bits, decommits, end) == Decommitted(bits, decommits);
    }

    /** `mi_segment_schedule_purge` */
    method SchedulePurge(start: nat, count: nat, clock: Clock, decommits: nat -> bool)
      requires Valid() && count > 0 && start + count <= MASK_BITS
      requires Range(start, count) !! live
      modifies this`commitMask, this`purgeMask, this`purgeExpire
      ensures Valid()
      ensures Now() == if allowPurge then Scheduled(old(Now()), start, count, clock, decommits) else old(Now())
      ensures !allowPurge ==>
                Bits(commitMask) == old(Bits(commitMask)) && Bits(purgeMask) == old(Bits(purgeMask)) && purgeExpire == old(purgeExpire)
      ensures allowPurge && clock.delay == 0 ==>
                && Bits(purgeMask) == old(Bits(purgeMask)) - Range(start, count) && purgeExpire == old(purgeExpire)
                && Bits(commitMask) == if decommits(start) then old(Bits(commitMask)) - Range(start, count) else old(Bits(commitMask))
      ensures allowPurge && clock.delay != 0 && !Overdue(old(purgeExpire), clock) ==>
                && Bits(purgeMask) == old(Bits(purgeMask)) + old(Bits(commitMask)) * Range(start, count)
                && Bits(commitMask) == old(Bits(commitMask))
                && purgeExpire == if old(purgeExpire) == 0 then clock.now + clock.delay
                                  else if old(purgeExpire) <= clock.now then clock.now + clock.extendDelay
                                  else old(purgeExpire) + clock.extendDelay
      ensures allowPurge && clock.delay != 0 && Overdue(old(purgeExpire), clock) ==>
                var due := old(Bits(purgeMask)) + old(Bits(commitMask)) * Range(start, count);
                && Bits(purgeMask) == {} && purgeExpire == (if due == {} then old(purgeExpire) else 0)
                && RunsPurged(due, old(Bits(commitMask)), Bits(commitMask), decommits)
    {
      if !allowPurge {
        return;
      }
      if clock.delay == 0 {
        Purge(start, count, decommits(start));
      } else {
        var mask := Create(start, count);
        var cmask := Intersect(commitMask, mask);
        purgeMask := Set(purgeMask, cmask);
        if purgeExpire == 0 {
          purgeExpire := clock.now + clock.delay;
        } else if purgeExpire <= clock.now {
          if purgeExpire + clock.extendDelay <= clock.now {
            TryPurge(true, clock, decommits);
          } else {
            purgeExpire := clock.now + clock.extendDelay;
          }
        } else {
          purgeExpire := purgeExpire + clock.extendDelay;
        }
      }
    }
  }
}
