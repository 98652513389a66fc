/**
 The queues of a thread as the linked lists they are (segment.cpp:246-283, 764-789): the pointer updates of
 a push and of a removal do to the queues of `SegmentLayout`, which are sequences, what these say.
 All queues share the slice records, in which the links are.
 */
module SpanLinks {
  import opened Sequences
  import opened SpanBins
  import opened SpanQueues
  import opened SegmentLayout

  /** Every queue is linked through the records; a slice is in one queue at most, and else has no links. */
  ghost predicate QueuesLinked(mem: map<Ref, Links>, bins: Bins) {
    && BinsOk(bins)
    && (forall b :: 0 <= b < |bins| ==> Linked(mem, bins[b]))
    && (forall r: Ref, b: nat, c: nat {:trigger InBin(bins, r, b), InBin(bins, r, c)} :: InBin(bins, r, b) && InBin(bins, r, c) ==> b == c)
    && (forall r: Ref, b: nat {:trigger InBin(bins, r, b)} :: InBin(bins, r, b) ==> r in mem)
    && (forall r: Ref {:trigger mem[r]} :: r in mem && (forall b: nat :: !InBin(bins, r, b)) ==> mem[r] == UNLINKED)
  }

  /** A queue that shares no slice with the records that change stays linked. */
  lemma StillLinked(mem: map<Ref, Links>, mem': map<Ref, Links>, nodes: seq<Ref>)
    requires Linked(mem, nodes) && forall r :: r in nodes ==> r in mem && r in mem' && mem'[r] == mem[r]
    ensures Linked(mem', nodes)
  {
    forall i | 0 <= i < |nodes| ensures nodes[i] in mem' && mem'[nodes[i]] == Links(PrevAt(nodes, i), NextAt(nodes, i)) {
      assert nodes[i] in nodes && mem[nodes[i]] == Links(PrevAt(nodes, i), NextAt(nodes, i));
    }
  }

  /** One queue and the records of its slices change; the other queues stay linked. */
  lemma OneChanges(mem: map<Ref, Links>, mem': map<Ref, Links>, bins: Bins, b: nat, nodes: seq<Ref>, a: Ref)
    requires QueuesLinked(mem, bins) && b < |bins| && Linked(mem', nodes) && mem'.Keys == mem.Keys
    requires forall r :: r in mem && r !in bins[b] && r != a ==> mem'[r] == mem[r]
    requires forall c: nat {:trigger InBin(bins, a, c)} :: InBin(bins, a, c) ==> c == b
    ensures forall c :: 0 <= c < |bins| ==> Linked(mem', if c == b then nodes else bins[c])
  {
    forall c | 0 <= c < |bins| ensures Linked(mem', if c == b then nodes else bins[c]) {
      if c != b {
        forall r | r in bins[c] ensures r in mem && mem'[r] == mem[r] {
          assert InBin(bins, r, c);
          assert !InBin(bins, r, b);
          assert r != a;
        }
        StillLinked(mem, mem', bins[c]);
      }
    }
  }

  /** `mi_span_queue_push`, of a slice that is in no queue. */
  lemma PushLinks(mem: map<Ref, Links>, bins: Bins, a: Ref, count: nat)
    requires QueuesLinked(mem, bins) && a in mem && count <= SLICES_PER_SEGMENT && forall b: nat :: !InBin(bins, a, b)
    ensures Bin8(count) < |bins| && (bins[Bin8(count)] != [] ==> bins[Bin8(count)][0] in mem && bins[Bin8(count)][0] != a)
    ensures QueuesLinked(Link(mem, First(bins[Bin8(count)]), a), Pushed(bins, a, count))
  {
    BinInRange(count);
    var b := Bin8(count);
    var nodes := bins[b];
    forall r | r in nodes ensures r in mem { assert InBin(bins, r, b); }
    assert a !in nodes by { assert !InBin(bins, a, b); }
    Linking(mem, nodes, a);
    var mem', bins' := Link(mem, First(nodes), a), Pushed(bins, a, count);
    OneChanges(mem, mem', bins, b, [a] + nodes, a);
    PushMembers(bins, a, count);
    forall r: Ref | r in mem' && (forall c: nat :: !InBin(bins', r, c)) ensures mem'[r] == UNLINKED {
      assert !InBin(bins', r, b);
      forall c: nat ensures !InBin(bins, r, c) { assert !InBin(bins', r, c); }
      assert mem[r] == UNLINKED;
    }
  }

  /** A slice in no queue, as during reclaim: the updates change nothing, and all queues are as before. */
  lemma RemoveUnqueued(mem: map<Ref, Links>, bins: Bins, a: Ref, count: nat)
    requires QueuesLinked(mem, bins) && a in mem && forall b: nat :: !InBin(bins, a, b)
    ensures mem[a] == UNLINKED && Unlink(mem, a) == mem && Removed(bins, a, count) == bins
  {
    assert !InBin(bins, a, Bin8(count));
  }

  /** `mi_span_queue_delete`, of a slice that is in the queue for its size, or in none. */
  lemma RemoveLinks(mem: map<Ref, Links>, bins: Bins, a: Ref, count: nat)
    requires QueuesLinked(mem, bins) && a in mem && count <= SLICES_PER_SEGMENT
    requires InBin(bins, a, Bin8(count)) || forall b: nat :: !InBin(bins, a, b)
    ensures mem[a].prev.Some? ==> mem[a].prev.value in mem
    ensures mem[a].next.Some? ==> mem[a].next.value in mem
    ensures QueuesLinked(Unlink(mem, a), Removed(bins, a, count)) && Unlink(mem, a)[a] == UNLINKED
  {
    if InBin(bins, a, Bin8(count)) {
      RemoveQueued(mem, bins, a, count);
    } else {
      RemoveUnqueued(mem, bins, a, count);
    }
  }

  lemma RemoveQueued(mem: map<Ref, Links>, bins: Bins, a: Ref, count: nat)
    requires QueuesLinked(mem, bins) && a in mem && count <= SLICES_PER_SEGMENT && InBin(bins, a, Bin8(count))
    ensures mem[a].prev.Some? ==> mem[a].prev.value in mem
    ensures mem[a].next.Some? ==> mem[a].next.value in mem
    ensures QueuesLinked(Unlink(mem, a), Removed(bins, a, count)) && Unlink(mem, a)[a] == UNLINKED
  {
    var b := Bin8(count);
    var nodes := bins[b];
    forall r | r in nodes ensures r in mem { assert InBin(bins, r, b); }
    Unlinked(mem, nodes, a);
    var mem', bins' := Unlink(mem, a), Removed(bins, a, count);
    OneChanges(mem, mem', bins, b, Without(nodes, a), a);
    RemoveMembers(bins, a, count);
    forall r: Ref | r in mem' && (forall c: nat :: !InBin(bins', r, c)) ensures mem'[r] == UNLINKED {
      if r != a {
        forall c: nat ensures !InBin(bins, r, c) { assert !InBin(bins', r, c); }
        assert !InBin(bins, r, b);
        assert mem[r] == UNLINKED;
      }
    }
  }
}
