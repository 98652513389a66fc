/**
 Queues of free slice spans (segment.cpp:246-283), as the doubly linked lists they are. The links
 live in the slice records, which are found by address. Each operation is proved to be the list
 operation it stands for.
 */
module SpanQueues {
  import opened Sequences

  type Addr = nat

  /** A slice, by the address of its segment (`_mi_ptr_segment`) and its index there. */
  datatype Ref = Ref(seg: Addr, index: nat)

  datatype Links = Links(prev: Option<Ref>, next: Option<Ref>)

  const UNLINKED := Links(None, None)

  function IndexOf<T(==)>(s: seq<T>, x: T): (k: nat)
    requires x in s
    ensures k < |s| && s[k] == x
  {
    if s[0] == x then 0 else 1 + IndexOf(s[1..], x)
  }

  /** `s` without (the first) `x`. */
  function Without<T(==)>(s: seq<T>, x: T): seq<T> {
    if x in s then var k := IndexOf(s, x); s[..k] + s[k + 1..] else s
  }

  lemma WithoutMembers<T>(s: seq<T>, x: T)
    requires NoDup(s)
    ensures forall y :: y in Without(s, x) <==> y in s && y != x
    ensures NoDup(Without(s, x))
  {
    if x in s {
      var k := IndexOf(s, x);
      var r := Without(s, x);
      forall y | y in s && y != x ensures y in r {
        var i :| 0 <= i < |s| && s[i] == y;
        assert r[if i < k then i else i - 1] == y;
      }
    }
  }

  function PrevAt(nodes: seq<Ref>, i: nat): Option<Ref>
    requires i < |nodes|
  {
    if i == 0 then None else Some(nodes[i - 1])
  }

  function NextAt(nodes: seq<Ref>, i: nat): Option<Ref>
    requires i < |nodes|
  {
    if i + 1 == |nodes| then None else Some(nodes[i + 1])
  }

  /** The records of `nodes` are linked in this order, and only once each. */
  ghost predicate Linked(mem: map<Ref, Links>, nodes: seq<Ref>) {
    && NoDup(nodes)
    && forall i {:trigger mem[nodes[i]]} :: 0 <= i < |nodes| ==>
         nodes[i] in mem && mem[nodes[i]] == Links(PrevAt(nodes, i), NextAt(nodes, i))
  }

  /** The records after the pointer updates of `mi_span_queue_delete`. */
  function Unlink(mem: map<Ref, Links>, a: Ref): map<Ref, Links>
    requires a in mem
    requires mem[a].prev.Some? ==> mem[a].prev.value in mem
    requires mem[a].next.Some? ==> mem[a].next.value in mem
  {
    var l := mem[a];
    var mem1 := if l.prev.Some? then mem[l.prev.value := mem[l.prev.value].(next := l.next)] else mem;
    var mem2 := if l.next.Some? then mem1[l.next.value := mem1[l.next.value].(prev := l.prev)] else mem1;
    mem2[a := UNLINKED]
  }

  /** The record of another slice afterwards. */
  lemma UnlinkAt(mem: map<Ref, Links>, a: Ref, b: Ref)
    requires a in mem && b in mem && b != a
    requires mem[a].prev.Some? ==> mem[a].prev.value in mem
    requires mem[a].next.Some? ==> mem[a].next.value in mem
    ensures b in Unlink(mem, a)
    ensures Unlink(mem, a)[b].prev == if mem[a].next == Some(b) then mem[a].prev else mem[b].prev
    ensures Unlink(mem, a)[b].next == if mem[a].prev == Some(b) then mem[a].next else mem[b].next
  {
  }

  lemma UnlinkKeeps(mem: map<Ref, Links>, nodes: seq<Ref>, k: nat)
    requires Linked(mem, nodes) && k < |nodes|
    requires nodes[k] in mem && (forall i :: 0 <= i < |nodes| ==> nodes[i] in mem)
    ensures Linked(Unlink(mem, nodes[k]), nodes[..k] + nodes[k + 1..])
  {
    var rest := nodes[..k] + nodes[k + 1..];
    var mem' := Unlink(mem, nodes[k]);
    forall i | 0 <= i < |rest| ensures rest[i] in mem' && mem'[rest[i]] == Links(PrevAt(rest, i), NextAt(rest, i)) {
      var j := if i < k then i else i + 1;
      assert rest[i] == nodes[j] && nodes[j] != nodes[k];
      assert mem[nodes[j]] == Links(PrevAt(nodes, j), NextAt(nodes, j));
      assert mem[nodes[k]] == Links(PrevAt(nodes, k), NextAt(nodes, k));
      UnlinkAt(mem, nodes[k], nodes[j]);
    }
  }

  /** The records after the pointer updates of `mi_span_queue_push`; `first` is the front of the queue before. */
  function Link(mem: map<Ref, Links>, first: Option<Ref>, a: Ref): map<Ref, Links>
    requires first.Some? ==> first.value in mem && first.value != a
  {
    var mem1 := mem[a := Links(None, first)];
    if first.Some? then mem1[first.value := mem1[first.value].(prev := Some(a))] else mem1
  }

  /** The updates put the slice in front of the queue, and touch no record outside it. */
  lemma Linking(mem: map<Ref, Links>, nodes: seq<Ref>, a: Ref)
    requires Linked(mem, nodes) && a in mem && a !in nodes && forall b :: b in nodes ==> b in mem
    ensures Linked(Link(mem, First(nodes), a), [a] + nodes) && Link(mem, First(nodes), a).Keys == mem.Keys
    ensures forall b :: b in mem && b !in nodes && b != a ==> Link(mem, First(nodes), a)[b] == mem[b]
  {
    var mem', nodes' := Link(mem, First(nodes), a), [a] + nodes;
    forall i | 0 <= i < |nodes'| ensures nodes'[i] in mem' && mem'[nodes'[i]] == Links(PrevAt(nodes', i), NextAt(nodes', i)) {
      if i > 0 {
        assert nodes'[i] == nodes[i - 1];
        assert mem[nodes[i - 1]] == Links(PrevAt(nodes, i - 1), NextAt(nodes, i - 1));
      }
    }
  }

  function Last<T>(s: seq<T>): Option<T> {
    if s == [] then None else Some(s[|s| - 1])
  }

  /** What the pointer updates do to the queue that the slice is in, if it is in one. */
  lemma Unlinked(mem: map<Ref, Links>, nodes: seq<Ref>, a: Ref)
    requires Linked(mem, nodes) && a in mem && (a in nodes || mem[a] == UNLINKED) && forall b :: b in nodes ==> b in mem
    ensures mem[a].prev.Some? ==> mem[a].prev.value in mem
    ensures mem[a].next.Some? ==> mem[a].next.value in mem
    ensures Linked(Unlink(mem, a), Without(nodes, a)) && Unlink(mem, a).Keys == mem.Keys && Unlink(mem, a)[a] == UNLINKED
    ensures forall b :: b in mem && b !in nodes ==> Unlink(mem, a)[b] == mem[b]
    ensures forall b :: b in Without(nodes, a) ==> b in mem
  {
    WithoutMembers(nodes, a);
    if a in nodes {
      var k := IndexOf(nodes, a);
      assert mem[nodes[k]] == Links(PrevAt(nodes, k), NextAt(nodes, k));
      UnlinkKeeps(mem, nodes, k);
    }
  }

  /** The new ends of the queue. */
  lemma NewEnds(mem: map<Ref, Links>, nodes: seq<Ref>, a: Ref)
    requires Linked(mem, nodes) && a in mem
    ensures First(Without(nodes, a)) == if First(nodes) == Some(a) then mem[a].next else First(nodes)
    ensures Last(Without(nodes, a)) == if Last(nodes) == Some(a) then mem[a].prev else Last(nodes)
  {
    if a in nodes {
      var k := IndexOf(nodes, a);
      assert mem[nodes[k]] == Links(PrevAt(nodes, k), NextAt(nodes, k));
    }
  }

  class SpanQueue {
    var first: Option<Ref>
    var last: Option<Ref>
    var mem: map<Ref, Links>       // `prev` and `next` of every slice record
    var xblock: map<Ref, nat>      // `xblock_size` of every slice record
    ghost var nodes: seq<Ref>      // the queue, front to back

    ghost predicate Valid()
      reads this
    {
      && Linked(mem, nodes) && mem.Keys == xblock.Keys
      && first == First(nodes)
      && last == Last(nodes)
      && forall a :: a in nodes ==> a in mem
    }

    /** `mi_span_queue_push`: at the front; the span becomes free. */
    method Push(a: Ref)
      requires Valid() && a in mem && a !in nodes && mem[a] == UNLINKED
      modifies this
      ensures Valid() && nodes == [a] + old(nodes) && mem.Keys == old(mem.Keys)
      ensures xblock == old(xblock)[a := 0]
      ensures forall b :: b in mem && b !in nodes ==> mem[b] == old(mem)[b]
    {
      ghost var mem0 := mem;
      Linking(mem, nodes, a);
      mem := mem[a := Links(None, first)];
      var next := first;
      first := Some(a);
      if next.Some? {
        mem := mem[next.value := mem[next.value].(prev := Some(a))];
      } else {
        last := Some(a);
      }
      assert mem == Link(mem0, next, a);
      xblock := xblock[a := 0];
      nodes := [a] + nodes;
    }

    /** The links around `a` close, and its own are cleared (segment.cpp:272-273, 276-277, 280-281). */
    method Relink(a: Ref)
      requires a in mem && (mem[a].prev.Some? ==> mem[a].prev.value in mem) && (mem[a].next.Some? ==> mem[a].next.value in mem)
      modifies this`mem
      ensures mem == Unlink(old(mem), a)
    {
      var l := mem[a];
      if l.prev.Some? {
        mem := mem[l.prev.value := mem[l.prev.value].(next := l.next)];
      }
      if l.next.Some? {
        mem := mem[l.next.value := mem[l.next.value].(prev := l.prev)];
      }
      mem := mem[a := UNLINKED];
    }

    /** The ends of the queue when `a` with the links `l` leaves it (segment.cpp:274-279). */
    method MoveEnds(a: Ref, l: Links)
      modifies this`first, this`last
      ensures first == if old(first) == Some(a) then l.next else old(first)
      ensures last == if old(last) == Some(a) then l.prev else old(last)
    {
      if first == Some(a) {
        first := l.next;
      }
      if last == Some(a) {
        last := l.prev;
      }
    }

    /** `mi_span_queue_delete`: also when the slice is in no queue, as happens during reclaim. */
    method Delete(a: Ref)
      requires Valid() && a in mem && (a in nodes || mem[a] == UNLINKED)
      modifies this
      ensures Valid() && nodes == Without(old(nodes), a) && mem.Keys == old(mem.Keys)
      ensures mem[a] == UNLINKED && xblock == old(xblock)[a := 1]
      ensures forall b :: b in mem && b !in old(nodes) ==> mem[b] == old(mem)[b]
    {
      ghost var before := nodes;
      Unlinked(mem, nodes, a);
      NewEnds(mem, nodes, a);
      MoveEnds(a, mem[a]);
      Relink(a);
      xblock := xblock[a := 1];
      nodes := Without(before, a);
    }
  }
}
