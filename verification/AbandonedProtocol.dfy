/**
 The lists of abandoned segments (segment.cpp:1266-1428, 457-480) as a transition system: one step
 per atomic operation, any number of threads, sequentially consistent atomics, and tags that do not
 wrap around. Segments come from the operating system and go back to it; an address can be used
 again for a new segment.

 `alist`, `vlist`, `chains` and `spot` are history variables: no step looks at them, except that a
 thread starts an operation only on a segment that it holds.
 */
module AbandonedProtocol {
  import opened Sequences

  type Seg = nat
  type Tid = nat

  /** `mi_tagged_segment_t` */
  datatype Word = Word(ptr: Option<Seg>, tag: nat)

  /** Who called `mi_abandoned_visited_revisit`. */
  datatype Caller = FromPop | FromCollect

  datatype Pc =
    | Idle
    | PushLoaded(g: Seg, ts: Word)                     // segment.cpp:1371, about to store the link
    | PushStored(g: Seg, ts: Word)                     // segment.cpp:1373, about to CAS
    | VisitLoaded(g: Seg, seen: Option<Seg>)           // segment.cpp:1305
    | VisitStored(g: Seg, seen: Option<Seg>)           // segment.cpp:1306
    | Emptied                                          // `abandoned` was NULL: about to look at `visited`
    | Exchanging(caller: Caller)                       // segment.cpp:1318
    | Grabbed(first: Seg, caller: Caller)              // segment.cpp:1324
    | SwapSeen(first: Seg, ts: Word, caller: Caller)   // segment.cpp:1329
    | Walking(first: Seg, last: Seg, caller: Caller)   // segment.cpp:1340
    | AtEnd(first: Seg, last: Seg, caller: Caller)     // segment.cpp:1347
    | TailLoaded(first: Seg, last: Seg, ts: Word, caller: Caller)   // segment.cpp:1352
    | TailStored(first: Seg, last: Seg, ts: Word, caller: Caller)   // segment.cpp:1354
    | Entering                                         // segment.cpp:1409, about to count as a reader
    | PopLoading                                       // segment.cpp:1411
    | PopSeen(ts: Word)                                // segment.cpp:1417, about to read the link
    | PopRead(ts: Word, anext: Option<Seg>)            // segment.cpp:1420, about to CAS
    | PopLeaving(got: Option<Seg>)                     // segment.cpp:1421
    | PopClearing(g: Seg)                              // segment.cpp:1424
    | Awaiting(g: Seg)                                 // segment.cpp:1384
    | Freeing(g: Seg)                                  // segment.cpp:479, no reader was seen

  datatype Spot = OnAbandoned | OnVisited | With(t: Tid)

  datatype State = State(
    top: Word,                        // `abandoned`
    visited: Option<Seg>,             // `abandoned_visited`
    readers: int,                     // `abandoned_readers`
    next: map<Seg, Option<Seg>>,      // `abandoned_next` of the segments that are mapped
    pcs: map<Tid, Pc>,
    alist: seq<Seg>,
    vlist: seq<Seg>,
    chains: map<Tid, seq<Seg>>,
    spot: map<Seg, Spot>)

  // ---------------------------------------------------------------- steps

  function Goto(s: State, t: Tid, pc: Pc): State {
    s.(pcs := s.pcs[t := pc])
  }

  predicate At(s: State, t: Tid) {
    t in s.pcs && t in s.chains
  }

  predicate HeldBy(spot: map<Seg, Spot>, g: Seg, t: Tid) {
    g in spot && spot[g] == With(t)
  }

  predicate Holds(s: State, t: Tid, g: Seg) {
    HeldBy(s.spot, g, t) && g in s.next
  }

  /** `mi_tagged_segment`: a new pointer under the next tag. */
  function Tagged(ptr: Option<Seg>, ts: Word): Word {
    Word(ptr, ts.tag + 1)
  }

  function Relabel(spot: map<Seg, Spot>, list: seq<Seg>, to: Spot): map<Seg, Spot> {
    map g | g in spot :: if g in list then to else spot[g]
  }

  /** A thread starts one of the operations. */
  datatype Start =
    | Alloc(g: Seg)
    | Push(g: Seg)
    | Visit(g: Seg)
    | Collect
    | Pop
    | Release(g: Seg)

  ghost predicate CanStart(s: State, t: Tid, a: Start) {
    && At(s, t) && s.pcs[t] == Idle
    && match a
       case Alloc(g) => g !in s.spot
       case Push(g) => Holds(s, t, g)
       case Visit(g) => Holds(s, t, g)
       case Collect => true
       case Pop => true
       case Release(g) => Holds(s, t, g)
  }

  ghost function DoStart(s: State, t: Tid, a: Start): State
    requires CanStart(s, t, a)
  {
    match a
    case Alloc(g) => s.(next := s.next[g := None], spot := s.spot[g := With(t)])
    case Push(g) => Goto(s, t, PushLoaded(g, s.top))
    case Visit(g) => Goto(s, t, VisitLoaded(g, s.visited))
    case Collect => Goto(s, t, if s.visited.None? then Idle else Exchanging(FromCollect))
    case Pop => Goto(s, t, if s.top.ptr.None? then Emptied else Entering)
    case Release(g) => Goto(s, t, Awaiting(g))
  }

  /** The whole of the list in front becomes the abandoned list. */
  function Prepended(s: State, t: Tid, first: Seg, list: seq<Seg>): State {
    s.(top := Tagged(Some(first), s.top), alist := list + s.alist, spot := Relabel(s.spot, list, OnAbandoned))
  }

  /** Where a thread goes when `mi_abandoned_visited_revisit` returns true. */
  function Revisited(caller: Caller): Pc {
    if caller == FromPop then Entering else Idle
  }

  ghost predicate CanPushStep(s: State, t: Tid) {
    At(s, t) && match s.pcs[t]
                case PushLoaded(g, _) => g in s.next
                case PushStored(_, _) => true
                case VisitLoaded(g, _) => g in s.next
                case VisitStored(_, _) => true
                case _ => false
  }

  /** `mi_abandoned_push` and `mi_abandoned_visited_push`; a weak CAS may fail for no reason. */
  ghost function DoPushStep(s: State, t: Tid, spurious: bool): State
    requires CanPushStep(s, t)
  {
    match s.pcs[t]
    case PushLoaded(g, ts) => Goto(s.(next := s.next[g := ts.ptr]), t, PushStored(g, ts))
    case PushStored(g, ts) =>
      if spurious || s.top != ts then Goto(s, t, PushLoaded(g, s.top))
      else Goto(Prepended(s, t, g, [g]), t, Idle)
    case VisitLoaded(g, seen) => Goto(s.(next := s.next[g := seen]), t, VisitStored(g, seen))
    case VisitStored(g, seen) =>
      if spurious || s.visited != seen then Goto(s, t, VisitLoaded(g, s.visited))
      else Goto(s.(visited := Some(g), vlist := [g] + s.vlist, spot := Relabel(s.spot, [g], OnVisited)), t, Idle)
    case _ => s
  }

  ghost predicate CanRevisitStep(s: State, t: Tid) {
    At(s, t) && match s.pcs[t]
                case Emptied => true
                case Exchanging(_) => true
                case Grabbed(_, _) => true
                case SwapSeen(_, _, _) => true
                case Walking(_, last, _) => last in s.next
                case AtEnd(_, _, _) => true
                case TailLoaded(_, last, _, _) => last in s.next
                case TailStored(_, _, _, _) => true
                case _ => false
  }

  /** `mi_abandoned_visited_revisit` */
  ghost function DoRevisitStep(s: State, t: Tid, spurious: bool): State
    requires CanRevisitStep(s, t)
  {
    match s.pcs[t]
    case Emptied => Goto(s, t, if s.visited.None? then Idle else Exchanging(FromPop))
    case Exchanging(caller) =>
      if s.visited.None? then Goto(s, t, Idle)
      else
        var grabbed := s.(visited := None, vlist := [], chains := s.chains[t := s.vlist], spot := Relabel(s.spot, s.vlist, With(t)));
        Goto(grabbed, t, Grabbed(s.visited.value, caller))
    case Grabbed(first, caller) =>
      Goto(s, t, if s.top.ptr.None? then SwapSeen(first, s.top, caller) else Walking(first, first, caller))
    case SwapSeen(first, ts, caller) =>
      if s.top != ts then Goto(s, t, Walking(first, first, caller))
      else Goto(Prepended(s, t, first, s.chains[t]).(chains := s.chains[t := []]), t, Revisited(caller))
    case Walking(first, last, caller) =>
      Goto(s, t, if s.next[last].Some? then Walking(first, s.next[last].value, caller) else AtEnd(first, last, caller))
    case AtEnd(first, last, caller) => Goto(s, t, TailLoaded(first, last, s.top, caller))
    case TailLoaded(first, last, ts, caller) =>
      Goto(s.(next := s.next[last := ts.ptr]), t, TailStored(first, last, ts, caller))
    case TailStored(first, last, ts, caller) =>
      if spurious || s.top != ts then Goto(s, t, TailLoaded(first, last, s.top, caller))
      else Goto(Prepended(s, t, first, s.chains[t]).(chains := s.chains[t := []]), t, Revisited(caller))
    case _ => s
  }

  ghost predicate CanPopStep(s: State, t: Tid) {
    At(s, t) && match s.pcs[t]
                case Entering => true
                case PopLoading => true
                case PopSeen(ts) => ts.ptr.Some? && ts.ptr.value in s.next
                case PopRead(ts, _) => ts.ptr.Some?
                case PopLeaving(_) => true
                case PopClearing(g) => g in s.next
                case _ => false
  }

  function AfterLoad(top: Word): Pc {
    if top.ptr.None? then PopLeaving(None) else PopSeen(top)
  }

  /** `mi_abandoned_pop` */
  ghost function DoPopStep(s: State, t: Tid, spurious: bool): State
    requires CanPopStep(s, t)
  {
    match s.pcs[t]
    case Entering => Goto(s.(readers := s.readers + 1), t, PopLoading)
    case PopLoading => Goto(s, t, AfterLoad(s.top))
    case PopSeen(ts) => Goto(s, t, PopRead(ts, s.next[ts.ptr.value]))
    case PopRead(ts, anext) =>
      if spurious || s.top != ts then Goto(s, t, AfterLoad(s.top))
      else
        var popped := s.(top := Tagged(anext, ts), alist := if s.alist == [] then [] else s.alist[1..],
                         spot := Relabel(s.spot, [ts.ptr.value], With(t)));
        Goto(popped, t, PopLeaving(ts.ptr))
    case PopLeaving(got) =>
      Goto(s.(readers := s.readers - 1), t, if got.None? then Idle else PopClearing(got.value))
    case PopClearing(g) => Goto(s.(next := s.next[g := None]), t, Idle)
    case _ => s
  }

  ghost predicate CanFreeStep(s: State, t: Tid) {
    At(s, t) && (s.pcs[t].Awaiting? || s.pcs[t].Freeing?)
  }

  /** `mi_segment_os_free`: wait until no reader is seen, then give the memory back. */
  ghost function DoFreeStep(s: State, t: Tid): State
    requires CanFreeStep(s, t)
  {
    match s.pcs[t]
    case Awaiting(g) => Goto(s, t, if s.readers == 0 then Freeing(g) else Awaiting(g))
    case Freeing(g) => Goto(s.(next := s.next - {g}, spot := s.spot - {g}), t, Idle)
    case _ => s
  }

  datatype Action =
    | Starts(t: Tid, a: Start)
    | Pushes(t: Tid, spurious: bool)
    | Revisits(t: Tid, spurious: bool)
    | Pops(t: Tid, spurious: bool)
    | Frees(t: Tid)

  /** One step; an action that is not possible in `s` leaves `s` as it is. */
  ghost function Apply(s: State, a: Action): State {
    match a
    case Starts(t, b) => if CanStart(s, t, b) then DoStart(s, t, b) else s
    case Pushes(t, spurious) => if CanPushStep(s, t) then DoPushStep(s, t, spurious) else s
    case Revisits(t, spurious) => if CanRevisitStep(s, t) then DoRevisitStep(s, t, spurious) else s
    case Pops(t, spurious) => if CanPopStep(s, t) then DoPopStep(s, t, spurious) else s
    case Frees(t) => if CanFreeStep(s, t) then DoFreeStep(s, t) else s
  }
}
