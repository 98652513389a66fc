/** Every step of a freeing thread keeps the invariant. */
module PageRemoteSteps {
  import opened Sequences
  import opened PageProtocol
  import opened PageInvariant

  // ---------------------------------------------------------------- freeing threads

  lemma StartFreeMoves(s: State, t: ThreadId, b: Block)
    requires Spots(s) && CanStartFree(s, t, b)
    ensures MovesOk(s, DoStartFree(s, t, b), NONE, NONE, t)
  {
    var s' := DoStartFree(s, t, b);
    forall b' | b' in s.spot && b' != b ensures s'.spot[b'] == s.spot[b'] && SpotOk(s', b', s.spot[b']) {
      assert SpotOk(s, b', s.spot[b']);
    }
  }

  lemma StartFreeShape(s: State, t: ThreadId, b: Block)
    requires Spots(s) && CanStartFree(s, t, b)
    ensures Shape(s, DoStartFree(s, t, b), NONE, NONE, t)
  {
    StartFreeMoves(s, t, b);
  }

  lemma StartFreeKeeps(s: State, t: ThreadId, b: Block)
    requires Inv(s) && CanStartFree(s, t, b)
    ensures Inv(DoStartFree(s, t, b))
  {
    Locally(s, NONE, NONE, t);
    StartFreeShape(s, t, b);
    NearStep(s, DoStartFree(s, t, b), NONE, NONE, t);
  }

  /** The thread at `b` has reached the point where `r` is its program counter. */
  predicate AtWord(s: State, t: ThreadId, b: Block, delay: Delay) {
    t in s.remotes && s.remotes[t].Loaded? && s.remotes[t].b == b && b.page in s.pages && s.pages[b.page].delay == delay
  }

  lemma ClaimSound(s: State, t: ThreadId, b: Block)
    requires Local(s, b.page, NONE, t) && AtWord(s, t, b, UseDelayed)
    ensures Sound(s, Claim(s, t, b), b.page, NONE, t)
  {
  }

  lemma PushThreadMoves(s: State, t: ThreadId, b: Block, delay: Delay)
    requires Spots(s) && AtWord(s, t, b, delay) && b in s.spot && s.spot[b] == WithRemote(t)
    ensures MovesNear(s.spot, PushThread(s, t, b).spot, b.page, NONE, t) && MovesOk(s, PushThread(s, t, b), b.page, NONE, t)
  {
    var s' := PushThread(s, t, b);
    forall b' | b' in s.spot && b' != b ensures s'.spot[b'] == s.spot[b'] && SpotOk(s', b', s.spot[b']) {
      assert SpotOk(s, b', s.spot[b']);
    }
  }

  lemma PushThreadNear(s: State, t: ThreadId, b: Block, delay: Delay)
    requires AtWord(s, t, b, delay) && b in s.spot
    ensures Near(s, PushThread(s, t, b), b.page, NONE, t) && GuardStep(s, PushThread(s, t, b), b.page, t)
  {
  }

  lemma PushThreadShape(s: State, t: ThreadId, b: Block, delay: Delay)
    requires Spots(s) && AtWord(s, t, b, delay) && b in s.spot && s.spot[b] == WithRemote(t)
    ensures Shape(s, PushThread(s, t, b), b.page, NONE, t)
  {
    PushThreadMoves(s, t, b, delay);
    PushThreadNear(s, t, b, delay);
  }

  lemma PushThreadLists(s: State, t: ThreadId, b: Block, delay: Delay)
    requires ListsIn(s, b.page, NONE) && AtWord(s, t, b, delay) && b in s.spot && s.spot[b] == WithRemote(t)
    ensures ListsIn(PushThread(s, t, b), b.page, NONE)
  {
    ChainPush(s.spot, s.pages[b.page].threadFree, b, OnThread(b.page));
  }

  lemma PushThreadFacts(s: State, t: ThreadId, b: Block, delay: Delay)
    requires FactsIn(s, b.page, NONE, t) && AtWord(s, t, b, delay) && delay != UseDelayed
    ensures FactsIn(PushThread(s, t, b), b.page, NONE, t)
  {
  }

  predicate AtHeap(s: State, t: ThreadId, b: Block, h: HeapId) {
    t in s.remotes && s.remotes[t].HeapSeen? && s.remotes[t].b == b && s.remotes[t].heap == h && h in s.heaps
  }

  lemma PushDelayedShape(s: State, t: ThreadId, b: Block, h: HeapId)
    requires Spots(s) && FactsIn(s, b.page, h, t) && AtHeap(s, t, b, h)
    ensures Shape(s, PushDelayed(s, t, b, h), NONE, h, t)
  {
    var s' := PushDelayed(s, t, b, h);
    forall b' | b' in s.spot && s'.spot[b'] == s.spot[b'] ensures SpotOk(s', b', s.spot[b']) {
      assert SpotOk(s, b', s.spot[b']);
    }
  }

  lemma PushDelayedLists(s: State, t: ThreadId, b: Block, h: HeapId)
    requires ListsIn(s, b.page, h) && AtHeap(s, t, b, h) && b in s.spot && s.spot[b] == WithRemote(t)
    ensures ListsIn(PushDelayed(s, t, b, h), NONE, h)
  {
    ChainPush(s.spot, s.heaps[h].delayed, b, Delayed(h));
  }

  lemma PushDelayedFacts(s: State, t: ThreadId, b: Block, h: HeapId)
    requires FactsIn(s, b.page, h, t) && AtHeap(s, t, b, h)
    ensures FactsIn(PushDelayed(s, t, b, h), NONE, h, t)
  {
  }

  lemma ResetSound(s: State, t: ThreadId, b: Block)
    requires Local(s, b.page, NONE, t) && t in s.remotes && s.remotes[t].ResetLoaded? && s.remotes[t].b == b && b.page in s.pages
    ensures Sound(s, Reset(s, t, b), b.page, NONE, t)
  {
  }

  /** A thread that only loads moves its program point. */
  predicate SamePlace(r: Remote, r': Remote) {
    r != Quiet && r' != Quiet && r'.b == r.b && HasBlock(r') == HasBlock(r) && Guards(r') == Guards(r)
  }

  lemma MovedPoint(s: State, t: ThreadId, r: Remote)
    requires Local(s, NONE, NONE, t) && t in s.remotes && SamePlace(s.remotes[t], r) && RemoteOk(s.spot, s.pages, t, r)
    ensures Sound(s, SetRemote(s, t, r), NONE, NONE, t)
  {
  }

  /** The loads of a freeing thread, and the reloads after a failed CAS. */
  ghost predicate Loads(s: State, r: Remote, r': Remote) {
    match r
    case Freeing(b) => r'.Loaded? && r'.b == b
    case Loaded(b, _) => r'.Loaded? && r'.b == b
    case Delaying(b) => b.page in s.pages && s.pages[b.page].xheap.Some? && r' == HeapKnown(b, s.pages[b.page].xheap.value)
    case HeapKnown(b, h) => r'.HeapSeen? && r'.b == b && r'.heap == h
    case HeapSeen(b, h, _) => r'.HeapSeen? && r'.b == b && r'.heap == h
    case Resetting(b) => b.page in s.pages && r' == ResetLoaded(b, WordOf(s.pages[b.page]))
    case ResetLoaded(b, _) => b.page in s.pages && r' == ResetLoaded(b, WordOf(s.pages[b.page]))
    case Quiet => false
  }

  lemma LoadedOk(s: State, t: ThreadId, r: Remote, r': Remote)
    requires RemoteOk(s.spot, s.pages, t, r) && Loads(s, r, r')
    ensures SamePlace(r, r') && RemoteOk(s.spot, s.pages, t, r')
  {
  }

  lemma LoadKeeps(s: State, t: ThreadId, r: Remote)
    requires Inv(s) && t in s.remotes && Loads(s, s.remotes[t], r)
    ensures Inv(SetRemote(s, t, r))
  {
    Locally(s, NONE, NONE, t);
    LoadedOk(s, t, s.remotes[t], r);
    MovedPoint(s, t, r);
    NearStep(s, SetRemote(s, t, r), NONE, NONE, t);
  }

  lemma CasWordKeeps(s: State, t: ThreadId, spurious: bool)
    requires Inv(s) && CanCasWord(s, t, spurious)
    ensures Inv(DoCasWord(s, t, spurious))
  {
    var Loaded(b, seen) := s.remotes[t];
    if spurious || seen != WordOf(s.pages[b.page]) {
      LoadKeeps(s, t, Loaded(b, WordOf(s.pages[b.page])));
    } else if seen.delay == UseDelayed {
      Locally(s, b.page, NONE, t);
      ClaimSound(s, t, b);
      NearStep(s, Claim(s, t, b), b.page, NONE, t);
    } else {
      Locally(s, b.page, NONE, t);
      PushThreadShape(s, t, b, seen.delay);
      PushThreadLists(s, t, b, seen.delay);
      PushThreadFacts(s, t, b, seen.delay);
      NearStep(s, PushThread(s, t, b), b.page, NONE, t);
    }
  }

  lemma CasDelayedKeeps(s: State, t: ThreadId, spurious: bool)
    requires Inv(s) && CanCasDelayed(s, t, spurious)
    ensures Inv(DoCasDelayed(s, t, spurious))
  {
    var HeapSeen(b, h, dhead) := s.remotes[t];
    if spurious || dhead != First(s.heaps[h].delayed) {
      LoadKeeps(s, t, HeapSeen(b, h, First(s.heaps[h].delayed)));
    } else {
      Locally(s, b.page, h, t);
      PushDelayedShape(s, t, b, h);
      PushDelayedLists(s, t, b, h);
      PushDelayedFacts(s, t, b, h);
      NearStep(s, PushDelayed(s, t, b, h), NONE, h, t);
    }
  }

  lemma CasResetKeeps(s: State, t: ThreadId, spurious: bool)
    requires Inv(s) && CanCasReset(s, t, spurious)
    ensures Inv(DoCasReset(s, t, spurious))
  {
    var ResetLoaded(b, seen) := s.remotes[t];
    if spurious || seen != WordOf(s.pages[b.page]) {
      LoadKeeps(s, t, ResetLoaded(b, WordOf(s.pages[b.page])));
    } else {
      Locally(s, b.page, NONE, t);
      ResetSound(s, t, b);
      NearStep(s, Reset(s, t, b), b.page, NONE, t);
    }
  }

  lemma LoadStepKeeps(s: State, a: RemoteStep)
    requires Inv(s) && (a.LoadWord? || a.LoadHeap? || a.LoadDelayed? || a.LoadReset?)
    ensures Inv(ApplyRemoteStep(s, a))
  {
    var s' := ApplyRemoteStep(s, a);
    if s' != s {
      LoadKeeps(s, a.t, s'.remotes[a.t]);
    }
  }

  lemma RemoteKeeps(s: State, a: RemoteStep)
    requires Inv(s)
    ensures Inv(ApplyRemoteStep(s, a))
  {
    if ApplyRemoteStep(s, a) != s {
      match a
      case StartFree(t, b) => StartFreeKeeps(s, t, b);
      case CasWord(t, spurious) => CasWordKeeps(s, t, spurious);
      case CasDelayed(t, spurious) => CasDelayedKeeps(s, t, spurious);
      case CasReset(t, spurious) => CasResetKeeps(s, t, spurious);
      case _ => LoadStepKeeps(s, a);
    }
  }
}
