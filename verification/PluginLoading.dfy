/**
 Recursive plugin loading (Application.cpp:113-189): each plugin is registered before its
 dependencies are visited, so that cycles end. Files are found or not, and loads succeed or not, as
 parameters say; `files` holds the plugin files that are found and valid.
 */
module PluginLoading {
  import opened Sequences

  type Guid = nat

  /** A plugin file. `assets` and `source`: is there such a directory, and does loading from it work? */
  datatype Info = Info(guid: Guid, deps: seq<Guid>, assets: Option<bool>, source: Option<bool>)

  type Files = map<Guid, Info>

  // ---------------------------------------------------------------- the dependency graph

  /** `s` has, with a plugin, the dependencies of it that are found. */
  ghost predicate HasDeps(files: Files, s: set<Guid>, deps: seq<Guid>) {
    forall d :: d in deps && d in files ==> files[d].guid in s
  }

  ghost predicate Closed(files: Files, s: set<Guid>) {
    forall f {:trigger files[f]} :: f in files && files[f].guid in s ==> HasDeps(files, s, files[f].deps)
  }

  /** The library finds a plugin under the guid that its file says. */
  ghost predicate Consistent(files: Files) {
    forall f {:trigger files[f]} :: f in files ==> files[f].guid == f
  }

  /** No cycles: dependencies rank lower. */
  ghost predicate Acyclic(files: Files, rank: Guid -> nat) {
    forall f {:trigger files[f]} :: f in files ==> DepsBelow(files, rank, files[f])
  }

  ghost predicate DepsBelow(files: Files, rank: Guid -> nat, info: Info) {
    forall d :: d in info.deps && d in files ==> rank(files[d].guid) < rank(info.guid)
  }

  /** A chain of dependencies that are found leads from `a` to `b`. */
  ghost predicate Reaches(files: Files, deps: seq<Guid>, b: Guid, steps: nat)
    decreases steps
  {
    exists d :: d in deps && d in files && (d == b || (steps > 0 && Reaches(files, files[d].deps, b, steps - 1)))
  }

  lemma {:induction false} ClosedHasReachable(files: Files, s: set<Guid>, deps: seq<Guid>, b: Guid, steps: nat)
    requires Consistent(files) && Closed(files, s) && HasDeps(files, s, deps) && Reaches(files, deps, b, steps)
    ensures b in s
    decreases steps
  {
    var d :| d in deps && d in files && (d == b || (steps > 0 && Reaches(files, files[d].deps, b, steps - 1)));
    assert files[d].guid == d;
    if d != b { ClosedHasReachable(files, s, files[d].deps, b, steps - 1); }
  }

  /** The plugins that a root needs, directly or not, and the root itself. */
  ghost function Needed(files: Files, root: Info): set<Guid> {
    {root.guid} + set g | g in files && exists steps: nat :: Reaches(files, root.deps, g, steps)
  }

  /** A chain can be continued at its end. */
  lemma {:induction false} ReachesOn(files: Files, deps: seq<Guid>, f: Guid, d: Guid, steps: nat)
    requires Reaches(files, deps, f, steps) && f in files && d in files[f].deps && d in files
    ensures Reaches(files, deps, d, steps + 1)
    decreases steps
  {
    var e :| e in deps && e in files && (e == f || (steps > 0 && Reaches(files, files[e].deps, f, steps - 1)));
    if e == f {
      assert Reaches(files, files[e].deps, d, steps) by { assert d in files[e].deps && d in files && d == d; }
    } else {
      ReachesOn(files, files[e].deps, f, d, steps - 1);
    }
  }

  lemma NeededIsClosed(files: Files, root: Info)
    requires Consistent(files) && (root.guid in files ==> files[root.guid] == root)
    ensures Closed(files, Needed(files, root)) && HasDeps(files, Needed(files, root), root.deps)
  {
    var s := Needed(files, root);
    forall d | d in root.deps && d in files ensures files[d].guid in s {
      assert Reaches(files, root.deps, d, 0);
    }
    forall f | f in files && files[f].guid in s ensures HasDeps(files, s, files[f].deps) {
      if f != root.guid {
        var steps: nat :| Reaches(files, root.deps, f, steps);
        forall d | d in files[f].deps && d in files ensures files[d].guid in s {
          ReachesOn(files, root.deps, f, d, steps);
        }
      }
    }
  }

  // ---------------------------------------------------------------- loading

  /** The dependency is registered, if it can be found at all. */
  ghost predicate Met(files: Files, plugins: map<Guid, Info>, d: Guid) {
    d in files ==> d in plugins || files[d].guid in plugins
  }

  ghost predicate AllMet(files: Files, plugins: map<Guid, Info>, deps: seq<Guid>) {
    forall d :: d in deps ==> Met(files, plugins, d)
  }

  /** Each plugin in `order` comes after those of its dependencies that are found. */
  ghost predicate Ordered(files: Files, plugins: map<Guid, Info>, order: seq<Guid>) {
    forall k {:trigger order[k]} :: 0 <= k < |order| && order[k] in plugins ==> Before(files, plugins[order[k]].deps, order, k)
  }

  ghost predicate Before(files: Files, deps: seq<Guid>, order: seq<Guid>, k: nat)
    requires k <= |order|
  {
    forall d :: d in deps && d in files ==> d in order[..k]
  }

  /** Loading has been started but has not come to the plugin itself yet. */
  predicate Active(plugins: map<Guid, Info>, order: seq<Guid>, g: Guid) {
    g in plugins && g !in order
  }

  /** Between two states: registered plugins stay, and new ones are completely loaded. */
  ghost predicate Grown(files: Files, bound: set<Guid>, plugins0: map<Guid, Info>, order0: seq<Guid>, plugins: map<Guid, Info>, order: seq<Guid>) {
    && order0 <= order
    && (forall g {:trigger g in plugins} {:trigger plugins0[g]} :: g in plugins0 ==> g in plugins && plugins[g] == plugins0[g])
    && (forall g {:trigger g in plugins} :: g in plugins && g !in plugins0 ==> g in bound)
    && (forall g {:trigger Active(plugins, order, g)} :: Active(plugins, order, g) <==> Active(plugins0, order0, g))
    && (forall g {:trigger plugins[g]} :: g in plugins && g !in plugins0 ==> AllMet(files, plugins, plugins[g].deps))
  }

  lemma GrownTwice(files: Files, bound: set<Guid>, p0: map<Guid, Info>, o0: seq<Guid>, p1: map<Guid, Info>, o1: seq<Guid>, p2: map<Guid, Info>, o2: seq<Guid>)
    requires Grown(files, bound, p0, o0, p1, o1) && Grown(files, bound, p1, o1, p2, o2)
    ensures Grown(files, bound, p0, o0, p2, o2)
  {
    forall g | g in p2 && g !in p0 ensures AllMet(files, p2, p2[g].deps) {
      if g in p1 { StillMet(files, p1, p2, p1[g].deps); }
    }
    forall g ensures Active(p2, o2, g) <==> Active(p0, o0, g) {
      assert Active(p2, o2, g) <==> Active(p1, o1, g);
    }
  }

  lemma StillMet(files: Files, p1: map<Guid, Info>, p2: map<Guid, Info>, deps: seq<Guid>)
    requires AllMet(files, p1, deps) && forall g :: g in p1 ==> g in p2
    ensures AllMet(files, p2, deps)
  {
    forall d | d in deps ensures Met(files, p2, d) { assert Met(files, p1, d); }
  }

  lemma NextMet(files: Files, p1: map<Guid, Info>, p2: map<Guid, Info>, deps: seq<Guid>, i: nat)
    requires i < |deps| && AllMet(files, p1, deps[..i]) && (forall g :: g in p1 ==> g in p2) && Met(files, p2, deps[i])
    ensures AllMet(files, p2, deps[..i + 1])
  {
    StillMet(files, p1, p2, deps[..i]);
  }

  /** The plugin's own turn completes what its registration began. */
  lemma GrownAround(files: Files, bound: set<Guid>, p0: map<Guid, Info>, o0: seq<Guid>, info: Info, p: map<Guid, Info>, o: seq<Guid>)
    requires info.guid !in p0 && info.guid in bound && (forall g :: g in o0 ==> g in p0)
    requires Grown(files, bound, p0[info.guid := info], o0, p, o) && AllMet(files, p, info.deps)
    ensures Grown(files, bound, p0, o0, p, o + [info.guid])
  {
    var p1 := p0[info.guid := info];
    assert info.guid in p1;
    forall g | g in p0 ensures g in p && p[g] == p0[g] { assert g in p1; }
    forall g ensures Active(p, o + [info.guid], g) <==> Active(p0, o0, g) {
      assert Active(p, o, g) <==> Active(p1, o0, g);
    }
  }

  /** What makes dependencies come first: no cycles, and only plugins of higher rank under way. */
  ghost predicate Ready(files: Files, rank: Guid -> nat, info: Info, plugins: map<Guid, Info>, order: seq<Guid>) {
    && Consistent(files) && Acyclic(files, rank) && DepsBelow(files, rank, info)
    && Ordered(files, plugins, order)
    && forall a {:trigger Active(plugins, order, a)} :: Active(plugins, order, a) ==> rank(a) > rank(info.guid)
  }

  /** The dependencies of a plugin under way are ready to be loaded. */
  lemma DepReady(files: Files, rank: Guid -> nat, info: Info, p0: map<Guid, Info>, o0: seq<Guid>, p: map<Guid, Info>, o: seq<Guid>, bound: set<Guid>, d: Guid)
    requires Ready(files, rank, info, p0, o0) && d in info.deps && d in files && info.guid !in p0
    requires Grown(files, bound, p0[info.guid := info], o0, p, o) && Ordered(files, p, o)
    ensures Ready(files, rank, files[d], p, o)
  {
    forall a | Active(p, o, a) ensures rank(a) > rank(files[d].guid) {
      assert Active(p0[info.guid := info], o0, a);
      if a != info.guid { assert Active(p0, o0, a); }
    }
  }

  /** When it is a plugin's turn, its dependencies are done. */
  lemma SelfOrdered(files: Files, rank: Guid -> nat, info: Info, p0: map<Guid, Info>, o0: seq<Guid>, p: map<Guid, Info>, o: seq<Guid>, bound: set<Guid>)
    requires Ready(files, rank, info, p0, o0) && info.guid !in p0
    requires Grown(files, bound, p0[info.guid := info], o0, p, o) && Ordered(files, p, o) && AllMet(files, p, info.deps)
    ensures Ordered(files, p, o + [info.guid])
  {
    var p1 := p0[info.guid := info];
    var o' := o + [info.guid];
    assert info.guid in p1;
    forall d | d in info.deps && d in files ensures d in o {
      assert Met(files, p, d) && files[d].guid == d;
      assert Active(p, o, d) ==> Active(p1, o0, d);
      assert Active(p1, o0, d) ==> d == info.guid || Active(p0, o0, d);
    }
    forall k: nat | k < |o'| && o'[k] in p ensures Before(files, p[o'[k]].deps, o', k) {
      if k < |o| {
        assert Before(files, p[o[k]].deps, o, k);
        assert o'[..k] == o[..k];
      } else {
        assert o'[..k] == o;
      }
    }
  }

  lemma OwnTurn(files: Files, bound: set<Guid>, rank: Guid -> nat, p0: map<Guid, Info>, o0: seq<Guid>, info: Info, p: map<Guid, Info>, o: seq<Guid>)
    requires info.guid !in p0 && info.guid in bound && (forall g :: g in o0 ==> g in p0)
    requires Grown(files, bound, p0[info.guid := info], o0, p, o) && AllMet(files, p, info.deps)
    requires Ready(files, rank, info, p0, o0) ==> Ordered(files, p, o)
    ensures Grown(files, bound, p0, o0, p, o + [info.guid])
    ensures Ready(files, rank, info, p0, o0) ==> Ordered(files, p, o + [info.guid])
  {
    GrownAround(files, bound, p0, o0, info, p, o);
    if Ready(files, rank, info, p0, o0) {
      SelfOrdered(files, rank, info, p0, o0, p, o, bound);
    }
  }

  /** Each dependency is registered, or is found at least. */
  ghost predicate NoneMissing(files: Files, plugins: map<Guid, Info>, deps: seq<Guid>) {
    forall d :: d in deps ==> d in plugins || d in files
  }

  lemma NextNotMissing(files: Files, p1: map<Guid, Info>, p2: map<Guid, Info>, deps: seq<Guid>, i: nat)
    requires i < |deps| && NoneMissing(files, p1, deps[..i]) && (forall g :: g in p1 ==> g in p2) && (deps[i] in p2 || deps[i] in files)
    ensures NoneMissing(files, p2, deps[..i + 1])
  {
  }

  /** Nothing about the plugin itself makes its loading fail. */
  ghost predicate Fine(files: Files, plugins: map<Guid, Info>, info: Info) {
    info.assets != Some(false) && info.source != Some(false) && NoneMissing(files, plugins, info.deps)
  }

  ghost predicate NewFine(files: Files, p0: map<Guid, Info>, p: map<Guid, Info>) {
    forall g {:trigger p[g]} :: g in p && g !in p0 ==> Fine(files, p, p[g])
  }

  ghost predicate Extends(p0: map<Guid, Info>, p: map<Guid, Info>) {
    forall g {:trigger g in p} {:trigger p0[g]} :: g in p0 ==> g in p && p[g] == p0[g]
  }

  /** Plugins were added that are found, and the result is true exactly if `own` holds and all of them are fine. */
  ghost predicate Told(files: Files, p0: map<Guid, Info>, p: map<Guid, Info>, own: bool, ok: bool) {
    && Extends(p0, p) && (forall g {:trigger g in p} :: g in p && g !in p0 ==> g in files)
    && (ok <==> own && NewFine(files, p0, p))
  }

  /** What is missing stays missing, and what is not does. */
  lemma SameMissing(files: Files, p0: map<Guid, Info>, p: map<Guid, Info>, deps: seq<Guid>)
    requires Extends(p0, p) && forall g :: g in p && g !in p0 ==> g in files
    ensures NoneMissing(files, p, deps) <==> NoneMissing(files, p0, deps)
  {
  }

  lemma ToldTwice(files: Files, p0: map<Guid, Info>, p1: map<Guid, Info>, p2: map<Guid, Info>, deps: seq<Guid>, i: nat, ok: bool, result: bool)
    requires i < |deps| && Told(files, p0, p1, NoneMissing(files, p1, deps[..i]), ok)
    requires Told(files, p1, p2, deps[i] in p2 || deps[i] in files, result)
    ensures Told(files, p0, p2, NoneMissing(files, p2, deps[..i + 1]), ok && result)
  {
    SameMissing(files, p1, p2, deps[..i]);
    assert deps[..i + 1] == deps[..i] + [deps[i]];
    forall g | g in p1 ensures Fine(files, p2, p2[g]) <==> Fine(files, p1, p1[g]) {
      SameMissing(files, p1, p2, p1[g].deps);
    }
  }

  /** The result of a plugin, from the results of its dependencies and of its own turn. */
  lemma ToldAround(files: Files, p0: map<Guid, Info>, info: Info, p: map<Guid, Info>, ok: bool)
    requires info.guid !in p0 && Told(files, p0[info.guid := info], p, NoneMissing(files, p, info.deps), ok)
    ensures (ok && info.assets != Some(false) && info.source != Some(false)) <==> NewFine(files, p0, p)
    ensures Extends(p0, p)
    ensures forall g :: g in p && g !in p0 ==> g in files || g == info.guid
  {
    var p1 := p0[info.guid := info];
    assert info.guid in p1;
    forall g | g in p0 ensures g in p && p[g] == p0[g] { assert g in p1; }
    assert forall g :: g in p && g !in p0 ==> g == info.guid || g !in p1;
  }

  lemma FewerLeft(bound: set<Guid>, p0: map<Guid, Info>, p: map<Guid, Info>, g: Guid)
    requires (forall k :: k in p0 ==> k in p) && g in p && g !in p0 && g in bound
    ensures |bound - p.Keys| < |bound - p0.Keys|
  {
    assert bound - p.Keys <= bound - p0.Keys - {g};
    SubsetSize(bound - p.Keys, bound - p0.Keys - {g});
  }

  /** Every registered plugin has the file that is found under its guid, if one is. */
  ghost predicate FromFiles(files: Files, plugins: map<Guid, Info>) {
    forall g {:trigger plugins[g]} :: g in plugins && g in files ==> plugins[g] == files[g]
  }

  class Application {
    var plugins: map<Guid, Info>    // `m_pluginLookupMap`
    var started: seq<Guid>          // every registration, in order
    var order: seq<Guid>            // every plugin when its own assets and binary are loaded

    ghost predicate Valid()
      reads this
    {
      && (forall g :: multiset(started)[g] == if g in plugins then 1 else 0)
      && (forall g :: multiset(order)[g] <= if g in plugins then 1 else 0)
    }

    constructor ()
      ensures Valid() && plugins == map[] && order == [] && started == []
    {
      plugins, started, order := map[], [], [];
    }

    /** `LoadPlugin` by guid; `bound` is any set closed under dependencies. */
    method LoadByGuid(g: Guid, files: Files, ghost bound: set<Guid>, ghost rank: Guid -> nat) returns (ok: bool)
      requires Valid() && Closed(files, bound) && (g in files ==> files[g].guid in bound)
      modifies this
      ensures Valid() && Grown(files, bound, old(plugins), old(order), plugins, order)
      ensures Met(files, plugins, g) && (Consistent(files) && FromFiles(files, old(plugins)) ==> FromFiles(files, plugins))
      ensures g in files && Ready(files, rank, files[g], old(plugins), old(order)) ==> Ordered(files, plugins, order)
      ensures ok ==> g in plugins || g in files
      ensures g !in files ==> (ok <==> g in plugins) && plugins == old(plugins) && order == old(order)
      ensures Consistent(files) ==> Told(files, old(plugins), plugins, g in plugins || g in files, ok)
      decreases |bound - plugins.Keys|, 1
    {
      if g in plugins {
        return true;
      }
      if g !in files {
        return false;
      }
      ok := LoadInfo(files[g], files, bound, rank);
    }

    /** `StartPluginLoading` */
    method Register(info: Info)
      requires Valid() && info.guid !in plugins
      modifies this`plugins, this`started
      ensures Valid() && plugins == old(plugins)[info.guid := info] && started == old(started) + [info.guid]
    {
      plugins := plugins[info.guid := info];
      started := started + [info.guid];
    }

    /** The plugin's own assets and binary, after its dependencies (Application.cpp:160-186). */
    method LoadSelf(info: Info) returns (ok: bool)
      requires Valid() && info.guid in plugins && info.guid !in order
      modifies this`order
      ensures Valid() && order == old(order) + [info.guid]
      ensures ok <==> info.assets != Some(false) && info.source != Some(false)
    {
      order := order + [info.guid];
      if info.assets == Some(false) {
        return false;
      }
      ok := true;
      if info.source.Some? {
        ok := info.source.value;
      }
    }

    /** `LoadPlugin` of a plugin file. */
    method LoadInfo(info: Info, files: Files, ghost bound: set<Guid>, ghost rank: Guid -> nat) returns (ok: bool)
      requires Valid() && Closed(files, bound) && info.guid in bound && HasDeps(files, bound, info.deps)
      modifies this
      ensures Valid() && Grown(files, bound, old(plugins), old(order), plugins, order)
      ensures info.guid in plugins && (info.guid !in old(plugins) ==> plugins[info.guid] == info)
      ensures ok && info.guid !in old(plugins) ==> info.assets != Some(false) && info.source != Some(false) && NoneMissing(files, plugins, info.deps)
      ensures Consistent(files) && (info.guid in files ==> files[info.guid] == info) && FromFiles(files, old(plugins)) ==> FromFiles(files, plugins)
      ensures Consistent(files) ==> Extends(old(plugins), plugins) && forall g :: g in plugins && g !in old(plugins) ==> g in files || g == info.guid
      ensures Consistent(files) ==> (ok <==> NewFine(files, old(plugins), plugins))
      ensures Ready(files, rank, info, old(plugins), old(order)) ==> Ordered(files, plugins, order)
      decreases |bound - plugins.Keys|, 0
    {
      if info.guid in plugins {
        return true;
      }
      ghost var p0, o0 := plugins, order;
      Register(info);
      ok := LoadDeps(info, files, bound, rank, p0);
      ghost var p, o := plugins, order;
      OwnTurn(files, bound, rank, p0, o0, info, p, o);
      if Consistent(files) {
        ToldAround(files, p0, info, p, ok);
      }
      var result := LoadSelf(info);
      ok := ok && result;
    }

    /** One dependency; `p0` and `o0` are the state before the plugin was registered. */
    method LoadDep(d: Guid, info: Info, files: Files, ghost bound: set<Guid>, ghost rank: Guid -> nat, ghost p0: map<Guid, Info>, ghost o0: seq<Guid>)
      returns (ok: bool)
      requires Valid() && Closed(files, bound) && info.guid in bound && d in info.deps && (d in files ==> files[d].guid in bound)
      requires info.guid !in p0 && Grown(files, bound, p0[info.guid := info], o0, plugins, order)
      requires Ready(files, rank, info, p0, o0) ==> Ordered(files, plugins, order)
      modifies this
      ensures Valid() && Grown(files, bound, p0[info.guid := info], o0, plugins, order)
      ensures Met(files, plugins, d) && forall g :: g in old(plugins) ==> g in plugins
      ensures ok ==> d in plugins || d in files
      ensures Consistent(files) ==> Told(files, old(plugins), plugins, d in plugins || d in files, ok)
      ensures Ready(files, rank, info, p0, o0) ==> Ordered(files, plugins, order)
      ensures Consistent(files) && FromFiles(files, old(plugins)) ==> FromFiles(files, plugins)
      decreases |bound - p0.Keys|, 0, 0
    {
      ghost var p1 := p0[info.guid := info];
      ghost var p, o := plugins, order;
      assert info.guid in p1;
      if d in files && Ready(files, rank, info, p0, o0) {
        DepReady(files, rank, info, p0, o0, p, o, bound, d);
      }
      FewerLeft(bound, p0, p, info.guid);
      ok := LoadByGuid(d, files, bound, rank);
      GrownTwice(files, bound, p1, o0, p, o, plugins, order);
    }

    /** The loop over the dependencies; `p0` is the state before the plugin was registered. */
    method LoadDeps(info: Info, files: Files, ghost bound: set<Guid>, ghost rank: Guid -> nat, ghost p0: map<Guid, Info>) returns (ok: bool)
      requires Valid() && Closed(files, bound) && info.guid in bound && HasDeps(files, bound, info.deps)
      requires info.guid !in p0 && plugins == p0[info.guid := info] && (forall g :: g in order ==> g in p0)
      modifies this
      ensures Valid() && Grown(files, bound, old(plugins), old(order), plugins, order)
      ensures Consistent(files) && FromFiles(files, old(plugins)) ==> FromFiles(files, plugins)
      ensures ok ==> NoneMissing(files, plugins, info.deps)
      ensures Consistent(files) ==> Told(files, old(plugins), plugins, NoneMissing(files, plugins, info.deps), ok)
      ensures AllMet(files, plugins, info.deps) && info.guid !in order && info.guid in plugins && plugins[info.guid] == info
      ensures Ready(files, rank, info, p0, old(order)) ==> Ordered(files, plugins, order)
      decreases |bound - p0.Keys|, 0, 1
    {
      ok := true;
      ghost var p1, o1 := plugins, order;
      assert info.guid in p1;
      for i := 0 to |info.deps|
        invariant Valid() && Grown(files, bound, p1, o1, plugins, order)
        invariant AllMet(files, plugins, info.deps[..i])
        invariant ok ==> NoneMissing(files, plugins, info.deps[..i])
        invariant Consistent(files) ==> Told(files, p1, plugins, NoneMissing(files, plugins, info.deps[..i]), ok)
        invariant Consistent(files) && FromFiles(files, old(plugins)) ==> FromFiles(files, plugins)
        invariant Ready(files, rank, info, p0, o1) ==> Ordered(files, plugins, order)
      {
        ghost var p, before := plugins, ok;
        var result := LoadDep(info.deps[i], info, files, bound, rank, p0, o1);
        ok := ok && result;
        if Consistent(files) {
          ToldTwice(files, p1, p, plugins, info.deps, i, before, result);
        }
        NextMet(files, p, plugins, info.deps, i);
        if ok {
          NextNotMissing(files, p, plugins, info.deps, i);
        }
      }
      assert info.deps[..|info.deps|] == info.deps;
      assert Active(plugins, order, info.guid) <==> Active(p1, o1, info.guid);
    }

    /**
     `LoadPlugin` in an application without plugins. Registered is then exactly what the plugin needs,
     directly or not; each plugin was started once and has had its turn; and when there are no
     cycles, each had its turn after those of its dependencies that are found. The result is true
     exactly if nothing that is needed is missing, and the assets and binaries of all of it load.
     */
    method LoadAlone(info: Info, files: Files, ghost rank: Guid -> nat) returns (ok: bool)
      requires Valid() && plugins == map[] && order == [] && started == []
      requires Consistent(files) && (info.guid in files ==> files[info.guid] == info)
      modifies this
      ensures Valid() && plugins.Keys == Needed(files, info)
      ensures forall g :: multiset(started)[g] == multiset(order)[g] == if g in Needed(files, info) then 1 else 0
      ensures ok <==> forall g :: g in plugins ==> Fine(files, plugins, plugins[g])
      ensures Acyclic(files, rank) && DepsBelow(files, rank, info) ==> Ordered(files, plugins, order)
    {
      NeededIsClosed(files, info);
      assert Ordered(files, plugins, order);
      ok := LoadInfo(info, files, Needed(files, info), rank);
      AllNeeded(files, info, plugins);
      assert forall g :: g in plugins ==> g in order by {
        forall g | g in plugins ensures g in order { assert !Active(plugins, order, g); }
      }
    }
  }

  /** Registered plugins whose dependencies are registered, too, are all that a root needs. */
  lemma AllNeeded(files: Files, root: Info, plugins: map<Guid, Info>)
    requires Consistent(files) && root.guid in plugins
    requires plugins[root.guid] == root && forall g :: g in plugins ==> AllMet(files, plugins, plugins[g].deps)
    requires forall g :: g in plugins && g in files ==> plugins[g] == files[g]
    ensures Needed(files, root) <= plugins.Keys
  {
    RegisteredIsClosed(files, plugins);
    assert HasDeps(files, plugins.Keys, root.deps) by {
      forall d | d in root.deps && d in files ensures files[d].guid in plugins { assert Met(files, plugins, d); }
    }
    forall g | g in Needed(files, root) && g != root.guid ensures g in plugins {
      var steps: nat :| Reaches(files, root.deps, g, steps);
      ClosedHasReachable(files, plugins.Keys, root.deps, g, steps);
    }
  }

  lemma RegisteredIsClosed(files: Files, plugins: map<Guid, Info>)
    requires Consistent(files) && forall g :: g in plugins ==> AllMet(files, plugins, plugins[g].deps)
    requires forall g :: g in plugins && g in files ==> plugins[g] == files[g]
    ensures Closed(files, plugins.Keys)
  {
    forall f | f in files && files[f].guid in plugins ensures HasDeps(files, plugins.Keys, files[f].deps) {
      forall d | d in files[f].deps && d in files ensures files[d].guid in plugins {
        assert Met(files, plugins, d);
      }
    }
  }
}
