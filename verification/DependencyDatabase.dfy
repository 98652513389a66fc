/**
 `Context::ComputeFullDependencyDatabase` (AssetOwners.cpp:182-265): the walk over plugin
 dependencies that merges the asset databases of all plugins it meets. A plugin is looked up by guid;
 guids whose plugin is not found are remembered like the others and load nothing.
 */
module DependencyDatabase {
  import opened Sequences
  import opened PluginLoading

  /** With a plugin, its dependencies that are found are in `s`, too. */
  ghost predicate FoundIn(files: Files, s: set<Guid>, deps: seq<Guid>) {
    forall d :: d in deps && d in files ==> d in s
  }

  ghost predicate ClosedWalk(files: Files, s: set<Guid>) {
    forall f {:trigger files[f]} :: f in files && f in s ==> FoundIn(files, s, files[f].deps)
  }

  ghost predicate AllIn(deps: seq<Guid>, s: set<Guid>) {
    forall d :: d in deps ==> d in s
  }

  /** All guids that any plugin names as a dependency are in `all`. */
  ghost predicate Named(files: Files, all: set<Guid>) {
    forall f {:trigger files[f]} :: f in files ==> AllIn(files[f].deps, all)
  }

  predicate HasAssets(files: Files, g: Guid) {
    g in files && files[g].assets.Some?
  }

  /** The dependencies of a plugin are in the list, if the plugin is found. */
  ghost predicate Visited(files: Files, seen: set<Guid>, g: Guid) {
    g in files ==> AllIn(files[g].deps, seen)
  }

  /** `database` with the assets of one plugin. */
  function WithPlugin(files: Files, database: set<Guid>, g: Guid): set<Guid> {
    if HasAssets(files, g) then database + {g} else database
  }

  /**
   From one state of the walk to another: everything new in the list is found inside `within`, if at
   all, and has its own dependencies in the list; the database has the assets of exactly the new ones.
   */
  ghost predicate Walked(files: Files, all: set<Guid>, within: set<Guid>, seen0: set<Guid>, database0: set<Guid>, seen: set<Guid>, database: set<Guid>) {
    && (forall d {:trigger d in seen} {:trigger d in seen0} :: d in seen0 ==> d in seen)
    && (forall d {:trigger d in seen} {:trigger Visited(files, seen, d)} :: d in seen && d !in seen0 ==> d in all && (d in files ==> d in within) && Visited(files, seen, d))
    && (forall g {:trigger g in database} :: g in database <==> g in database0 || (g in seen && g !in seen0 && HasAssets(files, g)))
  }

  /** A walk goes on with the dependency `d`. */
  lemma WalkedOn(files: Files, all: set<Guid>, within: set<Guid>, s0: set<Guid>, d0: set<Guid>, s1: set<Guid>, d1: set<Guid>, d: Guid, s2: set<Guid>, d2: set<Guid>)
    requires Walked(files, all, within, s0, d0, s1, d1) && d !in s1 && d in all && (d in files ==> d in within)
    requires Walked(files, all, within, s1 + {d}, WithPlugin(files, d1, d), s2, d2) && Visited(files, s2, d)
    ensures Walked(files, all, within, s0, d0, s2, d2)
  {
    forall e | e in s2 && e !in s0 ensures e in all && (e in files ==> e in within) && Visited(files, s2, e) {
      if e in s1 {
        assert Visited(files, s1, e);
        StillVisited(files, s1, s2, e);
      }
    }
  }

  lemma StillVisited(files: Files, s1: set<Guid>, s2: set<Guid>, e: Guid)
    requires Visited(files, s1, e) && forall d :: d in s1 ==> d in s2
    ensures Visited(files, s2, e)
  {
  }

  lemma StillIn(deps: seq<Guid>, i: nat, s1: set<Guid>, s2: set<Guid>)
    requires i < |deps| && AllIn(deps[..i], s1) && (forall d :: d in s1 ==> d in s2) && deps[i] in s2
    ensures AllIn(deps[..i + 1], s2)
  {
  }

  lemma FewerToSee(all: set<Guid>, seen: set<Guid>, seen': set<Guid>, d: Guid)
    requires (forall g :: g in seen ==> g in seen') && d in seen' && d !in seen && d in all
    ensures |all - seen'| < |all - seen|
  {
    assert all - seen' <= all - seen - {d};
    SubsetSize(all - seen', all - seen - {d});
  }

  // ---------------------------------------------------------------- the walk from several roots

  function Roots(project: seq<Guid>, plugin: Option<Guid>, compiler: Guid): seq<Guid> {
    project + (if plugin.Some? then [plugin.value] else []) + [compiler]
  }

  function AllNames(files: Files): set<Guid> {
    set f, d | f in files && d in files[f].deps :: d
  }

  ghost function Reachable(files: Files, roots: seq<Guid>): set<Guid> {
    set g | g in files && exists steps: nat :: Reaches(files, roots, g, steps)
  }

  lemma RootReached(files: Files, roots: seq<Guid>, g: Guid)
    requires g in roots
    ensures g in files ==> g in Reachable(files, roots)
  {
    if g in files { assert Reaches(files, roots, g, 0); }
  }

  lemma ReachableClosed(files: Files, roots: seq<Guid>)
    ensures ClosedWalk(files, Reachable(files, roots))
  {
    var s := Reachable(files, roots);
    forall f | f in files && f in s ensures FoundIn(files, s, files[f].deps) {
      var steps: nat :| Reaches(files, roots, f, steps);
      forall d | d in files[f].deps && d in files ensures d in s { ReachesOn(files, roots, f, d, steps); }
    }
  }

  /** After the walks from the roots `done`. */
  ghost predicate Started(files: Files, all: set<Guid>, within: set<Guid>, done: seq<Guid>, seen: set<Guid>, database: set<Guid>) {
    && (forall d {:trigger d in seen} {:trigger Visited(files, seen, d)} :: d in seen ==> d in all && (d in files ==> d in within) && Visited(files, seen, d))
    && (forall r {:trigger r in done} :: r in done ==> (r in files ==> r in within) && Visited(files, seen, r))
    && (forall g {:trigger g in database} :: g in database <==> HasAssets(files, g) && (g in seen || g in done))
  }

  lemma StartedOn(files: Files, all: set<Guid>, within: set<Guid>, done: seq<Guid>, s1: set<Guid>, d1: set<Guid>, r: Guid, s2: set<Guid>, d2: set<Guid>)
    requires Started(files, all, within, done, s1, d1) && (r in files ==> r in within)
    requires Walked(files, all, within, s1, WithPlugin(files, d1, r), s2, d2) && Visited(files, s2, r)
    ensures Started(files, all, within, done + [r], s2, d2)
  {
    forall e | e in s2 ensures e in all && (e in files ==> e in within) && Visited(files, s2, e) {
      if e in s1 { StillVisited(files, s1, s2, e); }
    }
    forall e | e in done + [r] ensures (e in files ==> e in within) && Visited(files, s2, e) {
      if e in done { StillVisited(files, s1, s2, e); }
    }
  }

  /** The last root is put in the list before its walk. */
  lemma ListedToo(files: Files, all: set<Guid>, within: set<Guid>, done: seq<Guid>, s1: set<Guid>, d1: set<Guid>, r: Guid, s2: set<Guid>, d2: set<Guid>)
    requires Started(files, all, within, done, s1, d1) && r !in s1 && r in all && (r in files ==> r in within)
    requires Walked(files, all, within, s1 + {r}, WithPlugin(files, d1, r), s2, d2) && Visited(files, s2, r)
    ensures Started(files, all, within, done, s2, d2) && r in s2
  {
    forall e | e in s2 ensures e in all && (e in files ==> e in within) && Visited(files, s2, e) {
      if e in s1 { StillVisited(files, s1, s2, e); }
    }
    forall e | e in done ensures (e in files ==> e in within) && Visited(files, s2, e) { StillVisited(files, s1, s2, e); }
  }

  /** Everything reachable has been met. */
  lemma {:induction false} AllMetOnTheWay(files: Files, all: set<Guid>, within: set<Guid>, done: seq<Guid>, seen: set<Guid>, database: set<Guid>, deps: seq<Guid>, g: Guid, steps: nat)
    requires Started(files, all, within, done, seen, database) && (forall d :: d in deps ==> d in seen || d in done)
    requires Reaches(files, deps, g, steps)
    ensures g in seen || g in done
    decreases steps
  {
    var d :| d in deps && d in files && (d == g || (steps > 0 && Reaches(files, files[d].deps, g, steps - 1)));
    if d != g {
      assert Visited(files, seen, d);
      AllMetOnTheWay(files, all, within, done, seen, database, files[d].deps, g, steps - 1);
    }
  }

  lemma Exactly(files: Files, roots: seq<Guid>, all: set<Guid>, within: set<Guid>, done: seq<Guid>, compiler: Guid, seen: set<Guid>, database: set<Guid>)
    requires Started(files, all, within, done, seen, database) && compiler in seen && within == Reachable(files, roots)
    requires forall r :: r in roots ==> r in done || r == compiler
    ensures forall g :: g in database <==> HasAssets(files, g) && g in Reachable(files, roots)
  {
    forall g ensures g in database <==> HasAssets(files, g) && g in Reachable(files, roots) {
      if HasAssets(files, g) && g in Reachable(files, roots) {
        var steps: nat :| Reaches(files, roots, g, steps);
        AllMetOnTheWay(files, all, within, done, seen, database, roots, g, steps);
      }
    }
  }

  class Walk {
    var loaded: seq<Guid>           // `loadedPluginDatabases`
    var database: set<Guid>         // whose assets were loaded
    ghost var seen: set<Guid>       // the members of `loaded`

    ghost predicate Valid()
      reads this
    {
      forall g :: multiset(loaded)[g] == if g in seen then 1 else 0
    }

    constructor ()
      ensures Valid() && loaded == [] && seen == {} && database == {}
    {
      loaded, database, seen := [], {}, {};
    }

    /**
     `loadPluginDatabase`. `all` bounds the guids that can come up; `within` is any set of found
     plugins that is closed under dependencies.
     */
    method Load(g: Guid, files: Files, ghost all: set<Guid>, ghost within: set<Guid>)
      requires Valid() && Named(files, all) && ClosedWalk(files, within) && (g in files ==> g in within)
      modifies this
      ensures Valid() && Visited(files, seen, g)
      ensures Walked(files, all, within, old(seen), WithPlugin(files, old(database), g), seen, database)
      decreases |all - seen|, 2
    {
      if g in files {
        var plugin := files[g];
        if plugin.assets.Some? {
          database := database + {g};
        }
        LoadDeps(plugin.deps, files, all, within);
      }
    }

    /** The loop over the dependencies of one plugin. */
    method LoadDeps(deps: seq<Guid>, files: Files, ghost all: set<Guid>, ghost within: set<Guid>)
      requires Valid() && Named(files, all) && ClosedWalk(files, within) && FoundIn(files, within, deps) && AllIn(deps, all)
      modifies this
      ensures Valid() && AllIn(deps, seen)
      ensures Walked(files, all, within, old(seen), old(database), seen, database)
      decreases |all - seen|, 1
    {
      ghost var s0, d0 := seen, database;
      for i := 0 to |deps|
        invariant Valid() && AllIn(deps[..i], seen)
        invariant Walked(files, all, within, s0, d0, seen, database)
      {
        ghost var s1 := seen;
        LoadDep(deps[i], files, all, within, s0, d0);
        StillIn(deps, i, s1, seen);
      }
      assert deps[..|deps|] == deps;
    }

    /** One dependency: unless it is in the list already (AssetOwners.cpp:219-223). */
    method LoadDep(d: Guid, files: Files, ghost all: set<Guid>, ghost within: set<Guid>, ghost s0: set<Guid>, ghost d0: set<Guid>)
      requires Valid() && Named(files, all) && ClosedWalk(files, within) && d in all && (d in files ==> d in within)
      requires Walked(files, all, within, s0, d0, seen, database)
      modifies this
      ensures Valid() && d in seen && forall g :: g in old(seen) ==> g in seen
      ensures Walked(files, all, within, s0, d0, seen, database)
      decreases |all - s0|, 0
    {
      assert d in seen <==> multiset(loaded)[d] > 0;
      if d !in loaded {
        ghost var s1, d1 := seen, database;
        loaded := loaded + [d];
        seen := seen + {d};
        FewerToSee(all, s0, seen, d);
        Load(d, files, all, within);
        WalkedOn(files, all, within, s0, d0, s1, d1, d, seen, database);
      }
    }

    /** The plugins of a project, one after the other (AssetOwners.cpp:241-244). */
    method LoadProject(project: seq<Guid>, roots: seq<Guid>, files: Files, ghost all: set<Guid>, ghost within: set<Guid>)
      requires Valid() && Started(files, all, within, [], seen, database) && Named(files, all)
      requires within == Reachable(files, roots) && ClosedWalk(files, within) && forall g :: g in project ==> g in roots
      modifies this
      ensures Valid() && Started(files, all, within, project, seen, database)
    {
      for i := 0 to |project|
        invariant Valid() && Started(files, all, within, project[..i], seen, database)
      {
        RootReached(files, roots, project[i]);
        ghost var s1, d1 := seen, database;
        Load(project[i], files, all, within);
        StartedOn(files, all, within, project[..i], s1, d1, project[i], seen, database);
        assert project[..i] + [project[i]] == project[..i + 1];
      }
      assert project[..|project|] == project;
    }

    /**
     The whole walk (AssetOwners.cpp:236-264): from the plugins of a project, a plugin, and the asset
     compiler. The database then has the assets of exactly the plugins that are found and reachable
     from these.
     */
    method ComputeFull(project: seq<Guid>, plugin: Option<Guid>, compiler: Guid, files: Files)
      requires Valid() && loaded == [] && seen == {} && database == {}
      modifies this
      ensures forall g :: g in database <==> HasAssets(files, g) && g in Reachable(files, Roots(project, plugin, compiler))
    {
      var roots := Roots(project, plugin, compiler);
      ghost var within := Reachable(files, roots);
      ghost var all := AllNames(files) + {compiler};
      ReachableClosed(files, roots);
      ghost var done: seq<Guid> := [];
      LoadProject(project, roots, files, all, within);
      done := project;
      if plugin.Some? {
        RootReached(files, roots, plugin.value);
        ghost var s1, d1 := seen, database;
        Load(plugin.value, files, all, within);
        StartedOn(files, all, within, done, s1, d1, plugin.value, seen, database);
        done := done + [plugin.value];
      }
      if compiler !in loaded {
        assert compiler !in seen by { assert multiset(loaded)[compiler] == 0; }
        RootReached(files, roots, compiler);
        ghost var s1, d1 := seen, database;
        loaded := loaded + [compiler];
        seen := seen + {compiler};
        Load(compiler, files, all, within);
        ListedToo(files, all, within, done, s1, d1, compiler, seen, database);
      } else {
        assert compiler in seen by { assert multiset(loaded)[compiler] > 0; }
      }
      Exactly(files, roots, all, within, done, compiler, seen, database);
    }
  }
}
