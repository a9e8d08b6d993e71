/**
 * The Kotlin plugin's library-dependency cache: which libraries and SDKs a library can see,
 * computed from the modules that use it. A usage index maps each library to the modules
 * that hold it; each such module's order entries are walked transitively, the results are
 * united, filtered for built-ins, and memoised per module and per library.
 */
module LibraryDependencies {
  import opened Wrappers

  type Module = string
  type Library = string
  type Sdk = string

  /** One order entry of a module; a dependency may point at nothing (`null`). */
  datatype OrderEntry =
    | ModuleSource
    | ModuleDependency(target: Option<Module>)
    | LibraryDependency(library: Option<Library>)
    | JdkDependency(jdk: Option<Sdk>)

  /** The module graph: the project's modules in order, and the order entries of each. */
  datatype Project = Project(modules: seq<Module>, orderEntries: map<Module, seq<OrderEntry>>)

  /** `LibraryDependencyCandidate`: a group of libraries that is taken or dropped as a whole. */
  datatype Candidate = Candidate(libraries: seq<Library>)

  /** `LibraryDependencies`: the libraries and SDKs a library depends on. */
  datatype LibraryDependencies = LibraryDependencies(libraries: set<Library>, sdks: set<Sdk>)

  /** The platform services and checks this code consults; none of them is part of this model. */
  datatype Environment = Environment(
    /** `safeAs<LibraryEx>()?.takeIf { !it.isDisposed }` succeeds. */
    isLive: Library -> bool,
    /** `LibraryInfoCache.get(..).mapNotNull { fromLibraryOrNull(..) }`. */
    candidatesOf: Library -> set<Candidate>,
    /** `isCoreKotlinLibrary`. */
    isCoreKotlin: Library -> bool,
    /** Some module info of the module has a platform that `canDependOn` the library. */
    canDependOn: (Module, Library) -> bool,
    /** `IdeBuiltInsLoadingState.isFromClassLoader`. */
    builtInsFromClassLoader: bool,
    /** The default and native-interop dependency filters, united. */
    dependenciesFilter: (Library, set<Candidate>) -> set<Candidate>)

  /** The order entries of a module; a module the project does not know has none. */
  function Entries(p: Project, m: Module): seq<OrderEntry> {
    if m in p.orderEntries then p.orderEntries[m] else []
  }

  /** `MultiMap.get`: the modules stored for a library, empty when there are none. */
  function Lookup(index: map<Library, set<Module>>, l: Library): set<Module> {
    if l in index then index[l] else {}
  }

  /** A module of the project holds a library order entry for `l`. */
  predicate UsesLibrary(p: Project, m: Module, l: Library) {
    m in p.modules && LibraryDependency(Some(l)) in Entries(p, m)
  }

  /** `LibraryUsageIndex.init`: every library order entry with a library adds its module under that library. */
  method BuildUsageIndex(p: Project) returns (index: map<Library, set<Module>>)
    ensures forall l, m :: m in Lookup(index, l) <==> UsesLibrary(p, m, l)
    ensures forall l :: l in index ==> index[l] != {}
  {
    index := map[];
    for i := 0 to |p.modules|
      invariant forall l, m :: m in Lookup(index, l) <==> m in p.modules[..i] && LibraryDependency(Some(l)) in Entries(p, m)
      invariant forall l :: l in index ==> index[l] != {}
    {
      var holder := p.modules[i];
      var entries := Entries(p, holder);
      for j := 0 to |entries|
        invariant forall l, m :: m in Lookup(index, l) <==>
          (m in p.modules[..i] && LibraryDependency(Some(l)) in Entries(p, m))
          || (m == holder && LibraryDependency(Some(l)) in entries[..j])
        invariant forall l :: l in index ==> index[l] != {}
      {
        assert entries[..j + 1] == entries[..j] + [entries[j]];
        var entry := entries[j];
        if entry.LibraryDependency? && entry.library.Some? {
          ghost var before := index;
          index := index[entry.library.value := Lookup(index, entry.library.value) + {holder}];
          forall l, m ensures m in Lookup(index, l) <==> m in Lookup(before, l) || (l == entry.library.value && m == holder) {
          }
        }
      }
      assert entries[..|entries|] == entries;
      assert p.modules[..i + 1] == p.modules[..i] + [holder];
    }
    assert p.modules[..|p.modules|] == p.modules;
  }

  /** `getModulesLibraryIsUsedIn`: the indexed modules whose platform can depend on the library. */
  function ModulesUsing(env: Environment, index: map<Library, set<Module>>, l: Library): (r: set<Module>)
    ensures r <= Lookup(index, l)
    ensures forall m :: m in r ==> env.canDependOn(m, l)
  {
    set m | m in Lookup(index, l) && env.canDependOn(m, l)
  }

  /** Over an index built from the project, a module is used exactly when it holds the library and its platform allows it. */
  lemma ModulesUsingFromIndex(env: Environment, p: Project, index: map<Library, set<Module>>, l: Library, m: Module)
    requires forall l, m :: m in Lookup(index, l) <==> UsesLibrary(p, m, l)
    ensures m in ModulesUsing(env, index, l) <==> UsesLibrary(p, m, l) && env.canDependOn(m, l)
  {
  }

  /** The candidates a library order entry contributes: none for a missing or disposed library. */
  function EntryCandidates(env: Environment, e: OrderEntry): set<Candidate> {
    if e.LibraryDependency? && e.library.Some? && env.isLive(e.library.value) then env.candidatesOf(e.library.value) else {}
  }

  /** The SDK a JDK entry contributes: none when it has no JDK. */
  function EntrySdks(e: OrderEntry): set<Sdk> {
    if e.JdkDependency? && e.jdk.Some? then {e.jdk.value} else {}
  }

  /** The module a module dependency leads to: none when it has no module. */
  function EntryDeps(e: OrderEntry): set<Module> {
    if e.ModuleDependency? && e.target.Some? then {e.target.value} else {}
  }

  function CandidatesIn(env: Environment, es: seq<OrderEntry>): set<Candidate> {
    if es == [] then {} else CandidatesIn(env, es[..|es| - 1]) + EntryCandidates(env, es[|es| - 1])
  }

  function SdksIn(es: seq<OrderEntry>): set<Sdk> {
    if es == [] then {} else SdksIn(es[..|es| - 1]) + EntrySdks(es[|es| - 1])
  }

  function DepsIn(es: seq<OrderEntry>): set<Module> {
    if es == [] then {} else DepsIn(es[..|es| - 1]) + EntryDeps(es[|es| - 1])
  }

  /** What the walk gathers from a set of modules. */
  ghost function CandidatesOfModules(env: Environment, p: Project, ms: set<Module>): set<Candidate> {
    set m, c | m in ms && c in CandidatesIn(env, Entries(p, m)) :: c
  }

  ghost function SdksOfModules(p: Project, ms: set<Module>): set<Sdk> {
    set m, s | m in ms && s in SdksIn(Entries(p, m)) :: s
  }

  /** Every module dependency of a module in `s` leads back into `s`. */
  ghost predicate Closed(p: Project, s: set<Module>) {
    forall m :: m in s ==> DepsIn(Entries(p, m)) <= s
  }

  ghost predicate Minimal(p: Project, roots: set<Module>, v: set<Module>) {
    forall s :: roots <= s && Closed(p, s) ==> v <= s
  }

  /** `v` is the set of modules reachable from `roots` through module dependencies: the least closed set holding them. */
  ghost predicate LeastClosed(p: Project, roots: set<Module>, v: set<Module>) {
    roots <= v && Closed(p, v) && Minimal(p, roots, v)
  }

  /** Every module the walk can meet. */
  ghost function Universe(p: Project, roots: set<Module>): set<Module> {
    roots + p.orderEntries.Keys + (set m, d | m in p.orderEntries && d in DepsIn(p.orderEntries[m]) :: d)
  }

  /** The modules reachable from given roots are determined by the roots: the walk's result does not depend on its order. */
  lemma LeastClosedUnique(p: Project, roots: set<Module>, v: set<Module>, w: set<Module>)
    requires LeastClosed(p, roots, v) && LeastClosed(p, roots, w)
    ensures v == w
  {
    assert v <= w;
    assert w <= v;
  }

  /** The modules reachable from two sets of roots are those reachable from either. */
  lemma LeastClosedUnion(p: Project, r1: set<Module>, v1: set<Module>, r2: set<Module>, v2: set<Module>)
    requires LeastClosed(p, r1, v1) && LeastClosed(p, r2, v2)
    ensures LeastClosed(p, r1 + r2, v1 + v2)
  {
    forall s | r1 + r2 <= s && Closed(p, s) ensures v1 + v2 <= s {
      assert r1 <= s && r2 <= s;
    }
  }

  lemma CandidatesOfModulesUnion(env: Environment, p: Project, a: set<Module>, b: set<Module>)
    ensures CandidatesOfModules(env, p, a + b) == CandidatesOfModules(env, p, a) + CandidatesOfModules(env, p, b)
  {
  }

  lemma SdksOfModulesUnion(p: Project, a: set<Module>, b: set<Module>)
    ensures SdksOfModules(p, a + b) == SdksOfModules(p, a) + SdksOfModules(p, b)
  {
  }

  /** The order entries of one module, as the `RootPolicy` visits them. */
  method ProcessEntries(env: Environment, es: seq<OrderEntry>, visited: set<Module>, pending: set<Module>,
                        libs: set<Candidate>, sdks: set<Sdk>)
    returns (visited': set<Module>, pending': set<Module>, libs': set<Candidate>, sdks': set<Sdk>)
    ensures libs' == libs + CandidatesIn(env, es)
    ensures sdks' == sdks + SdksIn(es)
    ensures visited' == visited + DepsIn(es)
    ensures pending' == pending + (DepsIn(es) - visited)
  {
    visited', pending', libs', sdks' := visited, pending, libs, sdks;
    for j := 0 to |es|
      invariant libs' == libs + CandidatesIn(env, es[..j])
      invariant sdks' == sdks + SdksIn(es[..j])
      invariant visited' == visited + DepsIn(es[..j])
      invariant pending' == pending + (DepsIn(es[..j]) - visited)
    {
      assert es[..j + 1][..j] == es[..j];
      var e := es[j];
      if e.LibraryDependency? && e.library.Some? && env.isLive(e.library.value) {
        libs' := libs' + env.candidatesOf(e.library.value);
      } else if e.JdkDependency? && e.jdk.Some? {
        sdks' := sdks' + {e.jdk.value};
      } else if e.ModuleDependency? && e.target.Some? && e.target.value !in visited' {
        visited' := visited' + {e.target.value};
        pending' := pending' + {e.target.value};
      }
    }
    assert es[..|es|] == es;
  }

  /** The walk so far: `done` holds the modules whose entries were processed, `visited` those met. */
  ghost predicate Walked(env: Environment, p: Project, start: Module, visited: set<Module>, done: set<Module>,
                         libs: set<Candidate>, sdks: set<Sdk>)
  {
    && start in visited && done <= visited
    && (forall m :: m in done ==> DepsIn(Entries(p, m)) <= visited)
    && libs == CandidatesOfModules(env, p, done)
    && sdks == SdksOfModules(p, done)
    && Minimal(p, {start}, visited)
  }

  ghost predicate WalkState(env: Environment, p: Project, start: Module, universe: set<Module>, visited: set<Module>,
                            pending: set<Module>, done: set<Module>, libs: set<Candidate>, sdks: set<Sdk>)
  {
    pending <= visited <= universe && done == visited - pending && Walked(env, p, start, visited, done, libs, sdks)
  }

  /** Processing one more visited module keeps the walk's invariant. */
  lemma WalkStep(env: Environment, p: Project, start: Module, visited: set<Module>, done: set<Module>,
                 libs: set<Candidate>, sdks: set<Sdk>, m: Module,
                 visited': set<Module>, libs': set<Candidate>, sdks': set<Sdk>)
    requires Walked(env, p, start, visited, done, libs, sdks) && m in visited
    requires visited' == visited + DepsIn(Entries(p, m))
    requires libs' == libs + CandidatesIn(env, Entries(p, m))
    requires sdks' == sdks + SdksIn(Entries(p, m))
    ensures Walked(env, p, start, visited', done + {m}, libs', sdks')
  {
    CandidatesOfModulesUnion(env, p, done, {m});
    SdksOfModulesUnion(p, done, {m});
    forall s | {start} <= s && Closed(p, s) ensures visited' <= s {
      assert visited <= s;
    }
  }

  /** Taking `m` off the work list and adding the unvisited modules `deps` marks `m` done, and only `m`. */
  lemma PendingStep<T>(universe: set<T>, visited: set<T>, pending: set<T>, m: T, deps: set<T>,
                       visited': set<T>, pending': set<T>)
    requires pending <= visited <= universe && m in pending && deps <= universe
    requires visited' == visited + deps && pending' == (pending - {m}) + (deps - visited)
    ensures pending' <= visited' <= universe
    ensures visited' - pending' == (visited - pending) + {m}
    ensures |universe - (visited' - pending')| < |universe - (visited - pending)|
  {
    assert universe - (visited' - pending') == (universe - (visited - pending)) - {m};
  }

  lemma DepsInUniverse(p: Project, roots: set<Module>, m: Module)
    ensures DepsIn(Entries(p, m)) <= Universe(p, roots)
  {
    if m in p.orderEntries {
      forall d | d in DepsIn(p.orderEntries[m]) ensures d in Universe(p, roots) { }
    }
  }

  lemma WalkStart(env: Environment, p: Project, start: Module)
    ensures WalkState(env, p, start, Universe(p, {start}), {start}, {start}, {}, {}, {})
  {
    assert CandidatesOfModules(env, p, {}) == {};
    assert SdksOfModules(p, {}) == {};
  }

  /** A walk that has processed every module it met has reached exactly the modules reachable from its start. */
  lemma WalkEnd(env: Environment, p: Project, start: Module, universe: set<Module>, visited: set<Module>,
                done: set<Module>, libs: set<Candidate>, sdks: set<Sdk>)
    requires WalkState(env, p, start, universe, visited, {}, done, libs, sdks)
    ensures LeastClosed(p, {start}, visited)
    ensures libs == CandidatesOfModules(env, p, visited)
    ensures sdks == SdksOfModules(p, visited)
  {
  }

  /** One step of the walk: takes a module off the work list and processes its order entries. */
  method Visit(env: Environment, p: Project, start: Module, ghost universe: set<Module>,
               visited: set<Module>, pending: set<Module>, libs: set<Candidate>, sdks: set<Sdk>, ghost done: set<Module>)
    returns (visited': set<Module>, pending': set<Module>, libs': set<Candidate>, sdks': set<Sdk>, ghost done': set<Module>)
    requires universe == Universe(p, {start}) && pending != {}
    requires WalkState(env, p, start, universe, visited, pending, done, libs, sdks)
    ensures WalkState(env, p, start, universe, visited', pending', done', libs', sdks')
    ensures |universe - done'| < |universe - done|
  {
    var m :| m in pending;
    visited', pending', libs', sdks' := ProcessEntries(env, Entries(p, m), visited, pending - {m}, libs, sdks);
    WalkStep(env, p, start, visited, done, libs, sdks, m, visited', libs', sdks');
    DepsInUniverse(p, {start}, m);
    PendingStep(universe, visited, pending, m, DepsIn(Entries(p, m)), visited', pending');
    done' := done + {m};
  }

  /**
   * `computeLibrariesAndSdksUsedIn`: walks the order entries of a module and, transitively,
   * of the modules it depends on, entering each module once; gathers the live libraries'
   * candidates and the JDKs. `reached` is the set of modules walked.
   */
  method UsedIn(env: Environment, p: Project, start: Module)
    returns (libs: set<Candidate>, sdks: set<Sdk>, ghost reached: set<Module>)
    ensures LeastClosed(p, {start}, reached)
    ensures libs == CandidatesOfModules(env, p, reached)
    ensures sdks == SdksOfModules(p, reached)
  {
    ghost var universe := Universe(p, {start});
    var visited: set<Module> := {start};
    var pending: set<Module> := {start};
    libs, sdks := {}, {};
    ghost var done: set<Module> := {};
    WalkStart(env, p, start);
    while pending != {}
      invariant WalkState(env, p, start, universe, visited, pending, done, libs, sdks)
      decreases |universe - done|
    {
      visited, pending, libs, sdks, done := Visit(env, p, start, universe, visited, pending, libs, sdks, done);
    }
    WalkEnd(env, p, start, universe, visited, done, libs, sdks);
    reached := visited;
  }

  /** `filterForBuiltins`: for a core Kotlin library whose built-ins do not come from the class loader, keeps only candidates that hold a core Kotlin library. */
  function FilterForBuiltins(env: Environment, l: Library, cands: set<Candidate>): (r: set<Candidate>)
    ensures r <= cands
    ensures env.builtInsFromClassLoader || !env.isCoreKotlin(l) ==> r == cands
    ensures !env.builtInsFromClassLoader && env.isCoreKotlin(l) ==>
      forall c :: c in cands ==> (c in r <==> exists i :: 0 <= i < |c.libraries| && env.isCoreKotlin(c.libraries[i]))
  {
    if !env.builtInsFromClassLoader && env.isCoreKotlin(l) then
      set c | c in cands && exists i :: 0 <= i < |c.libraries| && env.isCoreKotlin(c.libraries[i])
    else cands
  }

  /** `flatMap { it.libraries }`. */
  function Flatten(cands: set<Candidate>): (r: set<Library>)
    ensures forall c, x :: c in cands && x in c.libraries ==> x in r
    ensures forall x :: x in r ==> exists c :: c in cands && x in c.libraries
  {
    set c, x | c in cands && x in c.libraries :: x
  }

  /** `computeLibrariesAndSdksUsedWith` for the modules `reached` from the modules using `l`. */
  ghost function ResultFor(env: Environment, p: Project, l: Library, reached: set<Module>): LibraryDependencies {
    var cands := FilterForBuiltins(env, l, CandidatesOfModules(env, p, reached));
    LibraryDependencies(Flatten(env.dependenciesFilter(l, cands)), SdksOfModules(p, reached))
  }

  /** `d` is what `computeLibrariesAndSdksUsedWith` yields for `l`. */
  ghost predicate DependenciesOk(env: Environment, p: Project, index: map<Library, set<Module>>, l: Library, d: LibraryDependencies) {
    exists v :: LeastClosed(p, ModulesUsing(env, index, l), v) && d == ResultFor(env, p, l, v)
  }

  /** `r` is what `computeLibrariesAndSdksUsedIn` yields for `m`. */
  ghost predicate ModuleResultOk(env: Environment, p: Project, m: Module, r: (set<Candidate>, set<Sdk>)) {
    exists v :: LeastClosed(p, {m}, v) && r == (CandidatesOfModules(env, p, v), SdksOfModules(p, v))
  }

  /** A library has one dependency result: a memoised value equals a recomputation. */
  lemma DependenciesUnique(env: Environment, p: Project, index: map<Library, set<Module>>, l: Library,
                           d1: LibraryDependencies, d2: LibraryDependencies)
    requires DependenciesOk(env, p, index, l, d1) && DependenciesOk(env, p, index, l, d2)
    ensures d1 == d2
  {
    var v1 :| LeastClosed(p, ModulesUsing(env, index, l), v1) && d1 == ResultFor(env, p, l, v1);
    var v2 :| LeastClosed(p, ModulesUsing(env, index, l), v2) && d2 == ResultFor(env, p, l, v2);
    LeastClosedUnique(p, ModulesUsing(env, index, l), v1, v2);
  }

  /** A module has one walk result: a memoised value equals a recomputation. */
  lemma ModuleResultUnique(env: Environment, p: Project, m: Module, r1: (set<Candidate>, set<Sdk>), r2: (set<Candidate>, set<Sdk>))
    requires ModuleResultOk(env, p, m, r1) && ModuleResultOk(env, p, m, r2)
    ensures r1 == r2
  {
    var v1 :| LeastClosed(p, {m}, v1) && r1 == (CandidatesOfModules(env, p, v1), SdksOfModules(p, v1));
    var v2 :| LeastClosed(p, {m}, v2) && r2 == (CandidatesOfModules(env, p, v2), SdksOfModules(p, v2));
    LeastClosedUnique(p, {m}, v1, v2);
  }

  /** `libs` and `sdks` are the union of the walk results of the modules in `done`, which together reach `reached`. */
  ghost predicate Aggregated(env: Environment, p: Project, done: set<Module>, reached: set<Module>,
                             libs: set<Candidate>, sdks: set<Sdk>)
  {
    LeastClosed(p, done, reached) && libs == CandidatesOfModules(env, p, reached) && sdks == SdksOfModules(p, reached)
  }

  lemma AggregateStart(env: Environment, p: Project)
    ensures Aggregated(env, p, {}, {}, {}, {})
  {
    assert CandidatesOfModules(env, p, {}) == {};
    assert SdksOfModules(p, {}) == {};
  }

  /** Adding one module's walk result to the union is the result for one more root. */
  lemma AggregateStep(env: Environment, p: Project, done: set<Module>, reached: set<Module>,
                      libs: set<Candidate>, sdks: set<Sdk>, m: Module, r: (set<Candidate>, set<Sdk>))
    returns (reached': set<Module>)
    requires Aggregated(env, p, done, reached, libs, sdks) && ModuleResultOk(env, p, m, r)
    ensures Aggregated(env, p, done + {m}, reached', libs + r.0, sdks + r.1)
  {
    var v :| LeastClosed(p, {m}, v) && r == (CandidatesOfModules(env, p, v), SdksOfModules(p, v));
    LeastClosedUnion(p, done, reached, {m}, v);
    CandidatesOfModulesUnion(env, p, reached, v);
    SdksOfModulesUnion(p, reached, v);
    reached' := reached + v;
  }

  /** `LibraryDependenciesCacheImpl`: the usage index and the two memo tables. */
  class LibraryDependenciesCache {
    const env: Environment
    const project: Project
    const index: map<Library, set<Module>>
    var cache: map<Library, LibraryDependencies>
    var moduleCache: map<Module, (set<Candidate>, set<Sdk>)>

    /** The usage index lists exactly the modules holding each library. */
    ghost predicate IndexValid() {
      forall l, m :: m in Lookup(index, l) <==> UsesLibrary(project, m, l)
    }

    /** Every memoised module result is what walking that module yields. */
    ghost predicate ModulesValid()
      reads this`moduleCache
    {
      forall m :: m in moduleCache ==> ModuleResultOk(env, project, m, moduleCache[m])
    }

    /** Every memoised library result is what computing that library's dependencies yields. */
    ghost predicate LibrariesValid()
      reads this`cache
    {
      forall l :: l in cache ==> DependenciesOk(env, project, index, l, cache[l])
    }

    ghost predicate Valid()
      reads this`cache, this`moduleCache
    {
      IndexValid() && ModulesValid() && LibrariesValid()
    }

    constructor(env: Environment, project: Project)
      ensures this.env == env && this.project == project
      ensures cache == map[] && moduleCache == map[]
      ensures Valid()
    {
      this.env := env;
      this.project := project;
      var index := BuildUsageIndex(project);
      this.index := index;
      cache := map[];
      moduleCache := map[];
    }

    /** `moduleDependenciesCache.getOrPut(module) { computeLibrariesAndSdksUsedIn(module) }`. */
    method ModuleDependencies(m: Module) returns (r: (set<Candidate>, set<Sdk>))
      requires ModulesValid()
      modifies this`moduleCache
      ensures ModulesValid()
      ensures ModuleResultOk(env, project, m, r)
      ensures m in old(moduleCache) ==> r == old(moduleCache)[m] && moduleCache == old(moduleCache)
      ensures m !in old(moduleCache) ==> moduleCache == old(moduleCache)[m := r]
    {
      if m in moduleCache {
        return moduleCache[m];
      }
      var libs, sdks, reached := UsedIn(env, project, m);
      r := (libs, sdks);
      moduleCache := moduleCache[m := r];
    }

    /** `computeLibrariesAndSdksUsedWithNoFilter`: the union over the modules using `l`, filtered for built-ins, and the SDK union. */
    method UsedWithNoFilter(l: Library) returns (cands: set<Candidate>, sdks: set<Sdk>, ghost reached: set<Module>)
      requires ModulesValid()
      modifies this`moduleCache
      ensures ModulesValid()
      ensures LeastClosed(project, ModulesUsing(env, index, l), reached)
      ensures cands == FilterForBuiltins(env, l, CandidatesOfModules(env, project, reached))
      ensures sdks == SdksOfModules(project, reached)
    {
      var modules := ModulesUsing(env, index, l);
      var libs: set<Candidate> := {};
      sdks := {};
      ghost var done: set<Module> := {};
      reached := {};
      AggregateStart(env, project);
      while modules != {}
        invariant ModulesValid()
        invariant done + modules == ModulesUsing(env, index, l)
        invariant Aggregated(env, project, done, reached, libs, sdks)
        decreases |modules|
      {
        var m :| m in modules;
        var r := ModuleDependencies(m);
        reached := AggregateStep(env, project, done, reached, libs, sdks, m, r);
        libs := libs + r.0;
        sdks := sdks + r.1;
        done := done + {m};
        modules := modules - {m};
      }
      cands := FilterForBuiltins(env, l, libs);
    }

    /** `computeLibrariesAndSdksUsedWith`: the filtered candidates' libraries and the SDKs. */
    method UsedWith(l: Library) returns (d: LibraryDependencies)
      requires ModulesValid()
      modifies this`moduleCache
      ensures ModulesValid()
      ensures DependenciesOk(env, project, index, l, d)
    {
      var cands, sdks, reached := UsedWithNoFilter(l);
      d := LibraryDependencies(Flatten(env.dependenciesFilter(l, cands)), sdks);
      assert d == ResultFor(env, project, l, reached);
    }

    /** `getLibraryDependencies`: computes a library's dependencies once and afterwards returns the stored value. */
    method GetLibraryDependencies(l: Library) returns (d: LibraryDependencies)
      requires Valid()
      modifies this`cache, this`moduleCache
      ensures Valid()
      ensures DependenciesOk(env, project, index, l, d)
      ensures l in old(cache) ==> d == old(cache)[l] && cache == old(cache) && moduleCache == old(moduleCache)
      ensures l !in old(cache) ==> cache == old(cache)[l := d]
    {
      if l in cache {
        return cache[l];
      }
      d := UsedWith(l);
      cache := cache[l := d];
    }
  }
}
