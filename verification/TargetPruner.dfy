// The build-directory pruner of `xtask`: the worklist that closes the uplifted
// artifacts under their dependencies, and the unit pass that relies on it.

module TargetPruner {
  import opened Outcome

  type UnitHash = int
  type FingerprintHash = int
  type Time = nat

  /** Path components; `dir <= path` says the path lies under the directory. */
  type Path = seq<int>

  /**
   * An entry of `deps/` or `examples/`. Entries with a unit id are grouped by name
   * and hash; `run` is the access time of an executable.
   */
  datatype UnitFile = UnitFile(name: int, hash: UnitHash, isUnit: bool, inode: int, written: Time, run: Option<Time>)

  datatype BuildEntry = BuildEntry(hash: UnitHash, isDir: bool, written: Option<Time>)

  /** A fingerprint directory: the hashes it declares as its own, the dependencies it lists. */
  datatype Fingerprint = Fingerprint(hash: UnitHash, own: seq<FingerprintHash>, deps: seq<FingerprintHash>,
                                     written: Option<Time>)

  datatype UnitId = UnitId(name: int, hash: UnitHash)

  // ---- The dependency graph ----

  datatype Graph = Graph(dirOf: map<UnitHash, Fingerprint>, byHash: map<FingerprintHash, UnitHash>)

  /** `u`'s fingerprint lists a dependency that resolves to `v`. */
  ghost predicate DependsOn(g: Graph, u: UnitHash, v: UnitHash) {
    u in g.dirOf && exists d :: d in g.dirOf[u].deps && d in g.byHash && g.byHash[d] == v
  }

  /** No two different fingerprints name the same unit or declare the same hash. */
  ghost predicate Unambiguous(dirs: seq<Fingerprint>) {
    forall f, t :: f in dirs && t in dirs && Clash(f, t) ==> f == t
  }

  ghost predicate Clash(f: Fingerprint, t: Fingerprint) {
    f.hash == t.hash || exists d :: d in f.own && d in t.own
  }

  /** Some directory of unit `u` declares `d`. */
  ghost predicate DeclaredBy(dirs: seq<Fingerprint>, d: FingerprintHash, u: UnitHash) {
    exists i :: 0 <= i < |dirs| && d in dirs[i].own && dirs[i].hash == u
  }

  ghost predicate DirsNamed(dirOf: map<UnitHash, Fingerprint>, dirs: seq<Fingerprint>) {
    && (forall i :: 0 <= i < |dirs| ==> dirs[i].hash in dirOf)
    && (forall u :: u in dirOf ==> dirOf[u] in dirs && dirOf[u].hash == u)
  }

  ghost predicate HashesNamed(byHash: map<FingerprintHash, UnitHash>, dirs: seq<Fingerprint>) {
    && (forall i, d :: 0 <= i < |dirs| && d in dirs[i].own ==> d in byHash)
    && (forall d :: d in byHash ==> DeclaredBy(dirs, d, byHash[d]))
  }

  /** The tables name every listed directory and every declared hash, and nothing else. */
  ghost predicate Names(g: Graph, dirs: seq<Fingerprint>) {
    DirsNamed(g.dirOf, dirs) && HashesNamed(g.byHash, dirs)
  }

  /** Enter the hashes one directory declares. */
  method Declare(byHash: map<FingerprintHash, UnitHash>, f: Fingerprint) returns (r: map<FingerprintHash, UnitHash>)
    ensures r.Keys == byHash.Keys + set d | d in f.own
    ensures forall d :: d in r ==> if d in f.own then r[d] == f.hash else r[d] == byHash[d]
  {
    r := byHash;
    for m := 0 to |f.own|
      invariant r.Keys == byHash.Keys + set d | d in f.own[..m]
      invariant forall d :: d in r ==> if d in f.own[..m] then r[d] == f.hash else r[d] == byHash[d]
    {
      assert f.own[..m + 1] == f.own[..m] + [f.own[m]];
      r := r[f.own[m] := f.hash];
    }
    assert f.own[..|f.own|] == f.own;
  }

  /** The two lookup tables, filled directory by directory; a later entry replaces an earlier one. */
  method BuildGraph(dirs: seq<Fingerprint>) returns (g: Graph)
    ensures Names(g, dirs)
  {
    g := Graph(map[], map[]);
    for k := 0 to |dirs|
      invariant Names(g, dirs[..k])
    {
      var byHash := Declare(g.byHash, dirs[k]);
      HashesNamedSnoc(g.byHash, byHash, dirs[..k], dirs[k]);
      g := Graph(g.dirOf[dirs[k].hash := dirs[k]], byHash);
      assert dirs[..k + 1] == dirs[..k] + [dirs[k]];
    }
    assert dirs[..|dirs|] == dirs;
  }

  lemma HashesNamedSnoc(before: map<FingerprintHash, UnitHash>, after: map<FingerprintHash, UnitHash>,
                        dirs: seq<Fingerprint>, f: Fingerprint)
    requires HashesNamed(before, dirs) && after.Keys == before.Keys + set d | d in f.own
    requires forall d :: d in after ==> if d in f.own then after[d] == f.hash else after[d] == before[d]
    ensures HashesNamed(after, dirs + [f])
  {
    var longer := dirs + [f];
    assert longer[|dirs|] == f;
    forall d | d in after ensures DeclaredBy(longer, d, after[d]) {
      if d !in f.own {
        assert DeclaredBy(dirs, d, before[d]);
        var i :| 0 <= i < |dirs| && d in dirs[i].own && dirs[i].hash == before[d];
        assert d in longer[i].own;
      }
    }
  }

  /** The edges are the ones the fingerprints state, when no two of them clash. */
  lemma EdgesAreFingerprints(g: Graph, dirs: seq<Fingerprint>, f: Fingerprint, t: Fingerprint)
    requires Names(g, dirs) && Unambiguous(dirs) && f in dirs && t in dirs
    ensures DependsOn(g, f.hash, t.hash) <==> exists d :: d in f.deps && d in t.own
  {
    assert Clash(g.dirOf[f.hash], f);
    if DependsOn(g, f.hash, t.hash) {
      var d :| d in f.deps && d in g.byHash && g.byHash[d] == t.hash;
      assert DeclaredBy(dirs, d, t.hash);
      var i :| 0 <= i < |dirs| && d in dirs[i].own && dirs[i].hash == t.hash;
      assert Clash(dirs[i], t);
    }
    if exists d :: d in f.deps && d in t.own {
      var d :| d in f.deps && d in t.own;
      assert DeclaredBy(dirs, d, g.byHash[d]);
      var i :| 0 <= i < |dirs| && d in dirs[i].own && dirs[i].hash == g.byHash[d];
      assert Clash(dirs[i], t);
    }
  }

  // ---- The worklist ----

  ghost predicate Steps(g: Graph, path: seq<UnitHash>) {
    forall i :: 0 <= i < |path| - 1 ==> StepAt(g, path, i)
  }

  ghost predicate StepAt(g: Graph, path: seq<UnitHash>, i: nat)
    requires i + 1 < |path|
  {
    DependsOn(g, path[i], path[i + 1])
  }

  ghost predicate LeadsTo(g: Graph, roots: set<UnitHash>, path: seq<UnitHash>, u: UnitHash) {
    path != [] && path[0] in roots && path[|path| - 1] == u && Steps(g, path)
  }

  /** Some chain of dependencies leads from a root to `u`. */
  ghost predicate Reachable(g: Graph, roots: set<UnitHash>, u: UnitHash) {
    exists path :: LeadsTo(g, roots, path, u)
  }

  ghost predicate ClosedUnder(g: Graph, s: set<UnitHash>) {
    forall u, v :: u in s && DependsOn(g, u, v) ==> v in s
  }

  lemma RootReachable(g: Graph, roots: set<UnitHash>, u: UnitHash)
    requires u in roots
    ensures Reachable(g, roots, u)
  {
    assert LeadsTo(g, roots, [u], u);
  }

  lemma StepReachable(g: Graph, roots: set<UnitHash>, u: UnitHash, v: UnitHash)
    requires Reachable(g, roots, u) && DependsOn(g, u, v)
    ensures Reachable(g, roots, v)
  {
    var path :| LeadsTo(g, roots, path, u);
    var longer := path + [v];
    forall i | 0 <= i < |longer| - 1 ensures StepAt(g, longer, i) {
      assert i < |path| - 1 ==> StepAt(g, path, i);
    }
    assert LeadsTo(g, roots, longer, v);
  }

  /** A closed set with the roots holds everything reachable. */
  lemma {:induction false} ClosedHoldsPath(g: Graph, roots: set<UnitHash>, s: set<UnitHash>, path: seq<UnitHash>,
                                           u: UnitHash)
    requires ClosedUnder(g, s) && roots <= s && LeadsTo(g, roots, path, u)
    ensures u in s
    decreases |path|
  {
    if |path| > 1 {
      var shorter := path[..|path| - 1];
      forall i | 0 <= i < |shorter| - 1 ensures StepAt(g, shorter, i) {
        assert StepAt(g, path, i);
      }
      ClosedHoldsPath(g, roots, s, shorter, shorter[|shorter| - 1]);
      assert StepAt(g, path, |path| - 2);
    }
  }

  /** The closure: what is reachable from the roots. */
  ghost predicate IsClosure(g: Graph, roots: set<UnitHash>, s: set<UnitHash>) {
    forall u :: u in s <==> Reachable(g, roots, u)
  }

  /** The reachable units are the least closed set that holds the roots. */
  lemma ClosureIsLeast(g: Graph, roots: set<UnitHash>, s: set<UnitHash>, other: set<UnitHash>)
    requires IsClosure(g, roots, s)
    ensures roots <= s && ClosedUnder(g, s)
    ensures roots <= other && ClosedUnder(g, other) ==> s <= other
  {
    forall u | u in roots ensures u in s {
      RootReachable(g, roots, u);
    }
    forall u, v | u in s && DependsOn(g, u, v) ensures v in s {
      StepReachable(g, roots, u, v);
    }
    if roots <= other && ClosedUnder(g, other) {
      forall u | u in s ensures u in other {
        var path :| LeadsTo(g, roots, path, u);
        ClosedHoldsPath(g, roots, other, path, u);
      }
    }
  }

  function Elements(s: seq<UnitHash>): (r: set<UnitHash>)
    ensures forall u :: u in r <==> u in s
  {
    set u | u in s
  }

  /** Units that resolve from a list of dependency hashes. */
  function Resolved(g: Graph, deps: seq<FingerprintHash>): set<UnitHash> {
    set d | d in deps && d in g.byHash :: g.byHash[d]
  }

  lemma ResolvedSnoc(g: Graph, deps: seq<FingerprintHash>, k: nat)
    requires k < |deps|
    ensures Resolved(g, deps[..k + 1]) ==
      Resolved(g, deps[..k]) + if deps[k] in g.byHash then {g.byHash[deps[k]]} else {}
  {
    var shorter, longer := deps[..k], deps[..k + 1];
    assert longer == shorter + [deps[k]];
    forall u | u in Resolved(g, longer)
      ensures u in Resolved(g, shorter) || (deps[k] in g.byHash && u == g.byHash[deps[k]])
    {
      var d :| d in longer && d in g.byHash && g.byHash[d] == u;
      assert d in shorter || d == deps[k];
    }
    forall u | u in Resolved(g, shorter) ensures u in Resolved(g, longer) {
      var d :| d in shorter && d in g.byHash && g.byHash[d] == u;
      assert d in longer;
    }
    assert longer[k] == deps[k];
    if deps[k] in g.byHash {
      assert g.byHash[deps[k]] in Resolved(g, longer);
    }
  }

  /** Push the dependencies of one unit. */
  method PushDeps(g: Graph, stack: seq<UnitHash>, deps: seq<FingerprintHash>) returns (r: seq<UnitHash>)
    ensures Elements(r) == Elements(stack) + Resolved(g, deps)
  {
    r := stack;
    for k := 0 to |deps|
      invariant Elements(r) == Elements(stack) + Resolved(g, deps[..k])
    {
      ResolvedSnoc(g, deps, k);
      if deps[k] in g.byHash {
        ghost var before := r;
        r := r + [g.byHash[deps[k]]];
        assert Elements(r) == Elements(before) + {g.byHash[deps[k]]};
      }
    }
    assert deps[..|deps|] == deps;
  }

  /** The loop state: `pending` still to visit, everything visited has its dependencies visited or pending. */
  ghost predicate Worklist(g: Graph, roots: set<UnitHash>, closure: set<UnitHash>, pending: set<UnitHash>) {
    && roots <= closure + pending
    && (forall u :: u in closure + pending ==> Reachable(g, roots, u))
    && (forall u, v :: u in closure && DependsOn(g, u, v) ==> v in closure + pending)
  }

  lemma WorklistStep(g: Graph, roots: set<UnitHash>, closure: set<UnitHash>, pending: set<UnitHash>,
                     u: UnitHash, pushed: set<UnitHash>)
    requires Worklist(g, roots, closure, pending + {u})
    requires forall v :: v in pushed <==> DependsOn(g, u, v)
    ensures Worklist(g, roots, closure + {u}, pending + pushed)
  {
    forall v | v in closure + {u} + (pending + pushed) ensures Reachable(g, roots, v) {
      if v in pushed {
        StepReachable(g, roots, u, v);
      }
    }
  }

  lemma DrainedWorklist(g: Graph, roots: set<UnitHash>, closure: set<UnitHash>)
    requires Worklist(g, roots, closure, {})
    ensures IsClosure(g, roots, closure)
  {
    assert closure + {} == closure;
    forall u | Reachable(g, roots, u) ensures u in closure {
      var path :| LeadsTo(g, roots, path, u);
      ClosedHoldsPath(g, roots, closure, path, u);
    }
  }

  /** The worklist of `uplifted_closure`: pop, visit once, push the resolved dependencies. */
  method Close(g: Graph, roots: seq<UnitHash>) returns (closure: set<UnitHash>)
    ensures IsClosure(g, Elements(roots), closure)
  {
    closure := {};
    var stack := roots;
    ghost var universe := Elements(roots) + g.byHash.Values;
    forall u | u in Elements(roots) ensures Reachable(g, Elements(roots), u) {
      RootReachable(g, Elements(roots), u);
    }
    while stack != []
      invariant Worklist(g, Elements(roots), closure, Elements(stack))
      invariant closure <= universe && Elements(stack) <= universe
      decreases universe - closure, |stack|
    {
      var u := stack[|stack| - 1];
      var rest := stack[..|stack| - 1];
      assert stack == rest + [u];
      assert Elements(stack) == Elements(rest) + {u};
      assert u in universe;
      stack := rest;
      if u !in closure {
        ghost var before := closure;
        closure := closure + {u};
        var deps := if u in g.dirOf then g.dirOf[u].deps else [];
        stack := PushDeps(g, rest, deps);
        WorklistStep(g, Elements(roots), before, Elements(rest), u, Resolved(g, deps));
        assert u in universe - before && u !in universe - closure;
      } else {
        assert closure + Elements(rest) == closure + (Elements(rest) + {u});
      }
    }
    DrainedWorklist(g, Elements(roots), closure);
  }

  // ---- The unit passes ----

  type Files = map<Path, UnitFile>
  type Builds = map<Path, BuildEntry>
  type Fingerprints = map<Path, Fingerprint>

  /** What a pass is given: the live usage records, the closure, the cut-off and the target-directory check. */
  datatype Pass = Pass(used: set<Path>, uplifted: set<UnitHash>, before: Time, inside: Path -> bool)

  function IdOf(f: UnitFile): UnitId {
    UnitId(f.name, f.hash)
  }

  predicate Recent(f: UnitFile, before: Time) {
    f.written > before || (f.run.Some? && f.run.value > before)
  }

  /** A unit stays when it is uplifted, or any of its files is recorded as used or recent. */
  ghost predicate InUse(files: Files, id: UnitId, c: Pass) {
    || id.hash in c.uplifted
    || exists p :: p in files && files[p].isUnit && IdOf(files[p]) == id && (p in c.used || Recent(files[p], c.before))
  }

  ghost predicate Stale(files: Files, p: Path, c: Pass) {
    p in files && files[p].isUnit && c.inside(p) && !InUse(files, IdOf(files[p]), c)
  }

  /** The directory without its stale files. */
  ghost function Swept(files: Files, c: Pass): Files {
    map p | p in files && !Stale(files, p, c) :: files[p]
  }

  ghost function StaleHashes(files: Files, c: Pass): set<UnitHash> {
    set p | p in files && Stale(files, p, c) :: files[p].hash
  }

  /** The fingerprints left after those of the given units are removed. */
  function Without(fingerprints: Fingerprints, hashes: set<UnitHash>, c: Pass): Fingerprints {
    map d | d in fingerprints && !(fingerprints[d].hash in hashes && c.inside(d)) :: fingerprints[d]
  }

  /** Files by unit id, in the order the directory lists them. */
  method GroupUnits(files: Files) returns (units: map<UnitId, seq<Path>>)
    ensures forall id, p :: id in units && p in units[id] <==> p in files && files[p].isUnit && IdOf(files[p]) == id
  {
    units := map[];
    var rest := files.Keys;
    while rest != {}
      invariant rest <= files.Keys
      invariant forall id, p :: id in units && p in units[id] <==>
                                p in files && p !in rest && files[p].isUnit && IdOf(files[p]) == id
      decreases rest
    {
      var p :| p in rest;
      rest := rest - {p};
      if files[p].isUnit {
        var id := IdOf(files[p]);
        var listed := if id in units then units[id] else [];
        units := units[id := listed + [p]];
      }
    }
  }

  /** Whether a record names one of the files, or the newest write or run is after the cut-off. */
  method KeepsUnit(files: Files, id: UnitId, paths: seq<Path>, c: Pass) returns (keep: bool)
    requires forall p :: p in paths <==> p in files && files[p].isUnit && IdOf(files[p]) == id
    ensures keep <==> InUse(files, id, c)
  {
    if id.hash in c.uplifted {
      return true;
    }
    var touched, run := 0, 0;
    for k := 0 to |paths|
      invariant forall j :: 0 <= j < k ==> paths[j] !in c.used
      invariant touched > c.before <==> exists j :: 0 <= j < k && files[paths[j]].written > c.before
      invariant run > c.before <==>
        exists j :: 0 <= j < k && files[paths[j]].run.Some? && files[paths[j]].run.value > c.before
    {
      assert paths[k] in paths;
      if paths[k] in c.used {
        return true;
      }
      var f := files[paths[k]];
      touched := if f.written > touched then f.written else touched;
      run := if f.run.Some? && f.run.value > run then f.run.value else run;
    }
    keep := (if touched > run then touched else run) > c.before;
    if keep {
      var j :| 0 <= j < |paths| && Recent(files[paths[j]], c.before);
      assert paths[j] in paths;
    }
  }

  /** Staleness of the units decided so far. */
  ghost predicate StaleIn(files: Files, p: Path, c: Pass, done: set<UnitId>) {
    Stale(files, p, c) && IdOf(files[p]) in done
  }

  ghost function SweptIn(files: Files, c: Pass, done: set<UnitId>): Files {
    map p | p in files && !StaleIn(files, p, c, done) :: files[p]
  }

  ghost function StaleHashesIn(files: Files, c: Pass, done: set<UnitId>): set<UnitHash> {
    set p | p in files && StaleIn(files, p, c, done) :: files[p].hash
  }

  /**
   * `prune_deps_units`: the stale units of one directory lose the files that may
   * be deleted, and every fingerprint with the hash of a unit that lost one.
   */
  method PruneDepsUnits(files: Files, fingerprints: Fingerprints, c: Pass) returns (left: Files, kept: Fingerprints)
    ensures left == Swept(files, c)
    ensures kept == Without(fingerprints, StaleHashes(files, c), c)
  {
    var units := GroupUnits(files);
    left, kept := files, fingerprints;
    var rest := units.Keys;
    ghost var done := {};
    while rest != {}
      invariant rest <= units.Keys && done == units.Keys - rest
      invariant left == SweptIn(files, c, done)
      invariant kept == Without(fingerprints, StaleHashesIn(files, c, done), c)
      decreases rest
    {
      var id :| id in rest;
      var keep := KeepsUnit(files, id, units[id], c);
      var removed := set p | p in units[id] && c.inside(p) && !keep;
      UnitSwept(files, fingerprints, c, done, id, removed);
      rest, done := rest - {id}, done + {id};
      left := left - removed;
      if removed != {} {
        kept := Without(kept, {id.hash}, c);
      }
    }
    AllSwept(files, c, done);
  }

  lemma UnitSwept(files: Files, fingerprints: Fingerprints, c: Pass, done: set<UnitId>, id: UnitId, removed: set<Path>)
    requires forall p :: p in removed <==> Stale(files, p, c) && IdOf(files[p]) == id
    ensures SweptIn(files, c, done + {id}) == SweptIn(files, c, done) - removed
    ensures var kept := Without(fingerprints, StaleHashesIn(files, c, done), c);
      Without(fingerprints, StaleHashesIn(files, c, done + {id}), c) ==
        if removed == {} then kept else Without(kept, {id.hash}, c)
  {
    StaleHashesGrow(files, c, done, id, removed);
  }

  lemma AllSwept(files: Files, c: Pass, done: set<UnitId>)
    requires forall p :: p in files && files[p].isUnit ==> IdOf(files[p]) in done
    ensures SweptIn(files, c, done) == Swept(files, c) && StaleHashesIn(files, c, done) == StaleHashes(files, c)
  {
    assert forall p :: Stale(files, p, c) <==> StaleIn(files, p, c, done);
  }

  lemma StaleHashesGrow(files: Files, c: Pass, done: set<UnitId>, id: UnitId, removed: set<Path>)
    requires forall p :: p in removed <==> Stale(files, p, c) && IdOf(files[p]) == id
    ensures StaleHashesIn(files, c, done + {id}) ==
      StaleHashesIn(files, c, done) + if removed == {} then {} else {id.hash}
  {
    forall h | h in StaleHashesIn(files, c, done + {id})
      ensures h in StaleHashesIn(files, c, done) || (removed != {} && h == id.hash)
    {
      var p :| p in files && StaleIn(files, p, c, done + {id}) && files[p].hash == h;
      assert StaleIn(files, p, c, done) || p in removed;
    }
    forall h | h in StaleHashesIn(files, c, done) ensures h in StaleHashesIn(files, c, done + {id}) {
      var p :| p in files && StaleIn(files, p, c, done) && files[p].hash == h;
      assert StaleIn(files, p, c, done + {id});
    }
    if removed != {} {
      var p :| p in removed;
      assert StaleIn(files, p, c, done + {id}) && files[p].hash == id.hash;
    }
  }

  /** A build-script directory that nothing keeps. */
  predicate StaleBuild(p: Path, b: BuildEntry, c: Pass) {
    && c.inside(p) && b.isDir && b.hash !in c.uplifted
    && (forall u :: u in c.used ==> !(p <= u))
    && (b.written.None? || b.written.value <= c.before)
  }

  /** `prune_build_dirs`. */
  method PruneBuildDirs(build: Builds, c: Pass) returns (left: Builds)
    ensures left == map p | p in build && !StaleBuild(p, build[p], c) :: build[p]
  {
    left := build;
    var rest := build.Keys;
    while rest != {}
      invariant rest <= build.Keys
      invariant left == map p | p in build && (p in rest || !StaleBuild(p, build[p], c)) :: build[p]
      decreases rest
    {
      var p :| p in rest;
      rest := rest - {p};
      if StaleBuild(p, build[p], c) {
        left := left - {p};
      }
    }
  }

  /** Unit hashes with something left in `deps`, `examples` or `build`. */
  function Present(deps: Files, examples: Files, build: Builds): set<UnitHash> {
    (set p | p in deps :: deps[p].hash) + (set p | p in examples :: examples[p].hash)
    + (set p | p in build :: build[p].hash)
  }

  predicate OrphanFingerprint(d: Path, f: Fingerprint, present: set<UnitHash>, c: Pass) {
    && f.hash !in present && f.hash !in c.uplifted && c.inside(d)
    && (f.written.None? || f.written.value <= c.before)
  }

  /** `prune_orphan_fingerprints`. */
  method PruneOrphanFingerprints(fingerprints: Fingerprints, present: set<UnitHash>, c: Pass)
    returns (kept: Fingerprints)
    ensures kept == map d | d in fingerprints && !OrphanFingerprint(d, fingerprints[d], present, c) :: fingerprints[d]
  {
    kept := fingerprints;
    var rest := fingerprints.Keys;
    while rest != {}
      invariant rest <= fingerprints.Keys
      invariant kept ==
        map d | d in fingerprints && (d in rest || !OrphanFingerprint(d, fingerprints[d], present, c)) ::
          fingerprints[d]
      decreases rest
    {
      var d :| d in rest;
      rest := rest - {d};
      if OrphanFingerprint(d, fingerprints[d], present, c) {
        kept := kept - {d};
      }
    }
  }

  // ---- The uplifted roots ----

  /** A unit file shares its inode with a plain-named artifact: cargo uplifted it. */
  ghost predicate Uplifted(files: Files, plain: seq<int>, p: Path) {
    p in files && files[p].isUnit && files[p].inode in plain
  }

  /** The units of the uplifted artifacts. */
  ghost function RootSet(files: Files, plain: seq<int>): set<UnitHash> {
    set p | p in files && Uplifted(files, plain, p) :: files[p].hash
  }

  ghost predicate OneUnitPerInode(files: Files) {
    forall p, q :: p in files && q in files && files[p].inode == files[q].inode ==> files[p].hash == files[q].hash
  }

  ghost predicate UnitAt(files: Files, p: Path, inode: int, hash: UnitHash) {
    p in files && files[p].isUnit && files[p].inode == inode && files[p].hash == hash
  }

  /** Units by inode; a later file replaces an earlier one. */
  method ByInode(files: Files) returns (m: map<int, UnitHash>)
    ensures forall i :: i in m ==> exists p :: UnitAt(files, p, i, m[i])
    ensures forall p :: p in files && files[p].isUnit ==> files[p].inode in m
  {
    m := map[];
    var rest := files.Keys;
    while rest != {}
      invariant rest <= files.Keys
      invariant forall i :: i in m ==> exists p :: UnitAt(files, p, i, m[i])
      invariant forall p :: p in files && p !in rest && files[p].isUnit ==> files[p].inode in m
      decreases rest
    {
      var p :| p in rest;
      rest := rest - {p};
      if files[p].isUnit {
        assert UnitAt(files, p, files[p].inode, files[p].hash);
        m := m[files[p].inode := files[p].hash];
      }
    }
  }

  /** The hashes of the uplifted units, `plain` being the inodes of the plain-named artifacts. */
  method UpliftedRoots(files: Files, plain: seq<int>) returns (roots: seq<UnitHash>)
    ensures Elements(roots) <= RootSet(files, plain)
    ensures OneUnitPerInode(files) ==> Elements(roots) == RootSet(files, plain)
  {
    var byInode := ByInode(files);
    roots := [];
    for k := 0 to |plain|
      invariant Elements(roots) <= RootSet(files, plain)
      invariant forall j :: 0 <= j < k && plain[j] in byInode ==> byInode[plain[j]] in roots
    {
      if plain[k] in byInode {
        ghost var p :| UnitAt(files, p, plain[k], byInode[plain[k]]);
        assert Uplifted(files, plain, p);
        roots := roots + [byInode[plain[k]]];
      }
    }
    forall p | OneUnitPerInode(files) && Uplifted(files, plain, p) ensures files[p].hash in Elements(roots) {
      var j :| 0 <= j < |plain| && plain[j] == files[p].inode;
      var q :| UnitAt(files, q, plain[j], byInode[plain[j]]);
    }
  }

  // ---- The whole pass over one profile ----

  datatype Dir = Dir(deps: Files, examples: Files, build: Builds, fingerprints: Fingerprints)

  ghost function SweptBuild(build: Builds, c: Pass): Builds {
    map p | p in build && !StaleBuild(p, build[p], c) :: build[p]
  }

  ghost function SweptFingerprints(fingerprints: Fingerprints, present: set<UnitHash>, c: Pass): Fingerprints {
    map d | d in fingerprints && !OrphanFingerprint(d, fingerprints[d], present, c) :: fingerprints[d]
  }

  /** What one pass leaves. */
  ghost function Pruned(dir: Dir, c: Pass): Dir {
    var deps, examples, build := Swept(dir.deps, c), Swept(dir.examples, c), SweptBuild(dir.build, c);
    var kept := Without(Without(dir.fingerprints, StaleHashes(dir.deps, c), c), StaleHashes(dir.examples, c), c);
    Dir(deps, examples, build, SweptFingerprints(kept, Present(deps, examples, build), c))
  }

  method ListFingerprints(fingerprints: Fingerprints) returns (dirs: seq<Fingerprint>)
    ensures forall f :: f in dirs <==> f in fingerprints.Values
  {
    dirs := [];
    var rest := fingerprints.Keys;
    while rest != {}
      invariant rest <= fingerprints.Keys
      invariant forall f :: f in dirs <==> exists d :: d in fingerprints && d !in rest && fingerprints[d] == f
      decreases rest
    {
      var d :| d in rest;
      rest := rest - {d};
      dirs := dirs + [fingerprints[d]];
    }
  }

  class Profile {
    /** Inodes of the artifacts with plain names, in the profile and its `examples`. */
    const plain: seq<int>
    /** `.fingerprint` is a link that leaves the target directory or resolves nowhere. */
    const outside: bool
    var dir: Dir

    constructor (dir: Dir, plain: seq<int>, outside: bool)
      ensures this.dir == dir && this.plain == plain && this.outside == outside
    {
      this.dir := dir;
      this.plain := plain;
      this.outside := outside;
    }

    /** `uplifted_closure`; `None` when the fingerprints cannot be trusted. */
    method UpliftedClosure()
      returns (r: Option<set<UnitHash>>, ghost g: Graph, ghost dirs: seq<Fingerprint>, ghost roots: seq<UnitHash>)
      ensures r.None? <==> outside
      ensures r.Some? ==> Names(g, dirs) && forall f :: f in dirs <==> f in dir.fingerprints.Values
      ensures r.Some? ==> IsClosure(g, Elements(roots), r.value)
      ensures OneUnitPerInode(dir.deps + dir.examples) ==> Elements(roots) == RootSet(dir.deps + dir.examples, plain)
    {
      var found := UpliftedRoots(dir.deps + dir.examples, plain);
      roots, g, dirs := found, Graph(map[], map[]), [];
      if outside {
        return None, g, dirs, roots;
      }
      var listed := ListFingerprints(dir.fingerprints);
      var graph := BuildGraph(listed);
      var closure := Close(graph, found);
      return Some(closure), graph, listed, roots;
    }

    /**
     * One profile of `prune_unused_units`. It is visited only when a live usage
     * record names an entry of its `deps`; otherwise, or with fingerprints that
     * cannot be trusted, nothing changes.
     */
    method PruneUnusedUnits(used: set<Path>, before: Time, inside: Path -> bool)
      returns (ran: bool, ghost c: Pass, ghost g: Graph, ghost dirs: seq<Fingerprint>, ghost roots: seq<UnitHash>)
      modifies this
      ensures ran <==> (exists p :: p in used && p in old(dir).deps) && !outside
      ensures !ran ==> dir == old(dir)
      ensures ran ==> c == Pass(used, c.uplifted, before, inside) && dir == Pruned(old(dir), c)
      ensures ran ==> IsClosure(g, Elements(roots), c.uplifted)
      ensures ran ==> Names(g, dirs) && forall f :: f in dirs <==> f in old(dir.fingerprints).Values
      ensures ran && OneUnitPerInode(old(dir).deps + old(dir).examples) ==>
        Elements(roots) == RootSet(old(dir).deps + old(dir).examples, plain)
    {
      c, g, dirs, roots := Pass(used, {}, before, inside), Graph(map[], map[]), [], [];
      if used == {} || dir.deps.Keys !! used {
        return false, c, g, dirs, roots;
      }
      var uplifted;
      uplifted, g, dirs, roots := UpliftedClosure();
      if uplifted.None? {
        return false, c, g, dirs, roots;
      }
      var pass := Pass(used, uplifted.value, before, inside);
      var deps, kept := PruneDepsUnits(dir.deps, dir.fingerprints, pass);
      var examples, left := PruneDepsUnits(dir.examples, kept, pass);
      var build := PruneBuildDirs(dir.build, pass);
      var fingerprints := PruneOrphanFingerprints(left, Present(deps, examples, build), pass);
      dir := Dir(deps, examples, build, fingerprints);
      return true, pass, g, dirs, roots;
    }
  }

  // ---- What exactly is kept ----

  /** File `q` keeps the unit of `f`: it is one of its files, and a record names it, or it was written or run lately. */
  ghost predicate Keeps(files: Files, q: Path, f: UnitFile, c: Pass) {
    && q in files && files[q].isUnit && files[q].name == f.name && files[q].hash == f.hash
    && (q in c.used || files[q].written > c.before || (files[q].run.Some? && files[q].run.value > c.before))
  }

  /**
   * A file of `deps` or `examples` stays exactly when it belongs to no unit, may
   * not be deleted, its unit is in the closure, or a file of its unit in the same
   * directory is recorded or recent.
   */
  lemma FileKeptIff(dir: Dir, c: Pass, p: Path)
    ensures p in dir.deps ==>
      (p in Pruned(dir, c).deps <==>
         || !dir.deps[p].isUnit || !c.inside(p) || dir.deps[p].hash in c.uplifted
         || exists q :: Keeps(dir.deps, q, dir.deps[p], c))
    ensures p in dir.examples ==>
      (p in Pruned(dir, c).examples <==>
         || !dir.examples[p].isUnit || !c.inside(p) || dir.examples[p].hash in c.uplifted
         || exists q :: Keeps(dir.examples, q, dir.examples[p], c))
  {
    if p in dir.deps {
      InUseIffKept(dir.deps, dir.deps[p], c);
    }
    if p in dir.examples {
      InUseIffKept(dir.examples, dir.examples[p], c);
    }
  }

  lemma InUseIffKept(files: Files, f: UnitFile, c: Pass)
    ensures InUse(files, IdOf(f), c) <==> f.hash in c.uplifted || exists q :: Keeps(files, q, f, c)
  {
    if q :| Keeps(files, q, f, c) {
      assert IdOf(files[q]) == IdOf(f);
    }
    if p :| p in files && files[p].isUnit && IdOf(files[p]) == IdOf(f) && (p in c.used || Recent(files[p], c.before)) {
      assert Keeps(files, p, f, c);
    }
  }

  /**
   * A build entry stays exactly when it is no directory, may not be deleted, is in
   * the closure, has a recorded path below it, or is recent.
   */
  lemma BuildKeptIff(dir: Dir, c: Pass, p: Path)
    requires p in dir.build
    ensures p in Pruned(dir, c).build <==>
      || !dir.build[p].isDir || !c.inside(p) || dir.build[p].hash in c.uplifted
      || (exists u :: u in c.used && p <= u)
      || (dir.build[p].written.Some? && dir.build[p].written.value > c.before)
  {
  }

  /** Something of the unit is left: a file, or a build directory. */
  ghost predicate Left(dir: Dir, hash: UnitHash) {
    || (exists p :: p in dir.deps && dir.deps[p].hash == hash)
    || (exists p :: p in dir.examples && dir.examples[p].hash == hash)
    || (exists p :: p in dir.build && dir.build[p].hash == hash)
  }

  /** A file of the unit was removed. */
  ghost predicate LostFile(before: Dir, after: Dir, hash: UnitHash) {
    || (exists p :: p in before.deps && p !in after.deps && before.deps[p].hash == hash)
    || (exists p :: p in before.examples && p !in after.examples && before.examples[p].hash == hash)
  }

  /**
   * A fingerprint stays exactly when it may not be deleted, or no file of its hash
   * was removed and its unit is in the closure, has something left, or is recent.
   */
  lemma FingerprintKeptIff(dir: Dir, c: Pass, d: Path)
    requires d in dir.fingerprints
    ensures var after, f := Pruned(dir, c), dir.fingerprints[d];
      d in after.fingerprints <==>
        || !c.inside(d)
        || (&& !LostFile(dir, after, f.hash)
            && (f.hash in c.uplifted || Left(after, f.hash) || (f.written.Some? && f.written.value > c.before)))
  {
    var after, hash := Pruned(dir, c), dir.fingerprints[d].hash;
    assert LostFile(dir, after, hash) <==> hash in StaleHashes(dir.deps, c) + StaleHashes(dir.examples, c) by {
      forall p ensures p in dir.deps ==> (p !in after.deps <==> Stale(dir.deps, p, c)) {}
      forall p ensures p in dir.examples ==> (p !in after.examples <==> Stale(dir.examples, p, c)) {}
    }
    assert Left(after, hash) <==> hash in Present(after.deps, after.examples, after.build);
  }

  /** Nothing of a unit in the closure is lost, and nothing a usage record names. */
  lemma PassIsSafe(dir: Dir, c: Pass)
    ensures forall p :: p in dir.deps && (dir.deps[p].hash in c.uplifted || p in c.used) ==>
      p in Pruned(dir, c).deps && Pruned(dir, c).deps[p] == dir.deps[p]
    ensures forall p :: p in dir.examples && (dir.examples[p].hash in c.uplifted || p in c.used) ==>
      p in Pruned(dir, c).examples && Pruned(dir, c).examples[p] == dir.examples[p]
    ensures forall p :: p in dir.build && (dir.build[p].hash in c.uplifted || exists u :: u in c.used && p <= u) ==>
      p in Pruned(dir, c).build && Pruned(dir, c).build[p] == dir.build[p]
    ensures forall d :: d in dir.fingerprints && dir.fingerprints[d].hash in c.uplifted ==>
      d in Pruned(dir, c).fingerprints && Pruned(dir, c).fingerprints[d] == dir.fingerprints[d]
  {
    forall h | h in StaleHashes(dir.deps, c) + StaleHashes(dir.examples, c) ensures h !in c.uplifted {
    }
  }

  /** The pass is exact: a second one with the same closure finds nothing to remove. */
  lemma PassIsIdempotent(dir: Dir, c: Pass)
    ensures Pruned(Pruned(dir, c), c) == Pruned(dir, c)
  {
    var once := Pruned(dir, c);
    SweepIsIdempotent(dir.deps, c);
    SweepIsIdempotent(dir.examples, c);
    assert SweptBuild(once.build, c) == once.build;
    assert Without(Without(once.fingerprints, {}, c), {}, c) == once.fingerprints;
  }

  lemma SweepIsIdempotent(files: Files, c: Pass)
    ensures Swept(Swept(files, c), c) == Swept(files, c) && StaleHashes(Swept(files, c), c) == {}
  {
    var left := Swept(files, c);
    forall p | p in left && left[p].isUnit ensures !Stale(left, p, c) {
      var id := IdOf(files[p]);
      if c.inside(p) && id.hash !in c.uplifted {
        var q :| q in files && files[q].isUnit && IdOf(files[q]) == id && (q in c.used || Recent(files[q], c.before));
        assert q in left;
      }
    }
  }

  // ---- The next pass ----

  /** Both ends of an edge have a fingerprint. */
  lemma EdgeEnds(g: Graph, dirs: seq<Fingerprint>, u: UnitHash, v: UnitHash) returns (f: Fingerprint, t: Fingerprint)
    requires Names(g, dirs) && DependsOn(g, u, v)
    ensures f in dirs && f.hash == u && t in dirs && t.hash == v
  {
    f := g.dirOf[u];
    var d :| d in g.dirOf[u].deps && d in g.byHash && g.byHash[d] == v;
    assert DeclaredBy(dirs, d, v);
    var i :| 0 <= i < |dirs| && d in dirs[i].own && dirs[i].hash == v;
    t := dirs[i];
  }

  /** Dropping fingerprints of units outside the closure does not change the closure. */
  lemma FewerFingerprintsSameClosure(g: Graph, dirs: seq<Fingerprint>, g': Graph, dirs': seq<Fingerprint>,
                                     roots: set<UnitHash>, s: set<UnitHash>, s': set<UnitHash>)
    requires Names(g, dirs) && Unambiguous(dirs) && Names(g', dirs')
    requires IsClosure(g, roots, s) && IsClosure(g', roots, s')
    requires forall f :: f in dirs' ==> f in dirs
    requires forall f :: f in dirs && f.hash in s ==> f in dirs'
    ensures s == s'
  {
    ClosureIsLeast(g, roots, s, s');
    ClosureIsLeast(g', roots, s', s);
    forall u, v | u in s && DependsOn(g', u, v) ensures v in s {
      var f, t := EdgeEnds(g', dirs', u, v);
      EdgesAreFingerprints(g', dirs', f, t);
      EdgesAreFingerprints(g, dirs, f, t);
    }
    assert s' <= s;
    forall u, v | u in s' && DependsOn(g, u, v) ensures v in s' {
      var f, t := EdgeEnds(g, dirs, u, v);
      EdgesAreFingerprints(g, dirs, f, t);
      EdgesAreFingerprints(g', dirs', f, t);
    }
  }

  /** Pruning with a closure that holds the roots leaves every uplifted file, so the roots stay. */
  lemma PruningKeepsRoots(dir: Dir, c: Pass, plain: seq<int>)
    requires dir.deps.Keys !! dir.examples.Keys && RootSet(dir.deps + dir.examples, plain) <= c.uplifted
    ensures var after := Pruned(dir, c);
      RootSet(after.deps + after.examples, plain) == RootSet(dir.deps + dir.examples, plain)
  {
    var files, left := dir.deps + dir.examples, Pruned(dir, c).deps + Pruned(dir, c).examples;
    PassIsSafe(dir, c);
    forall p | Uplifted(files, plain, p) ensures p in left {
      assert files[p].hash in RootSet(files, plain);
    }
    SameRoots(files, left, plain);
  }

  /** Losing files that are not uplifted keeps the roots. */
  lemma SameRoots(files: Files, left: Files, plain: seq<int>)
    requires forall p :: p in left ==> p in files && left[p] == files[p]
    requires forall p :: Uplifted(files, plain, p) ==> p in left
    ensures RootSet(left, plain) == RootSet(files, plain)
  {
    forall u | u in RootSet(files, plain) ensures u in RootSet(left, plain) {
      var p :| p in files && Uplifted(files, plain, p) && files[p].hash == u;
      assert Uplifted(left, plain, p);
    }
    forall u | u in RootSet(left, plain) ensures u in RootSet(files, plain) {
      var p :| p in left && Uplifted(left, plain, p) && left[p].hash == u;
      assert Uplifted(files, plain, p);
    }
  }

  /** The fingerprints of the closure survive, and no new one appears. */
  lemma PruningKeepsFingerprints(dir: Dir, c: Pass)
    ensures forall f :: f in Pruned(dir, c).fingerprints.Values ==> f in dir.fingerprints.Values
    ensures forall f :: f in dir.fingerprints.Values && f.hash in c.uplifted ==> f in Pruned(dir, c).fingerprints.Values
  {
    var after := Pruned(dir, c);
    PassIsSafe(dir, c);
    forall f | f in dir.fingerprints.Values && f.hash in c.uplifted ensures f in after.fingerprints.Values {
      var d :| d in dir.fingerprints && dir.fingerprints[d] == f;
      assert after.fingerprints[d] == f;
    }
  }

  ghost predicate Lists(dirs: seq<Fingerprint>, fingerprints: Fingerprints) {
    forall f :: f in dirs <==> f in fingerprints.Values
  }

  /**
   * A second pass over what the first one left finds the same roots and the
   * same closure, and with the same usage records it removes nothing. `g` and
   * `c.uplifted` are the graph and closure of the first pass, `g'` and `s'` those
   * of the second.
   */
  lemma SecondPassRemovesNothing(dir: Dir, c: Pass, plain: seq<int>, g: Graph, dirs: seq<Fingerprint>,
                                 g': Graph, dirs': seq<Fingerprint>, s': set<UnitHash>)
    requires dir.deps.Keys !! dir.examples.Keys
    requires Names(g, dirs) && Lists(dirs, dir.fingerprints) && Unambiguous(dirs)
    requires IsClosure(g, RootSet(dir.deps + dir.examples, plain), c.uplifted)
    requires var after := Pruned(dir, c);
      && Names(g', dirs') && Lists(dirs', after.fingerprints)
      && IsClosure(g', RootSet(after.deps + after.examples, plain), s')
    ensures s' == c.uplifted && Pruned(Pruned(dir, c), c.(uplifted := s')) == Pruned(dir, c)
  {
    ClosureIsLeast(g, RootSet(dir.deps + dir.examples, plain), c.uplifted, {});
    PruningKeepsRoots(dir, c, plain);
    PruningKeepsFingerprints(dir, c);
    FewerFingerprintsSameClosure(g, dirs, g', dirs', RootSet(dir.deps + dir.examples, plain), c.uplifted, s');
    PassIsIdempotent(dir, c);
  }

  // ---- The fingerprint of a unit in use ----

  /**
   * A unit that a record keeps, in `deps` or `examples`, also keeps its
   * fingerprint exactly when no unit of its hash is stale in either directory.
   */
  lemma UsedFingerprintKeptIff(dir: Dir, c: Pass, p: Path, d: Path)
    requires p in c.used && (p in dir.deps || p in dir.examples) && d in dir.fingerprints && c.inside(d)
    requires dir.fingerprints[d].hash == if p in dir.deps then dir.deps[p].hash else dir.examples[p].hash
    ensures d in Pruned(dir, c).fingerprints <==>
      dir.fingerprints[d].hash !in StaleHashes(dir.deps, c) + StaleHashes(dir.examples, c)
  {
    var after := Pruned(dir, c);
    PassIsSafe(dir, c);
    assert p in dir.deps ==> p in after.deps && after.deps[p] == dir.deps[p];
    assert p in dir.examples ==> p in after.examples && after.examples[p] == dir.examples[p];
    assert dir.fingerprints[d].hash in Present(after.deps, after.examples, after.build);
  }

  const USED_FILE := UnitFile(1, 7, true, 10, 0, None)
  const STALE_FILE := UnitFile(2, 7, true, 11, 0, None)
  const SHARED_HASH := Dir(map[[1] := USED_FILE, [2] := STALE_FILE], map[], map[],
                           map[[3] := Fingerprint(7, [], [], Some(0))])
  const SAME_UNIT := Dir(map[[1] := USED_FILE], map[[2] := USED_FILE], map[],
                         map[[3] := Fingerprint(7, [], [], Some(0))])

  /**
   * The used file stays and its fingerprint goes: with one hash under two names,
   * and with the same unit in both directories, used in only one.
   */
  lemma SharedHashLosesFingerprint()
    ensures var c := Pass({[1]}, {}, 5, (p: Path) => true);
      && [1] in Pruned(SHARED_HASH, c).deps && [3] !in Pruned(SHARED_HASH, c).fingerprints
      && [1] in Pruned(SAME_UNIT, c).deps && [3] !in Pruned(SAME_UNIT, c).fingerprints
  {
    var c := Pass({[1]}, {}, 5, (p: Path) => true);
    assert [2] != [1] by {
      assert [2][0] != [1][0];
    }
    assert USED_FILE.name != STALE_FILE.name;
    assert Stale(SHARED_HASH.deps, [2], c) && Stale(SAME_UNIT.examples, [2], c);
    PassIsSafe(SHARED_HASH, c);
    PassIsSafe(SAME_UNIT, c);
  }
}
