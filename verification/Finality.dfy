// Finality of the block index over runs of migrations and partition rollbacks:
// what the rollback guard guarantees once and over whole runs, and what the
// block tree's pruning adds to it within a process and across restarts.

module Finality {
  import opened Chain
  import opened MetadataAgreement

  datatype IndexStep = Push(entry: Hash) | RollBack(fork: nat)

  /** Heights a rollback must not go below, by index length. */
  function Floor(length: nat, cfg: Config): nat {
    FinalizedHeight(SatSub(length, 1), cfg.treeDepth, cfg.migrationDepth)
  }

  /** The rollback has something to remove and its guard lets it. */
  predicate Effective(index: seq<Hash>, fork: nat, cfg: Config) {
    fork + 1 < |index| && fork >= Floor(|index|, cfg)
  }

  /** `recover_from_network_partition` on the index alone: refuse below the finalized height. */
  function Step1(index: seq<Hash>, step: IndexStep, cfg: Config): seq<Hash> {
    match step
    case Push(entry) => index + [entry]
    case RollBack(fork) => if Effective(index, fork, cfg) then index[..fork + 1] else index
  }

  /** Everything final in `earlier` is still in place in `later`. */
  ghost predicate KeepsFinal(earlier: seq<Hash>, later: seq<Hash>, cfg: Config) {
    earlier != [] ==>
      var f := Floor(|earlier|, cfg);
      f < |earlier| && f < |later| && later[..f + 1] == earlier[..f + 1]
  }

  /** One step never removes or changes a finalized entry of the index it starts from. */
  lemma OneStepKeepsFinal(index: seq<Hash>, step: IndexStep, cfg: Config)
    ensures KeepsFinal(index, Step1(index, step, cfg), cfg)
  {
  }

  /** The index after the first `k` steps. */
  ghost function At(start: seq<Hash>, steps: seq<IndexStep>, cfg: Config, k: nat): seq<Hash>
    requires k <= |steps|
  {
    if k == 0 then start else Step1(At(start, steps, cfg, k - 1), steps[k - 1], cfg)
  }

  /** The greatest length reached by then. */
  ghost function HighWater(start: seq<Hash>, steps: seq<IndexStep>, cfg: Config, k: nat): (r: nat)
    requires k <= |steps|
    ensures r >= |At(start, steps, cfg, k)|
  {
    var now := |At(start, steps, cfg, k)|;
    if k == 0 then now
    else
      var before := HighWater(start, steps, cfg, k - 1);
      if before < now then now else before
  }

  /** Whatever was final at any time stays in place ever after. */
  ghost predicate Final(start: seq<Hash>, steps: seq<IndexStep>, cfg: Config) {
    forall k, j :: 0 <= k <= j <= |steps| ==> KeepsFinal(At(start, steps, cfg, k), At(start, steps, cfg, j), cfg)
  }

  /** No effective rollback goes below the finalized height of the highest index so far. */
  ghost predicate Guarded(start: seq<Hash>, steps: seq<IndexStep>, cfg: Config) {
    forall j :: 0 <= j < |steps| ==> GuardedAt(start, steps, cfg, j)
  }

  ghost predicate GuardedAt(start: seq<Hash>, steps: seq<IndexStep>, cfg: Config, j: nat)
    requires j < |steps|
  {
    steps[j].RollBack? && Effective(At(start, steps, cfg, j), steps[j].fork, cfg) ==>
      steps[j].fork >= Floor(HighWater(start, steps, cfg, j), cfg)
  }

  lemma {:induction false} HighWaterReached(start: seq<Hash>, steps: seq<IndexStep>, cfg: Config, j: nat)
    returns (k: nat)
    requires j <= |steps|
    ensures k <= j && |At(start, steps, cfg, k)| == HighWater(start, steps, cfg, j)
  {
    k := j;
    if j > 0 && HighWater(start, steps, cfg, j) != |At(start, steps, cfg, j)| {
      k := HighWaterReached(start, steps, cfg, j - 1);
    }
  }

  lemma {:induction false} HighWaterGrows(start: seq<Hash>, steps: seq<IndexStep>, cfg: Config, k: nat, j: nat)
    requires k <= j <= |steps|
    ensures |At(start, steps, cfg, k)| <= HighWater(start, steps, cfg, k) <= HighWater(start, steps, cfg, j)
    decreases j
  {
    if k < j {
      HighWaterGrows(start, steps, cfg, k, j - 1);
    }
  }

  lemma StepKeeps(earlier: seq<Hash>, before: seq<Hash>, step: IndexStep, cfg: Config)
    requires KeepsFinal(earlier, before, cfg)
    requires step.RollBack? && Effective(before, step.fork, cfg) ==> step.fork >= Floor(|earlier|, cfg)
    ensures KeepsFinal(earlier, Step1(before, step, cfg), cfg)
  {
    if earlier != [] {
      var f := Floor(|earlier|, cfg);
      var after := Step1(before, step, cfg);
      assert after[..f + 1] == before[..f + 1];
    }
  }

  lemma GuardedStep(start: seq<Hash>, steps: seq<IndexStep>, cfg: Config, k: nat, j: nat)
    requires Guarded(start, steps, cfg) && k <= j < |steps|
    ensures steps[j].RollBack? && Effective(At(start, steps, cfg, j), steps[j].fork, cfg) ==>
      steps[j].fork >= Floor(|At(start, steps, cfg, k)|, cfg)
  {
    assert GuardedAt(start, steps, cfg, j);
    HighWaterGrows(start, steps, cfg, k, j);
  }

  lemma {:induction false} GuardedKeeps(start: seq<Hash>, steps: seq<IndexStep>, cfg: Config, k: nat, j: nat)
    requires Guarded(start, steps, cfg) && k <= j <= |steps|
    ensures KeepsFinal(At(start, steps, cfg, k), At(start, steps, cfg, j), cfg)
    decreases j
  {
    if k < j {
      GuardedKeeps(start, steps, cfg, k, j - 1);
      GuardedStep(start, steps, cfg, k, j - 1);
      StepKeeps(At(start, steps, cfg, k), At(start, steps, cfg, j - 1), steps[j - 1], cfg);
    }
  }

  /**
   * Finality over a whole run holds exactly when every effective rollback stays
   * at or above the finalized height of the highest index reached so far.
   */
  lemma FinalIffGuarded(start: seq<Hash>, steps: seq<IndexStep>, cfg: Config)
    ensures Final(start, steps, cfg) <==> Guarded(start, steps, cfg)
  {
    if Guarded(start, steps, cfg) {
      forall k, j | 0 <= k <= j <= |steps| ensures KeepsFinal(At(start, steps, cfg, k), At(start, steps, cfg, j), cfg) {
        GuardedKeeps(start, steps, cfg, k, j);
      }
    }
    if Final(start, steps, cfg) {
      forall j | 0 <= j < |steps| ensures GuardedAt(start, steps, cfg, j) {
        var k := HighWaterReached(start, steps, cfg, j);
        assert KeepsFinal(At(start, steps, cfg, k), At(start, steps, cfg, j + 1), cfg);
      }
    }
  }

  /** Each effective rollback starts with the index back at its high water. */
  ghost predicate Regrown(start: seq<Hash>, steps: seq<IndexStep>, cfg: Config) {
    forall j :: 0 <= j < |steps| && steps[j].RollBack? && Effective(At(start, steps, cfg, j), steps[j].fork, cfg) ==>
      |At(start, steps, cfg, j)| == HighWater(start, steps, cfg, j)
  }

  /** Then the guard, which only looks at the current tip, is enough. */
  lemma RegrownRunsAreFinal(start: seq<Hash>, steps: seq<IndexStep>, cfg: Config)
    requires Regrown(start, steps, cfg)
    ensures Final(start, steps, cfg)
  {
    assert forall j :: 0 <= j < |steps| ==> GuardedAt(start, steps, cfg, j);
    FinalIffGuarded(start, steps, cfg);
  }

  // ---- With the block tree ----

  /**
   * The index with the block tree's tip height and lowest kept height, the height
   * the last tip move lets migration reach, and the greatest index length so far.
   */
  datatype Tree = Tree(index: seq<Hash>, tip: nat, floor: nat, goal: nat, high: nat)

  /** `MoveTo` is any tip change, extension or reorg, that leaves the old chain at `fork`. */
  datatype TreeStep = Migrate(entry: Hash) | MoveTo(fork: nat, newTip: nat) | Restart

  /** Pruning keeps the tree depth, counting the tip. */
  function PruneFloor(tip: nat, cfg: Config): nat {
    SatSub(tip, SatSub(cfg.treeDepth, 1))
  }

  /** `restore_cache_floor`: the floor a running node with its tip a migration depth higher would have. */
  function RestoreFloor(length: nat, cfg: Config): nat {
    PruneFloor(SatSub(length, 1) + cfg.migrationDepth, cfg)
  }

  /** The fork point is in the tree and survives the prune that follows the move. */
  predicate Admissible(m: Tree, fork: nat, newTip: nat, cfg: Config) {
    m.floor <= fork <= m.tip && fork < newTip && PruneFloor(newTip, cfg) <= fork
  }

  /**
   * The height of the migration marker. It is computed when the tip has moved and
   * before the index is rolled back or the tree pruned: the migration depth below
   * the tip as far as the tree reaches, or the index height of that moment, and
   * never above the tip.
   */
  function MigrationHeight(m: Tree, newTip: nat, cfg: Config): nat {
    Min(Max(Max(m.floor, SatSub(newTip, cfg.migrationDepth)), SatSub(|m.index|, 1)), newTip)
  }

  /** The step's effect on the index; a rollback past its end stands for none. */
  function Projected(m: Tree, step: TreeStep, cfg: Config): IndexStep {
    match step
    case Migrate(entry) => if |m.index| <= m.goal then Push(entry) else RollBack(|m.index|)
    case MoveTo(fork, newTip) =>
      if Admissible(m, fork, newTip, cfg) && m.tip - fork > cfg.migrationDepth then RollBack(fork)
      else RollBack(|m.index|)
    case Restart => RollBack(|m.index|)
  }

  /** A move that is not admissible, or whose rollback the guard refuses, leaves everything as it was. */
  function TreeNext(m: Tree, step: TreeStep, cfg: Config): Tree {
    var index := Step1(m.index, Projected(m, step, cfg), cfg);
    match step
    case Migrate(_) => m.(index := index, high := Max(m.high, |index|))
    case MoveTo(fork, newTip) =>
      if !Admissible(m, fork, newTip, cfg) then m
      else if m.tip - fork > cfg.migrationDepth && fork + 1 < |m.index| && fork < Floor(|m.index|, cfg) then m
      else m.(index := index, tip := newTip, floor := Max(m.floor, PruneFloor(newTip, cfg)),
              goal := MigrationHeight(m, newTip, cfg))
    case Restart =>
      m.(tip := SatSub(|m.index|, 1), floor := RestoreFloor(|m.index|, cfg), goal := SatSub(|m.index|, 1))
  }

  /** `trace` holds the states of a run of `steps`. */
  ghost predicate TreeRun(trace: seq<Tree>, steps: seq<TreeStep>, cfg: Config) {
    |trace| == |steps| + 1 && forall k :: 0 <= k < |steps| ==> TreeRunAt(trace, steps, cfg, k)
  }

  ghost predicate TreeRunAt(trace: seq<Tree>, steps: seq<TreeStep>, cfg: Config, k: nat)
    requires |trace| == |steps| + 1 && k < |steps|
  {
    trace[k + 1] == TreeNext(trace[k], steps[k], cfg)
  }

  /** Nothing that was ever final can be a fork point's descendant in the tree. */
  ghost predicate TreeInv(m: Tree, cfg: Config) {
    && |m.index| <= m.high && Floor(m.high, cfg) <= m.floor && PruneFloor(m.tip, cfg) <= m.floor
    && Floor(m.goal + 1, cfg) <= m.floor
  }

  /** A process starts from the index alone; that establishes the invariant whatever the depths are. */
  lemma RestartEstablishesInv(m: Tree, cfg: Config)
    requires |m.index| == m.high
    ensures TreeInv(TreeNext(m, TreeStep.Restart, cfg), cfg)
  {
  }

  /** What migration may reach after a tip move finalizes nothing that the tree still holds. */
  lemma GoalAboveFloor(m: Tree, newTip: nat, cfg: Config)
    requires TreeInv(m, cfg)
    ensures Floor(MigrationHeight(m, newTip, cfg) + 1, cfg) <= Max(m.floor, PruneFloor(newTip, cfg))
  {
    FloorGrows(|m.index|, m.high, cfg);
  }

  lemma FloorGrows(a: nat, b: nat, cfg: Config)
    requires a <= b
    ensures Floor(a, cfg) <= Floor(b, cfg)
  {
  }

  lemma TreeStepKeepsInv(m: Tree, step: TreeStep, cfg: Config)
    requires TreeInv(m, cfg) && (step.Restart? ==> |m.index| == m.high)
    ensures TreeInv(TreeNext(m, step, cfg), cfg) && m.high <= TreeNext(m, step, cfg).high
  {
    match step
    case Migrate(_) =>
      assert |Step1(m.index, Projected(m, step, cfg), cfg)| <= Max(m.high, m.goal + 1);
    case MoveTo(fork, newTip) =>
      GoalAboveFloor(m, newTip, cfg);
      assert |Step1(m.index, Projected(m, step, cfg), cfg)| <= |m.index|;
    case Restart => RestartEstablishesInv(m, cfg);
  }

  // ---- Regrowth after a rollback ----

  /** The index after the migrations of one tip move, which stop at the goal. */
  ghost function Migrated(m: Tree, entries: seq<Hash>, cfg: Config): Tree
    decreases |entries|
  {
    if entries == [] then m
    else TreeNext(Migrated(m, entries[..|entries| - 1], cfg), TreeStep.Migrate(entries[|entries| - 1]), cfg)
  }

  lemma {:induction false} MigratedTo(m: Tree, entries: seq<Hash>, cfg: Config)
    requires |m.index| + |entries| <= m.goal + 1
    ensures Migrated(m, entries, cfg).index == m.index + entries
    ensures Migrated(m, entries, cfg) == m.(index := m.index + entries, high := Migrated(m, entries, cfg).high)
    ensures entries != [] ==> Migrated(m, entries, cfg).high == Max(m.high, |m.index| + |entries|)
    decreases |entries|
  {
    if entries != [] {
      var rest, last := entries[..|entries| - 1], entries[|entries| - 1];
      MigratedTo(m, rest, cfg);
      assert m.index + rest + [last] == m.index + entries;
    }
  }

  /**
   * A tip move carried to its end, with migration up to its goal, leaves the
   * index as high as it was whatever it rolled back, unless the new tip itself is
   * lower. So it brings an index at its high water back there, and a restart
   * after it is harmless.
   */
  lemma PublishedMoveRegrows(m: Tree, fork: nat, newTip: nat, entries: seq<Hash>, cfg: Config)
    requires |m.index| == m.high && fork < |m.index| && Admissible(m, fork, newTip, cfg)
    requires var moved := TreeNext(m, MoveTo(fork, newTip), cfg);
      moved.tip == newTip && |moved.index| + |entries| == Max(|moved.index|, moved.goal + 1)
    ensures var after := Migrated(TreeNext(m, MoveTo(fork, newTip), cfg), entries, cfg);
      && |after.index| >= fork + 1 && after.index[..fork + 1] == m.index[..fork + 1]
      && |after.index| >= Min(|m.index|, newTip + 1)
      && (|m.index| <= newTip + 1 ==> |after.index| == after.high)
  {
    var moved := TreeNext(m, MoveTo(fork, newTip), cfg);
    if |moved.index| <= moved.goal + 1 {
      MigratedTo(moved, entries, cfg);
    }
  }

  /** Restarts come only with the index at its high water: none between a rollback and the regrowth after it. */
  ghost predicate RestartsRegrown(trace: seq<Tree>, steps: seq<TreeStep>)
    requires |trace| == |steps| + 1
  {
    forall k :: 0 <= k < |steps| ==> RestartRegrown(trace[k], steps[k])
  }

  predicate RestartRegrown(m: Tree, step: TreeStep) {
    step.Restart? ==> |m.index| == m.high
  }

  lemma {:induction false} TreeInvHolds(trace: seq<Tree>, steps: seq<TreeStep>, cfg: Config, j: nat)
    requires TreeRun(trace, steps, cfg) && RestartsRegrown(trace, steps) && TreeInv(trace[0], cfg) && j <= |steps|
    ensures TreeInv(trace[j], cfg)
  {
    if j > 0 {
      assert TreeRunAt(trace, steps, cfg, j - 1) && RestartRegrown(trace[j - 1], steps[j - 1]);
      TreeInvHolds(trace, steps, cfg, j - 1);
      TreeStepKeepsInv(trace[j - 1], steps[j - 1], cfg);
    }
  }

  /** One tip change or migration leaves alone what was final when the index was no longer than `high`. */
  lemma TreeStepKeepsFinal(earlier: seq<Hash>, m: Tree, step: TreeStep, cfg: Config)
    requires TreeInv(m, cfg) && |earlier| <= m.high && KeepsFinal(earlier, m.index, cfg)
    ensures KeepsFinal(earlier, TreeNext(m, step, cfg).index, cfg)
  {
    StepKeeps(earlier, m.index, Projected(m, step, cfg), cfg);
  }

  /**
   * Within one process, and across restarts with the index at its high water,
   * whatever was final at any time stays in place ever after: reorgs need their
   * fork point in the tree, and the tree never reaches back to a finalized block.
   */
  lemma {:induction false} TreeKeepsFinality(trace: seq<Tree>, steps: seq<TreeStep>, cfg: Config, k: nat, j: nat)
    requires TreeRun(trace, steps, cfg) && RestartsRegrown(trace, steps) && TreeInv(trace[0], cfg) && k <= j <= |steps|
    ensures KeepsFinal(trace[k].index, trace[j].index, cfg) && |trace[k].index| <= trace[j].high
    decreases j
  {
    TreeInvHolds(trace, steps, cfg, j);
    if k < j {
      assert TreeRunAt(trace, steps, cfg, j - 1) && RestartRegrown(trace[j - 1], steps[j - 1]);
      TreeKeepsFinality(trace, steps, cfg, k, j - 1);
      TreeInvHolds(trace, steps, cfg, j - 1);
      TreeStepKeepsInv(trace[j - 1], steps[j - 1], cfg);
      TreeStepKeepsFinal(trace[k].index, trace[j - 1], steps[j - 1], cfg);
    } else {
      FinalKeepsItself(trace[k].index, cfg);
    }
  }

  lemma FinalKeepsItself(index: seq<Hash>, cfg: Config)
    ensures KeepsFinal(index, index, cfg)
  {
  }

  // ---- What the depths mean ----

  /** The index tip is the migration depth below the head. */
  predicate Steady(m: Tree, cfg: Config) {
    m.index != [] && |m.index| - 1 + cfg.migrationDepth == m.tip
  }

  /** A tree after pruning holds as many heights as its depth, the tip included, or all of a younger chain. */
  lemma PruneKeepsDepth(tip: nat, cfg: Config)
    requires cfg.treeDepth > 0
    ensures PruneFloor(tip, cfg) <= tip
    ensures tip - PruneFloor(tip, cfg) + 1 == Min(cfg.treeDepth, tip + 1)
  {
  }

  /**
   * In steady operation the finalized height is the tree depth below the head:
   * what the tree has pruned is final, and the newest final block is the one it
   * pruned last.
   */
  lemma SteadyFinalized(m: Tree, cfg: Config)
    requires Steady(m, cfg) && 0 < cfg.treeDepth && cfg.migrationDepth <= cfg.treeDepth
    ensures Floor(|m.index|, cfg) == SatSub(m.tip, cfg.treeDepth)
    ensures m.tip >= cfg.treeDepth ==> Floor(|m.index|, cfg) + 1 == PruneFloor(m.tip, cfg)
  {
  }

  /** The floor restored after a restart is one above the finalized height, once the chain is a tree depth deep. */
  lemma RestoredAboveFinalized(length: nat, cfg: Config)
    requires length > 0 && 0 < cfg.treeDepth && cfg.migrationDepth <= cfg.treeDepth
    requires cfg.treeDepth <= length - 1 + cfg.migrationDepth
    ensures RestoreFloor(length, cfg) == Floor(length, cfg) + 1
  {
  }

  /**
   * Then the guard is the tree's own limit: it lets a rollback pass exactly when
   * the lowest block it would orphan is one the tree still holds.
   */
  lemma GuardIsTheTree(m: Tree, fork: nat, cfg: Config)
    requires Steady(m, cfg) && 0 < cfg.treeDepth && cfg.migrationDepth <= cfg.treeDepth && fork + 1 < |m.index|
    ensures Effective(m.index, fork, cfg) <==> PruneFloor(m.tip, cfg) <= fork + 1
  {
  }

  /** The tip moves exactly to a fork in the tree that survives the prune, unless the rollback it needs is refused. */
  lemma MoveTakenIff(m: Tree, fork: nat, newTip: nat, cfg: Config)
    requires newTip != m.tip
    ensures TreeNext(m, MoveTo(fork, newTip), cfg).tip == newTip <==>
      && m.floor <= fork <= m.tip && fork < newTip <= fork + SatSub(cfg.treeDepth, 1)
      && !(m.tip - fork > cfg.migrationDepth && fork + 1 + SatSub(cfg.treeDepth, cfg.migrationDepth) < |m.index|)
  {
  }

  /** A move that is taken cuts the index at the fork exactly when it leaves more than the migration depth of blocks. */
  lemma MoveCutsIff(m: Tree, fork: nat, newTip: nat, cfg: Config)
    requires newTip != m.tip && TreeNext(m, MoveTo(fork, newTip), cfg).tip == newTip
    ensures fork <= m.tip
    ensures TreeNext(m, MoveTo(fork, newTip), cfg).index ==
      if m.tip - fork > cfg.migrationDepth && fork + 1 < |m.index| then m.index[..fork + 1] else m.index
  {
  }

  /** A tip move lets migration reach the migration depth below the tip, and the index height it found. */
  lemma GoalReachesDepth(m: Tree, newTip: nat, cfg: Config)
    ensures SatSub(newTip, cfg.migrationDepth) <= MigrationHeight(m, newTip, cfg) <= newTip
    ensures Min(SatSub(|m.index|, 1), newTip) <= MigrationHeight(m, newTip, cfg)
    ensures m.floor <= SatSub(newTip, cfg.migrationDepth) && |m.index| <= SatSub(newTip, cfg.migrationDepth) + 1 ==>
      MigrationHeight(m, newTip, cfg) == SatSub(newTip, cfg.migrationDepth)
  {
  }

  /** Extending a steady chain by one block, with its migration, leaves it steady. */
  lemma ExtensionStaysSteady(m: Tree, entry: Hash, cfg: Config)
    requires Steady(m, cfg) && m.floor <= |m.index| && m.floor <= m.tip && cfg.treeDepth >= 2
    ensures Steady(Migrated(TreeNext(m, MoveTo(m.tip, m.tip + 1), cfg), [entry], cfg), cfg)
  {
    var moved := TreeNext(m, MoveTo(m.tip, m.tip + 1), cfg);
    assert Admissible(m, m.tip, m.tip + 1, cfg);
    GoalReachesDepth(m, m.tip + 1, cfg);
    assert moved.index == m.index && moved.goal == |m.index|;
    assert [entry][..0] == [];
    assert Migrated(moved, [], cfg) == moved;
  }

  // ---- The exact condition with restarts anywhere ----

  ghost function IndexSteps(trace: seq<Tree>, steps: seq<TreeStep>, cfg: Config): (r: seq<IndexStep>)
    requires |trace| == |steps| + 1
    ensures |r| == |steps|
    ensures forall k :: 0 <= k < |steps| ==> r[k] == Projected(trace[k], steps[k], cfg)
  {
    seq(|steps|, k requires 0 <= k < |steps| => Projected(trace[k], steps[k], cfg))
  }

  /** The index of a tree run is the run of its projected steps. */
  lemma {:induction false} TreeRunProjects(trace: seq<Tree>, steps: seq<TreeStep>, cfg: Config, k: nat)
    requires TreeRun(trace, steps, cfg) && k <= |steps|
    ensures At(trace[0].index, IndexSteps(trace, steps, cfg), cfg, k) == trace[k].index
  {
    if k > 0 {
      TreeRunProjects(trace, steps, cfg, k - 1);
      assert TreeRunAt(trace, steps, cfg, k - 1);
      TreeNextProjects(trace[k - 1], steps[k - 1], cfg);
    }
  }

  lemma TreeNextProjects(m: Tree, step: TreeStep, cfg: Config)
    ensures TreeNext(m, step, cfg).index == Step1(m.index, Projected(m, step, cfg), cfg)
  {
  }

  ghost predicate TreeFinal(trace: seq<Tree>, cfg: Config) {
    forall k, j :: 0 <= k <= j < |trace| ==> KeepsFinal(trace[k].index, trace[j].index, cfg)
  }

  /** With restarts anywhere, finality of a run is exactly the high-water condition on its rollbacks. */
  lemma TreeFinalIffGuarded(trace: seq<Tree>, steps: seq<TreeStep>, cfg: Config)
    requires TreeRun(trace, steps, cfg)
    ensures TreeFinal(trace, cfg) <==> Guarded(trace[0].index, IndexSteps(trace, steps, cfg), cfg)
  {
    var projected := IndexSteps(trace, steps, cfg);
    forall k | 0 <= k <= |steps| ensures At(trace[0].index, projected, cfg, k) == trace[k].index {
      TreeRunProjects(trace, steps, cfg, k);
    }
    FinalIffGuarded(trace[0].index, projected, cfg);
  }

  /**
   * A restart between a rollback and the regrowth: the tree is rebuilt from the
   * shorter index, reaches further back, and a second rollback undoes the entry
   * at height 7, final before the first.
   */
  lemma RestartBelowHighWaterBreaksFinality()
    ensures var cfg := Config(100, 4, 1);
      var index: seq<Hash> := [0, 1, 2, 3, 4, 5, 6, 7, 8, 9, 10];
      var steps := [MoveTo(8, 11), TreeStep.Restart, MoveTo(6, 9)];
      var trace := [Tree(index, 10, 8, 10, 11), Tree(index[..9], 11, 8, 10, 11), Tree(index[..9], 8, 6, 8, 11),
                    Tree(index[..7], 9, 6, 8, 11)];
      && TreeRun(trace, steps, cfg) && TreeInv(trace[0], cfg) && Floor(|index|, cfg) == 7 && !TreeFinal(trace, cfg)
  {
    var cfg := Config(100, 4, 1);
    var index: seq<Hash> := [0, 1, 2, 3, 4, 5, 6, 7, 8, 9, 10];
    var steps := [MoveTo(8, 11), TreeStep.Restart, MoveTo(6, 9)];
    var trace := [Tree(index, 10, 8, 10, 11), Tree(index[..9], 11, 8, 10, 11), Tree(index[..9], 8, 6, 8, 11),
                  Tree(index[..7], 9, 6, 8, 11)];
    assert index[..9][..7] == index[..7];
    assert TreeRunAt(trace, steps, cfg, 0) && TreeRunAt(trace, steps, cfg, 1) && TreeRunAt(trace, steps, cfg, 2);
    assert !KeepsFinal(trace[0].index, trace[3].index, cfg);
  }
}
