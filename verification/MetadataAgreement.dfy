// The confirm / migrate / reorg state machine over the canonical chain, the
// block index and the metadata rows: when the rows agree with the index, and
// what holds even when a reorg is cut short between its two transactions.

module MetadataAgreement {
  import opened Chain
  import opened MetadataRows
  import opened Outcome

  datatype Config = Config(epochLength: nat, treeDepth: nat, migrationDepth: nat)

  /**
   * A reorg whose index rollback is done and whose row clear is not: the fork
   * height, the orphaned blocks, and how many blocks were indexed before.
   */
  datatype Pending = Pending(fork: nat, orphans: seq<Header>, indexed: nat)

  /** `chain` is the confirmed canonical chain, `index` the migrated part of it. */
  datatype Node = Node(chain: seq<Header>, index: seq<Header>, rows: DataRows, commits: CommitRows,
                       pending: Option<Pending>)

  /**
   * A reorg is two database transactions: `MoveTip` switches the tip and rolls
   * the index back, `Clear` deletes the orphans' rows. A crash or an error
   * between them ends the process; a restart forgets the pending clear and what
   * was confirmed but not migrated.
   */
  datatype Step =
    | Confirm(block: Header)
    | Migrate
    | MoveTip(fork: nat, newFork: seq<Header>)
    | Clear
    | Restart

  /** `finalized_height`. */
  function FinalizedHeight(confirmed: nat, treeDepth: nat, migrationDepth: nat): nat {
    SatSub(confirmed, SatSub(treeDepth, migrationDepth))
  }

  /** Everything a list of blocks lists. */
  ghost function ListedBy(blocks: seq<Header>, kind: Kind): set<TxId> {
    set h, t | 0 <= h < |blocks| && t in Listed(blocks[h], kind) :: t
  }

  lemma ListedSnoc(blocks: seq<Header>, b: Header, kind: Kind)
    ensures forall h, t :: ListedAt(blocks + [b], kind, h, t) <==>
                           ListedAt(blocks, kind, h, t) || (h == |blocks| && t in Listed(b, kind))
  {
  }

  ghost predicate Agrees(n: Node, cfg: Config) {
    DataRowsAgree(n.index, n.rows) && CommitRowsAgree(n.index, cfg.epochLength, n.commits)
  }

  /** One block migrates: its rows are written in the transaction that indexes it. */
  ghost function MigrateOne(n: Node, b: Header, cfg: Config): Node {
    n.(index := n.index + [b],
       rows := Written(n.rows, TermIds(b.ledgers), PublishIds(b.ledgers), b.height),
       commits := CommitsWritten(n.commits, OwnedCommitments(b, cfg.epochLength), b.height))
  }

  /** `persist_metadata` clears the rows of the orphaned blocks. */
  ghost function ClearOrphans(n: Node, orphans: seq<Header>, cfg: Config): Node {
    n.(rows := Cleared(n.rows, ListedBy(orphans, Include), ListedBy(orphans, Promote)),
       commits := n.commits - ListedBy(orphans, Commit(cfg.epochLength)))
  }

  /** The index is rolled back only for a fork deeper than the migration depth. */
  predicate RollsBack(n: Node, fork: nat, cfg: Config) {
    |n.chain| > fork + 1 + cfg.migrationDepth && fork + 1 < |n.index|
  }

  /** The rollback guard: it refuses to orphan a finalized entry. */
  predicate Refused(n: Node, fork: nat, cfg: Config) {
    RollsBack(n, fork, cfg) && fork < FinalizedHeight(|n.index| - 1, cfg.treeDepth, cfg.migrationDepth)
  }

  /** The orphans of a reorg at `fork`, and the index the reorg leaves. */
  ghost function Orphans(n: Node, fork: nat): seq<Header>
    requires fork < |n.chain|
  {
    n.chain[fork + 1..]
  }

  ghost function IndexAfter(n: Node, fork: nat, cfg: Config): seq<Header> {
    if RollsBack(n, fork, cfg) then n.index[..fork + 1] else n.index
  }

  /** A tip move is handled to its end before anything else; a refused rollback halts the node with nothing written. */
  ghost function Next(n: Node, step: Step, cfg: Config): Node {
    match step
    case Confirm(b) => if n.pending.Some? then n else n.(chain := n.chain + [b])
    case Migrate =>
      if n.pending.Some? || |n.chain| <= |n.index| then n else MigrateOne(n, n.chain[|n.index|], cfg)
    case MoveTip(fork, newFork) =>
      if n.pending.Some? || |n.chain| <= fork || Refused(n, fork, cfg) then n
      else n.(chain := n.chain[..fork + 1] + newFork, index := IndexAfter(n, fork, cfg),
              pending := Some(Pending(fork, Orphans(n, fork), |n.index|)))
    case Clear => if n.pending.None? then n else ClearOrphans(n, n.pending.value.orphans, cfg).(pending := None)
    case Restart => n.(chain := n.index, pending := None)
  }

  /** Both transactions of a reorg. */
  ghost function Reorged(n: Node, fork: nat, newFork: seq<Header>, cfg: Config): Node {
    Next(Next(n, MoveTip(fork, newFork), cfg), Clear, cfg)
  }

  /** Validation admits only branches with unique inclusions and one block per height. */
  ghost predicate GoodChain(chain: seq<Header>, cfg: Config) {
    UniqueBranch(chain, cfg.epochLength) && forall i :: 0 <= i < |chain| ==> chain[i].height == i
  }

  /** The branch a pending reorg is leaving. */
  ghost function OldChain(n: Node, p: Pending): seq<Header>
    requires p.fork < |n.chain|
  {
    n.chain[..p.fork + 1] + p.orphans
  }

  function Kept(indexed: nat, fork: nat): nat {
    Min(indexed, fork + 1)
  }

  /** While a clear is pending, the rows are those of the index before the rollback. */
  ghost predicate PendingAgrees(n: Node, p: Pending, cfg: Config) {
    && p.fork < |n.chain| && GoodChain(OldChain(n, p), cfg) && p.indexed <= |OldChain(n, p)|
    && n.index == OldChain(n, p)[..Kept(p.indexed, p.fork)]
    && DataRowsAgree(OldChain(n, p)[..p.indexed], n.rows)
    && CommitRowsAgree(OldChain(n, p)[..p.indexed], cfg.epochLength, n.commits)
  }

  ghost predicate Inv(n: Node, cfg: Config) {
    && n.index <= n.chain && GoodChain(n.chain, cfg)
    && (n.pending.None? ==> Agrees(n, cfg))
    && (n.pending.Some? ==> PendingAgrees(n, n.pending.value, cfg))
  }

  // ---- Migration ----

  lemma MigrateKeepsRows(index: seq<Header>, b: Header, rows: DataRows, commits: CommitRows, epochLength: nat)
    requires UniqueBranch(index + [b], epochLength) && b.height == |index|
    requires DataRowsAgree(index, rows) && CommitRowsAgree(index, epochLength, commits)
    ensures PublishIds(b.ledgers) <= rows.Keys + TermIds(b.ledgers)
    ensures DataRowsAgree(index + [b], Written(rows, TermIds(b.ledgers), PublishIds(b.ledgers), b.height))
    ensures CommitRowsAgree(index + [b], epochLength,
                            CommitsWritten(commits, OwnedCommitments(b, epochLength), b.height))
  {
    var term, publish, owned := TermIds(b.ledgers), PublishIds(b.ledgers), OwnedCommitments(b, epochLength);
    var longer := index + [b];
    ListedSnoc(index, b, Include);
    ListedSnoc(index, b, Promote);
    ListedSnoc(index, b, Commit(epochLength));
    forall t | t in publish ensures t in rows.Keys + term {
      assert ListedAt(longer, Promote, |index|, t);
      var j :| j <= |index| && ListedAt(longer, Include, j, t);
      assert ListedAt(index, Include, j, t) ==> IncludedRow(rows, t, j);
    }
    var rows' := Written(rows, term, publish, b.height);
    forall t, h ensures IncludedRow(rows', t, h) <==> ListedAt(longer, Include, h, t) {
      assert t in term ==> ListedAt(longer, Include, |index|, t);
      assert IncludedRow(rows', t, h) <==> if t in term then h == |index| else IncludedRow(rows, t, h);
    }
    forall t, h ensures PromotedRow(rows', t, h) <==> ListedAt(longer, Promote, h, t) {
      assert t in publish ==> ListedAt(longer, Promote, |index|, t);
      assert PromotedRow(rows', t, h) <==> if t in publish then h == |index| else PromotedRow(rows, t, h);
    }
    var commits' := CommitsWritten(commits, owned, b.height);
    forall t, h ensures CommitRow(commits', t, h) <==> ListedAt(longer, Commit(epochLength), h, t) {
      assert t in owned ==> ListedAt(longer, Commit(epochLength), |index|, t);
      assert CommitRow(commits', t, h) <==> if t in owned then h == |index| else CommitRow(commits, t, h);
    }
  }

  // ---- Reorg ----

  lemma PrefixPositions(chain: seq<Header>, n: nat, kind: Kind)
    requires n <= |chain|
    ensures forall h, t :: ListedAt(chain[..n], kind, h, t) <==> ListedAt(chain, kind, h, t) && h < n
  {
  }

  ghost predicate ListedAbove(chain: seq<Header>, kind: Kind, fork: int, t: TxId) {
    exists h :: fork < h && ListedAt(chain, kind, h, t)
  }

  /** The orphaned tail, seen from the whole branch. */
  lemma TailPositions(chain: seq<Header>, fork: nat, kind: Kind)
    requires fork < |chain| && Once(chain, kind)
    ensures forall t :: t in ListedBy(chain[fork + 1..], kind) <==> ListedAbove(chain, kind, fork, t)
    ensures forall h, t :: ListedAt(chain, kind, h, t) ==> (h <= fork <==> t !in ListedBy(chain[fork + 1..], kind))
  {
    var tail := chain[fork + 1..];
    forall t ensures t in ListedBy(tail, kind) <==> ListedAbove(chain, kind, fork, t) {
      if t in ListedBy(tail, kind) {
        var k :| 0 <= k < |tail| && t in Listed(tail[k], kind);
        assert ListedAt(chain, kind, k + fork + 1, t);
      }
      if ListedAbove(chain, kind, fork, t) {
        var h :| fork < h && ListedAt(chain, kind, h, t);
        assert tail[h - fork - 1] == chain[h];
      }
    }
  }

  /** Clearing the orphans leaves exactly the rows of what is migrated up to the fork. */
  lemma ClearKeepsDataRows(chain: seq<Header>, n: nat, fork: nat, rows: DataRows, epochLength: nat)
    requires UniqueBranch(chain, epochLength) && n <= |chain| && fork < |chain| && DataRowsAgree(chain[..n], rows)
    ensures var tail := chain[fork + 1..];
      DataRowsAgree(chain[..Kept(n, fork)], Cleared(rows, ListedBy(tail, Include), ListedBy(tail, Promote)))
  {
    var kept := Kept(n, fork);
    var tail := chain[fork + 1..];
    TailPositions(chain, fork, Include);
    TailPositions(chain, fork, Promote);
    PrefixPositions(chain, n, Include);
    PrefixPositions(chain, n, Promote);
    PrefixPositions(chain, kept, Include);
    PrefixPositions(chain, kept, Promote);
    var term, publish := ListedBy(tail, Include), ListedBy(tail, Promote);
    var rows' := Cleared(rows, term, publish);
    forall t, h ensures IncludedRow(rows', t, h) <==> ListedAt(chain[..kept], Include, h, t) {
      assert IncludedRow(rows', t, h) <==> IncludedRow(rows, t, h) && t !in term;
    }
    forall t, h ensures PromotedRow(rows', t, h) <==> ListedAt(chain[..kept], Promote, h, t) {
      assert PromotedRow(rows', t, h) <==> PromotedRow(rows, t, h) && t !in term && t !in publish;
      if ListedAt(chain[..kept], Promote, h, t) {
        assert IncludedBy(chain, h, t);
        var j :| j <= h && ListedAt(chain, Include, j, t);
      }
    }
  }

  lemma ClearKeepsCommitRows(chain: seq<Header>, n: nat, fork: nat, rows: CommitRows, epochLength: nat)
    requires UniqueBranch(chain, epochLength) && n <= |chain| && fork < |chain|
    requires CommitRowsAgree(chain[..n], epochLength, rows)
    ensures CommitRowsAgree(chain[..Kept(n, fork)], epochLength,
                            rows - ListedBy(chain[fork + 1..], Commit(epochLength)))
  {
    var kind := Commit(epochLength);
    var kept := Kept(n, fork);
    TailPositions(chain, fork, kind);
    PrefixPositions(chain, n, kind);
    PrefixPositions(chain, kept, kind);
    var owned := ListedBy(chain[fork + 1..], kind);
    forall t, h ensures CommitRow(rows - owned, t, h) <==> ListedAt(chain[..kept], kind, h, t) {
      assert CommitRow(rows - owned, t, h) <==> CommitRow(rows, t, h) && t !in owned;
    }
  }

  /** Clearing the orphans of a branch leaves the rows of what was indexed up to the fork. */
  lemma ClearRows(branch: seq<Header>, indexed: nat, fork: nat, n: Node, cfg: Config)
    requires UniqueBranch(branch, cfg.epochLength) && indexed <= |branch| && fork < |branch|
    requires DataRowsAgree(branch[..indexed], n.rows) && CommitRowsAgree(branch[..indexed], cfg.epochLength, n.commits)
    ensures var cleared := ClearOrphans(n, branch[fork + 1..], cfg);
      && DataRowsAgree(branch[..Kept(indexed, fork)], cleared.rows)
      && CommitRowsAgree(branch[..Kept(indexed, fork)], cfg.epochLength, cleared.commits)
  {
    ClearKeepsDataRows(branch, indexed, fork, n.rows, cfg.epochLength);
    ClearKeepsCommitRows(branch, indexed, fork, n.commits, cfg.epochLength);
  }

  /** The index did not get past the fork point, or the fork is deep enough to roll it back. */
  predicate NotOvertaken(n: Node, fork: nat, cfg: Config) {
    |n.index| <= fork + 1 || RollsBack(n, fork, cfg)
  }

  ghost predicate ListsNothing(b: Header, cfg: Config) {
    TermIds(b.ledgers) == {} && PublishIds(b.ledgers) == {} && OwnedCommitments(b, cfg.epochLength) == {}
  }

  /** The blocks above the fork list nothing at all. */
  ghost predicate NothingListedAbove(blocks: seq<Header>, fork: nat, cfg: Config) {
    forall h :: fork < h < |blocks| ==> ListsNothing(blocks[h], cfg)
  }

  /** Rows that are exact for one list of blocks and for another that extends it: what is added lists nothing. */
  lemma ExactForBothIff(blocks: seq<Header>, kept: nat, rows: DataRows, commits: CommitRows, cfg: Config)
    requires 0 < kept <= |blocks|
    requires DataRowsAgree(blocks[..kept], rows) && CommitRowsAgree(blocks[..kept], cfg.epochLength, commits)
    ensures DataRowsAgree(blocks, rows) && CommitRowsAgree(blocks, cfg.epochLength, commits) <==>
            NothingListedAbove(blocks, kept - 1, cfg)
  {
    SameListingsIff(blocks, kept, Include);
    SameListingsIff(blocks, kept, Promote);
    SameListingsIff(blocks, kept, Commit(cfg.epochLength));
  }

  ghost predicate SameListings(a: seq<Header>, b: seq<Header>, kind: Kind) {
    forall h, t :: ListedAt(a, kind, h, t) <==> ListedAt(b, kind, h, t)
  }

  lemma SameListingsIff(blocks: seq<Header>, kept: nat, kind: Kind)
    requires kept <= |blocks|
    ensures SameListings(blocks[..kept], blocks, kind) <==>
      forall h :: kept <= h < |blocks| ==> Listed(blocks[h], kind) == {}
  {
    PrefixPositions(blocks, kept, kind);
    if SameListings(blocks[..kept], blocks, kind) {
      forall h | kept <= h < |blocks| ensures Listed(blocks[h], kind) == {} {
        forall t ensures t !in Listed(blocks[h], kind) {
          assert ListedAt(blocks, kind, h, t) <==> t in Listed(blocks[h], kind);
        }
      }
    }
  }

  /**
   * A completed reorg keeps rows and index in agreement exactly when the index
   * is at or below the fork point, or is rolled back to it, or the indexed
   * orphans list no tx: the depth guard alone does not imply it.
   */
  lemma ReorgAgreesIff(n: Node, fork: nat, newFork: seq<Header>, cfg: Config)
    requires Inv(n, cfg) && n.pending.None? && fork < |n.chain| && !Refused(n, fork, cfg)
    ensures Agrees(Reorged(n, fork, newFork, cfg), cfg) <==>
            NotOvertaken(n, fork, cfg) || NothingListedAbove(n.index, fork, cfg)
  {
    var after, kept := Reorged(n, fork, newFork, cfg), Kept(|n.index|, fork);
    assert n.chain[..|n.index|] == n.index;
    ClearRows(n.chain, |n.index|, fork, n, cfg);
    assert n.chain[..kept] == n.index[..kept];
    if NotOvertaken(n, fork, cfg) {
      assert after.index == n.index[..kept];
    } else {
      ExactForBothIff(n.index, kept, after.rows, after.commits, cfg);
    }
  }

  /** The indexed orphans list nothing, so losing their clear loses nothing. */
  ghost predicate LosesNothing(n: Node, p: Pending, cfg: Config)
    requires p.fork < |n.chain| && p.indexed <= |OldChain(n, p)|
  {
    p.indexed <= p.fork + 1 || NothingListedAbove(OldChain(n, p)[..p.indexed], p.fork, cfg)
  }

  /**
   * When a clear is lost after the rollback, the restarted node's rows agree
   * with its index exactly when the rolled-back entries list nothing.
   */
  lemma LostClearAgreesIff(n: Node, cfg: Config)
    requires Inv(n, cfg) && n.pending.Some?
    ensures Agrees(Next(n, Restart, cfg), cfg) <==> LosesNothing(n, n.pending.value, cfg)
  {
    var p := n.pending.value;
    var before := OldChain(n, p)[..p.indexed];
    if p.indexed <= p.fork + 1 {
      assert n.index == before;
    } else {
      assert n.index == before[..p.fork + 1];
      LargerRowsIff(before, p.fork + 1, n.rows, n.commits, cfg);
    }
  }

  /** Rows exact for a list are exact for a prefix of it iff the rest lists nothing. */
  lemma LargerRowsIff(blocks: seq<Header>, kept: nat, rows: DataRows, commits: CommitRows, cfg: Config)
    requires 0 < kept <= |blocks|
    requires DataRowsAgree(blocks, rows) && CommitRowsAgree(blocks, cfg.epochLength, commits)
    ensures DataRowsAgree(blocks[..kept], rows) && CommitRowsAgree(blocks[..kept], cfg.epochLength, commits) <==>
            NothingListedAbove(blocks, kept - 1, cfg)
  {
    SameListingsIff(blocks, kept, Include);
    SameListingsIff(blocks, kept, Promote);
    SameListingsIff(blocks, kept, Commit(cfg.epochLength));
  }

  // ---- Whole runs ----

  /** No reorg is overtaken by the index, and no restart loses a clear that matters. */
  ghost predicate LegalStep(n: Node, step: Step, cfg: Config) {
    && GoodChain(Next(n, step, cfg).chain, cfg)
    && (step.MoveTip? && n.pending.None? && step.fork < |n.chain| ==> NotOvertaken(n, step.fork, cfg))
    && (step.Restart? && n.pending.Some? ==>
          && n.pending.value.fork < |n.chain| && n.pending.value.indexed <= |OldChain(n, n.pending.value)|
          && LosesNothing(n, n.pending.value, cfg))
  }

  lemma MigrateKeepsInv(n: Node, cfg: Config)
    requires Inv(n, cfg)
    ensures Inv(Next(n, Migrate, cfg), cfg)
  {
    if n.pending.None? && |n.index| < |n.chain| {
      var b := n.chain[|n.index|];
      assert n.index + [b] == n.chain[..|n.index| + 1];
      PrefixUnique(n.chain, |n.index| + 1, cfg.epochLength);
      MigrateKeepsRows(n.index, b, n.rows, n.commits, cfg.epochLength);
    }
  }

  lemma MoveTipKeepsInv(n: Node, fork: nat, newFork: seq<Header>, cfg: Config)
    requires Inv(n, cfg) && LegalStep(n, MoveTip(fork, newFork), cfg)
    ensures Inv(Next(n, MoveTip(fork, newFork), cfg), cfg)
  {
    if n.pending.None? && fork < |n.chain| && !Refused(n, fork, cfg) {
      var after := Next(n, MoveTip(fork, newFork), cfg);
      var p := after.pending.value;
      assert after.chain[..fork + 1] == n.chain[..fork + 1];
      assert OldChain(after, p) == n.chain;
      assert n.chain[..|n.index|] == n.index;
      assert after.index == n.chain[..Kept(|n.index|, fork)];
    }
  }

  lemma ClearKeepsInv(n: Node, cfg: Config)
    requires Inv(n, cfg)
    ensures Inv(Next(n, Clear, cfg), cfg)
  {
    if n.pending.Some? {
      var p := n.pending.value;
      assert OldChain(n, p)[p.fork + 1..] == p.orphans;
      ClearRows(OldChain(n, p), p.indexed, p.fork, n, cfg);
    }
  }

  lemma RestartKeepsInv(n: Node, cfg: Config)
    requires Inv(n, cfg) && LegalStep(n, Restart, cfg)
    ensures Inv(Next(n, Restart, cfg), cfg)
  {
    if n.pending.Some? {
      LostClearAgreesIff(n, cfg);
    }
  }

  lemma StepKeepsInv(n: Node, step: Step, cfg: Config)
    requires Inv(n, cfg) && LegalStep(n, step, cfg)
    ensures Inv(Next(n, step, cfg), cfg)
  {
    match step
    case Confirm(b) =>
    case Migrate => MigrateKeepsInv(n, cfg);
    case MoveTip(fork, newFork) => MoveTipKeepsInv(n, fork, newFork, cfg);
    case Clear => ClearKeepsInv(n, cfg);
    case Restart => RestartKeepsInv(n, cfg);
  }

  /** A branch's prefix is as unique as the branch. */
  lemma PrefixUnique(blocks: seq<Header>, n: nat, epochLength: nat)
    requires UniqueBranch(blocks, epochLength) && n <= |blocks|
    ensures UniqueBranch(blocks[..n], epochLength)
  {
    PrefixPositions(blocks, n, Include);
    PrefixPositions(blocks, n, Promote);
    PrefixPositions(blocks, n, Commit(epochLength));
    var p := blocks[..n];
    forall i, t | ListedAt(p, Promote, i, t) ensures IncludedBy(p, i, t) {
      assert IncludedBy(blocks, i, t);
      var j :| j <= i && ListedAt(blocks, Include, j, t);
      assert ListedAt(p, Include, j, t);
    }
  }

  ghost function Run(n: Node, steps: seq<Step>, cfg: Config): Node
    decreases |steps|
  {
    if steps == [] then n else Run(Next(n, steps[0], cfg), steps[1..], cfg)
  }

  ghost predicate LegalRun(n: Node, steps: seq<Step>, cfg: Config)
    decreases |steps|
  {
    steps != [] ==> LegalStep(n, steps[0], cfg) && LegalRun(Next(n, steps[0], cfg), steps[1..], cfg)
  }

  /**
   * After every such run, rows and index agree; while a clear is pending, the
   * rows are still those of the index before the rollback.
   */
  lemma {:induction false} RowsAgreeAfterEveryRun(n: Node, steps: seq<Step>, cfg: Config)
    requires Inv(n, cfg) && LegalRun(n, steps, cfg)
    ensures Inv(Run(n, steps, cfg), cfg)
    decreases |steps|
  {
    if steps != [] {
      StepKeepsInv(n, steps[0], cfg);
      RowsAgreeAfterEveryRun(Next(n, steps[0], cfg), steps[1..], cfg);
    }
  }

  /** The index trails the tip by the migration depth, or holds genesis alone. */
  predicate Trails(n: Node, cfg: Config) {
    |n.index| <= 1 || |n.index| + cfg.migrationDepth <= |n.chain|
  }

  /** No restart, no migration ahead of the depth, and no reorg onto a shorter chain. */
  ghost predicate SteadyStep(n: Node, step: Step, cfg: Config) {
    && GoodChain(Next(n, step, cfg).chain, cfg)
    && match step
       case Confirm(_) => true
       case Migrate => |n.index| + 1 + cfg.migrationDepth <= |n.chain|
       case Restart => false
       case Clear => true
       case MoveTip(fork, newFork) => fork < |n.chain| ==> |newFork| >= |n.chain| - fork - 1
  }

  ghost predicate SteadyRun(n: Node, steps: seq<Step>, cfg: Config)
    decreases |steps|
  {
    steps != [] ==> SteadyStep(n, steps[0], cfg) && SteadyRun(Next(n, steps[0], cfg), steps[1..], cfg)
  }

  /** In steady operation the depth guard is enough: no reorg overtakes. */
  lemma {:induction false} SteadyRunsAreLegal(n: Node, steps: seq<Step>, cfg: Config)
    requires Trails(n, cfg) && SteadyRun(n, steps, cfg)
    ensures LegalRun(n, steps, cfg)
    decreases |steps|
  {
    if steps != [] {
      assert steps[0].MoveTip? && steps[0].fork < |n.chain| ==> NotOvertaken(n, steps[0].fork, cfg);
      SteadyRunsAreLegal(Next(n, steps[0], cfg), steps[1..], cfg);
    }
  }

  // ---- What survives lost clears ----

  ghost predicate RowsCover(n: Node, cfg: Config) {
    DataRowsCover(n.index, n.rows) && CommitRowsCover(n.index, cfg.epochLength, n.commits)
  }

  /** Every indexed listing has its row; a pending clear will not touch it. */
  ghost predicate Covered(n: Node, cfg: Config) {
    && n.index <= n.chain && GoodChain(n.chain, cfg) && RowsCover(n, cfg)
    && (n.pending.Some? ==>
          var p := n.pending.value;
          p.fork < |n.chain| && |n.index| <= p.fork + 1 && UniqueBranch(OldChain(n, p), cfg.epochLength))
  }

  /** The branch stays good and no reorg is overtaken by the index; restarts may come at any point. */
  ghost predicate CoveringStep(n: Node, step: Step, cfg: Config) {
    && GoodChain(Next(n, step, cfg).chain, cfg)
    && (step.MoveTip? && n.pending.None? && step.fork < |n.chain| ==> NotOvertaken(n, step.fork, cfg))
  }

  ghost predicate CoveringRun(n: Node, steps: seq<Step>, cfg: Config)
    decreases |steps|
  {
    steps != [] ==> CoveringStep(n, steps[0], cfg) && CoveringRun(Next(n, steps[0], cfg), steps[1..], cfg)
  }

  /** Migrating the next block over rows with stale entries: never a row missing, every listing covered. */
  lemma MigrateCoversRows(index: seq<Header>, b: Header, rows: DataRows, commits: CommitRows, epochLength: nat)
    requires UniqueBranch(index + [b], epochLength) && b.height == |index|
    requires DataRowsCover(index, rows) && CommitRowsCover(index, epochLength, commits)
    ensures PublishIds(b.ledgers) <= rows.Keys + TermIds(b.ledgers)
    ensures DataRowsCover(index + [b], Written(rows, TermIds(b.ledgers), PublishIds(b.ledgers), b.height))
    ensures CommitRowsCover(index + [b], epochLength,
                            CommitsWritten(commits, OwnedCommitments(b, epochLength), b.height))
  {
    var term, publish, owned := TermIds(b.ledgers), PublishIds(b.ledgers), OwnedCommitments(b, epochLength);
    var longer := index + [b];
    ListedSnoc(index, b, Include);
    ListedSnoc(index, b, Promote);
    ListedSnoc(index, b, Commit(epochLength));
    forall t | t in publish ensures t in rows.Keys + term {
      assert ListedAt(longer, Promote, |index|, t);
      var j :| j <= |index| && ListedAt(longer, Include, j, t);
      assert ListedAt(index, Include, j, t) ==> IncludedRow(rows, t, j);
    }
    var rows' := Written(rows, term, publish, b.height);
    forall t, h | ListedAt(longer, Include, h, t) ensures IncludedRow(rows', t, h) {
      assert t in term ==> ListedAt(longer, Include, |index|, t);
      assert IncludedRow(rows', t, h) <==> if t in term then h == |index| else IncludedRow(rows, t, h);
    }
    forall t, h | ListedAt(longer, Promote, h, t) ensures PromotedRow(rows', t, h) {
      assert t in publish ==> ListedAt(longer, Promote, |index|, t);
      assert PromotedRow(rows', t, h) <==> if t in publish then h == |index| else PromotedRow(rows, t, h);
    }
    var commits' := CommitsWritten(commits, owned, b.height);
    forall t, h | ListedAt(longer, Commit(epochLength), h, t) ensures CommitRow(commits', t, h) {
      assert t in owned ==> ListedAt(longer, Commit(epochLength), |index|, t);
      assert CommitRow(commits', t, h) <==> if t in owned then h == |index| else CommitRow(commits, t, h);
    }
  }

  /** A prefix of a covered list is covered. */
  lemma PrefixCovered(index: seq<Header>, k: nat, rows: DataRows, commits: CommitRows, epochLength: nat)
    requires k <= |index| && DataRowsCover(index, rows) && CommitRowsCover(index, epochLength, commits)
    ensures DataRowsCover(index[..k], rows) && CommitRowsCover(index[..k], epochLength, commits)
  {
    PrefixPositions(index, k, Include);
    PrefixPositions(index, k, Promote);
    PrefixPositions(index, k, Commit(epochLength));
  }

  /** Clearing the orphans touches no row of a block at or below the fork. */
  lemma ClearKeepsCover(branch: seq<Header>, k: nat, fork: nat, n: Node, cfg: Config)
    requires UniqueBranch(branch, cfg.epochLength) && fork < |branch| && k <= fork + 1
    requires DataRowsCover(branch[..k], n.rows) && CommitRowsCover(branch[..k], cfg.epochLength, n.commits)
    ensures var cleared := ClearOrphans(n, branch[fork + 1..], cfg);
      DataRowsCover(branch[..k], cleared.rows) && CommitRowsCover(branch[..k], cfg.epochLength, cleared.commits)
  {
    var tail, commit, low := branch[fork + 1..], Commit(cfg.epochLength), branch[..k];
    var rows' := Cleared(n.rows, ListedBy(tail, Include), ListedBy(tail, Promote));
    TailPositions(branch, fork, Include);
    TailPositions(branch, fork, Promote);
    TailPositions(branch, fork, commit);
    PrefixPositions(branch, k, Include);
    PrefixPositions(branch, k, Promote);
    PrefixPositions(branch, k, commit);
    forall t, h | ListedAt(low, Include, h, t) ensures IncludedRow(rows', t, h) {
      assert ListedAt(branch, Include, h, t);
      assert IncludedRow(rows', t, h) <==> IncludedRow(n.rows, t, h) && t !in ListedBy(tail, Include);
    }
    forall t, h | ListedAt(low, Promote, h, t) ensures PromotedRow(rows', t, h) {
      assert ListedAt(branch, Promote, h, t) && IncludedBy(branch, h, t);
      var j :| j <= h && ListedAt(branch, Include, j, t);
      assert PromotedRow(rows', t, h) <==>
             PromotedRow(n.rows, t, h) && t !in ListedBy(tail, Include) && t !in ListedBy(tail, Promote);
    }
    forall t, h | ListedAt(low, commit, h, t) ensures CommitRow(n.commits - ListedBy(tail, commit), t, h) {
      assert ListedAt(branch, commit, h, t);
    }
  }

  lemma MoveTipKeepsCovered(n: Node, fork: nat, newFork: seq<Header>, cfg: Config)
    requires Covered(n, cfg) && CoveringStep(n, MoveTip(fork, newFork), cfg)
    ensures Covered(Next(n, MoveTip(fork, newFork), cfg), cfg)
  {
    if n.pending.None? && fork < |n.chain| && !Refused(n, fork, cfg) {
      var after := Next(n, MoveTip(fork, newFork), cfg);
      assert after.chain[..fork + 1] == n.chain[..fork + 1];
      assert OldChain(after, after.pending.value) == n.chain;
      PrefixCovered(n.index, |after.index|, n.rows, n.commits, cfg.epochLength);
    }
  }

  lemma StepKeepsCovered(n: Node, step: Step, cfg: Config)
    requires Covered(n, cfg) && CoveringStep(n, step, cfg)
    ensures Covered(Next(n, step, cfg), cfg)
  {
    match step
    case Confirm(b) =>
    case Migrate =>
      if n.pending.None? && |n.index| < |n.chain| {
        var b := n.chain[|n.index|];
        assert n.index + [b] == n.chain[..|n.index| + 1];
        PrefixUnique(n.chain, |n.index| + 1, cfg.epochLength);
        MigrateCoversRows(n.index, b, n.rows, n.commits, cfg.epochLength);
      }
    case MoveTip(fork, newFork) => MoveTipKeepsCovered(n, fork, newFork, cfg);
    case Clear =>
      if n.pending.Some? {
        var p := n.pending.value;
        assert OldChain(n, p)[p.fork + 1..] == p.orphans && OldChain(n, p)[..|n.index|] == n.index;
        ClearKeepsCover(OldChain(n, p), |n.index|, p.fork, n, cfg);
      }
    case Restart =>
  }

  /**
   * Every indexed listing has its row after every run in which no reorg is
   * overtaken by the index, wherever crashes and failed clears fall: a lost clear
   * leaves only stale rows behind. This is what the commitment replay lookup
   * needs of the rows. `ReorgCoversIff` says what an overtaken reorg does, and
   * `OvertakenReorgUncovers` shows that a restart can make one possible.
   */
  lemma {:induction false} IndexedListingsKeepRows(n: Node, steps: seq<Step>, cfg: Config)
    requires Covered(n, cfg) && CoveringRun(n, steps, cfg)
    ensures Covered(Run(n, steps, cfg), cfg)
    decreases |steps|
  {
    if steps != [] {
      StepKeepsCovered(n, steps[0], cfg);
      IndexedListingsKeepRows(Next(n, steps[0], cfg), steps[1..], cfg);
    }
  }

  /** A completed reorg keeps every indexed listing's row under the same condition as it keeps agreement. */
  lemma ReorgCoversIff(n: Node, fork: nat, newFork: seq<Header>, cfg: Config)
    requires Covered(n, cfg) && n.pending.None? && fork < |n.chain| && !Refused(n, fork, cfg)
    ensures RowsCover(Reorged(n, fork, newFork, cfg), cfg) <==>
            NotOvertaken(n, fork, cfg) || NothingListedAbove(n.index, fork, cfg)
  {
    var after, kept := Reorged(n, fork, newFork, cfg), Kept(|n.index|, fork);
    PrefixCovered(n.index, kept, n.rows, n.commits, cfg.epochLength);
    assert n.chain[..kept] == n.index[..kept];
    ClearKeepsCover(n.chain, kept, fork, n, cfg);
    if !NotOvertaken(n, fork, cfg) {
      if NothingListedAbove(n.index, fork, cfg) {
        SameListingsIff(n.index, kept, Include);
        SameListingsIff(n.index, kept, Promote);
        SameListingsIff(n.index, kept, Commit(cfg.epochLength));
      } else {
        var h :| fork < h < |n.index| && !ListsNothing(n.index[h], cfg);
        ClearedListingIsUncovered(n, fork, h, cfg);
      }
    }
  }

  lemma ClearedListingIsUncovered(n: Node, fork: nat, h: nat, cfg: Config)
    requires n.index <= n.chain && fork < h < |n.index| && !ListsNothing(n.index[h], cfg)
    ensures var cleared := ClearOrphans(n, n.chain[fork + 1..], cfg);
      !DataRowsCover(n.index, cleared.rows) || !CommitRowsCover(n.index, cfg.epochLength, cleared.commits)
  {
    var b, tail := n.index[h], n.chain[fork + 1..];
    assert tail[h - fork - 1] == b;
    if TermIds(b.ledgers) != {} {
      var t :| t in TermIds(b.ledgers);
      assert ListedAt(n.index, Include, h, t) && t in Listed(tail[h - fork - 1], Include);
    } else if PublishIds(b.ledgers) != {} {
      var t :| t in PublishIds(b.ledgers);
      assert ListedAt(n.index, Promote, h, t) && t in Listed(tail[h - fork - 1], Promote);
    } else {
      assert OwnedCommitments(b, cfg.epochLength) == Ids(b.commitments) != {};
      var t := b.commitments[0];
      assert ListedAt(n.index, Commit(cfg.epochLength), h, t)
        && t in Listed(tail[h - fork - 1], Commit(cfg.epochLength));
    }
  }

  // ---- Where agreement fails ----

  const EXAMPLE_CONFIG := Config(100, 10, 1)
  const GENESIS := Header(0, -1, 0, [], [])
  const LISTING := Header(1, 0, 1, [LedgerEntry(Submit, [7])], [])
  const TIP := Header(2, 1, 2, [], [])
  const RIVAL := Header(3, 0, 1, [], [])

  lemma OneListingIsGood(chain: seq<Header>)
    requires 1 <= |chain| <= 3 && chain[0] == GENESIS
    requires |chain| > 1 ==> chain[1] == LISTING || chain[1] == RIVAL
    requires |chain| > 2 ==> chain[2] == TIP
    ensures GoodChain(chain, EXAMPLE_CONFIG)
  {
    assert forall h, t :: ListedAt(chain, Include, h, t) ==> h == 1;
    assert forall h, t :: !ListedAt(chain, Promote, h, t);
    assert forall h, t :: !ListedAt(chain, Commit(100), h, t);
  }

  /** The block at height 1 lists a tx and is migrated. */
  function ListingMigrated(): Node {
    Node([GENESIS, LISTING, TIP], [GENESIS, LISTING], map[7 := DataRow(1, None)], map[], None)
  }

  lemma ListingMigratedIsReached()
    ensures var n := Node([GENESIS, LISTING, TIP], [GENESIS], map[], map[], None);
      && Inv(n, EXAMPLE_CONFIG) && Trails(n, EXAMPLE_CONFIG)
      && Next(n, Migrate, EXAMPLE_CONFIG) == ListingMigrated() && Inv(ListingMigrated(), EXAMPLE_CONFIG)
    ensures !ListsNothing(LISTING, EXAMPLE_CONFIG)
  {
    var n := Node([GENESIS, LISTING, TIP], [GENESIS], map[], map[], None);
    OneListingIsGood(n.chain);
    var entry := LISTING.ledgers[0];
    assert entry.txIds[0] == 7 && 7 in entry.txIds && 7 in TermIds(LISTING.ledgers);
    assert TermIds(LISTING.ledgers) == {7} && PublishIds(LISTING.ledgers) == {};
    var one := Next(n, Migrate, EXAMPLE_CONFIG);
    assert one.rows == map[7 := DataRow(1, None)] && one.commits == map[];
    StepKeepsInv(n, Migrate, EXAMPLE_CONFIG);
  }

  /**
   * Outside steady operation the depth guard does not suffice: after a restart
   * the index is the tip, a reorg of one migrated block is within the depth, and
   * its rows go while it stays indexed.
   */
  lemma RestartThenShallowReorgDisagrees()
    ensures var restarted := Next(ListingMigrated(), Restart, EXAMPLE_CONFIG);
      var after := Reorged(restarted, 0, [RIVAL], EXAMPLE_CONFIG);
      && Inv(restarted, EXAMPLE_CONFIG) && GoodChain(after.chain, EXAMPLE_CONFIG) && !Agrees(after, EXAMPLE_CONFIG)
  {
    ListingMigratedIsReached();
    var restarted := Next(ListingMigrated(), Restart, EXAMPLE_CONFIG);
    OneListingIsGood([GENESIS, LISTING]);
    assert Inv(restarted, EXAMPLE_CONFIG);
    assert restarted.index[1] == LISTING;
    ReorgAgreesIff(restarted, 0, [RIVAL], EXAMPLE_CONFIG);
    assert restarted.chain[..1] + [RIVAL] == [GENESIS, RIVAL];
    OneListingIsGood([GENESIS, RIVAL]);
  }

  lemma RunThree(n: Node, steps: seq<Step>, cfg: Config)
    requires |steps| == 3
    ensures Run(n, steps, cfg) == Next(Next(Next(n, steps[0], cfg), steps[1], cfg), steps[2], cfg)
  {
    var one := Next(n, steps[0], cfg);
    var two := Next(one, steps[1], cfg);
    assert Run(two, [steps[2]], cfg) == Next(two, steps[2], cfg);
    assert steps[1..][1..] == [steps[2]];
  }

  /** In the same run the block that stays indexed loses its row: its listing is no longer covered. */
  lemma OvertakenReorgUncovers()
    ensures var steps := [Restart, MoveTip(0, [RIVAL]), Clear];
      var after := Run(ListingMigrated(), steps, EXAMPLE_CONFIG);
      && Covered(ListingMigrated(), EXAMPLE_CONFIG) && after.index == [GENESIS, LISTING]
      && ListedAt(after.index, Include, 1, 7) && 7 !in after.rows && !RowsCover(after, EXAMPLE_CONFIG)
  {
    ListingMigratedIsReached();
    var n, steps := ListingMigrated(), [Restart, MoveTip(0, [RIVAL]), Clear];
    var restarted := Next(n, Restart, EXAMPLE_CONFIG);
    var moved := Next(restarted, MoveTip(0, [RIVAL]), EXAMPLE_CONFIG);
    var after := Next(moved, Clear, EXAMPLE_CONFIG);
    RunThree(n, steps, EXAMPLE_CONFIG);
    var entry := LISTING.ledgers[0];
    assert entry.txIds[0] == 7 && 7 in TermIds(LISTING.ledgers);
    assert moved.pending.value.orphans == [LISTING] && 7 in Listed([LISTING][0], Include);
    assert ListedAt(after.index, Include, 1, 7) && !IncludedRow(after.rows, 7, 1);
  }

  /** The node with its index cut and the clear pending. */
  function RollbackDone(): Node {
    Node([GENESIS, RIVAL], [GENESIS], map[7 := DataRow(1, None)], map[], Some(Pending(0, [LISTING, TIP], 2)))
  }

  lemma RollbackDoneIsReached()
    ensures Next(ListingMigrated(), MoveTip(0, [RIVAL]), EXAMPLE_CONFIG) == RollbackDone()
    ensures Inv(RollbackDone(), EXAMPLE_CONFIG)
    ensures !Agrees(Next(RollbackDone(), Restart, EXAMPLE_CONFIG), EXAMPLE_CONFIG)
  {
    ListingMigratedIsReached();
    var n, moved := ListingMigrated(), RollbackDone();
    assert n.chain[..1] + [RIVAL] == [GENESIS, RIVAL] && n.index[..1] == [GENESIS] && n.chain[1..] == [LISTING, TIP];
    OneListingIsGood(moved.chain);
    MoveTipKeepsInv(n, 0, [RIVAL], EXAMPLE_CONFIG);
    assert OldChain(moved, moved.pending.value)[..2][1] == LISTING;
    LostClearAgreesIff(moved, EXAMPLE_CONFIG);
  }

  /**
   * A crash between the two transactions of a deep reorg: the index is cut, the
   * orphan's row stays, and it still names height 1 after the rival block has
   * migrated there.
   */
  lemma CrashBetweenTransactionsDisagrees()
    ensures var restarted := Next(RollbackDone(), Restart, EXAMPLE_CONFIG);
      var regrown := Next(Next(restarted, Confirm(RIVAL), EXAMPLE_CONFIG), Migrate, EXAMPLE_CONFIG);
      && regrown.index == [GENESIS, RIVAL] && IncludedRow(regrown.rows, 7, 1) && !Agrees(regrown, EXAMPLE_CONFIG)
  {
    var restarted := Next(RollbackDone(), Restart, EXAMPLE_CONFIG);
    var confirmed := Next(restarted, Confirm(RIVAL), EXAMPLE_CONFIG);
    var regrown := Next(confirmed, Migrate, EXAMPLE_CONFIG);
    assert confirmed.chain == [GENESIS, RIVAL] && confirmed.chain[1] == RIVAL;
    assert TermIds(RIVAL.ledgers) == {} && PublishIds(RIVAL.ledgers) == {};
    assert regrown.index[1] == RIVAL && !ListedAt(regrown.index, Include, 1, 7);
  }
}
