// The supply total over the migration service's own runs: what `MigrateBlocks`
// and `RecoverFromNetworkPartition` do to it, tied to the emission of the index.

module ServiceSupply {
  import opened Outcome
  import opened RollbackRanges
  import opened BlockMigration
  import opened Supply

  /** One block paid for. */
  lemma PaidKeepsOnTrack(s: State, e: Emissions, blocks: nat, end: nat, after: State)
    requires end == blocks + 1 && OnTrack(s, e, blocks) && Defined(e, end) && Paid(s, blocks, e, after)
    ensures OnTrack(after, e, end)
  {
    AddKeepsOnTrack(s, e, blocks);
  }

  /** The last of several rewards. */
  lemma RewardedLast(s: State, from: nat, count: nat, e: Emissions)
    requires count > 0 && Rewarded(s, from, count, e).Some?
    ensures Rewarded(s, from, count - 1, e).Some?
    ensures Paid(Rewarded(s, from, count - 1, e).value, from + count - 1, e, Rewarded(s, from, count, e).value)
  {
  }

  /** Each single reward below `hi` preserves `ok`. */
  ghost predicate EachPreserves(ok: (State, nat) -> bool, e: Emissions, hi: nat) {
    forall s, h: nat, after :: h < hi && ok(s, h) && Paid(s, h, e, after) ==> ok(after, h + 1)
  }

  /** What every single reward preserves, a run of rewards preserves. */
  lemma {:induction false} RewardsPreserve(ok: (State, nat) -> bool, s: State, e: Emissions, from: nat, count: nat)
    requires EachPreserves(ok, e, from + count) && ok(s, from) && Rewarded(s, from, count, e).Some?
    ensures ok(Rewarded(s, from, count, e).value, from + count)
    decreases count
  {
    if count > 0 {
      RewardedLast(s, from, count, e);
      RewardsPreserve(ok, s, e, from, count - 1);
    }
  }

  /** Adding the rewards of the next blocks keeps the total on track. */
  lemma RewardsKeepOnTrack(s: State, e: Emissions, blocks: nat, count: nat, after: State)
    requires OnTrack(s, e, blocks) && Defined(e, blocks + count) && Rewarded(s, blocks, count, e) == Some(after)
    ensures OnTrack(after, e, blocks + count)
  {
    var ok := (s: State, h: nat) => OnTrack(s, e, h);
    forall s, h: nat, after | h < blocks + count && ok(s, h) && Paid(s, h, e, after) ensures ok(after, h + 1) {
      SumFits(e, 0, h + 1, blocks + count);
      PaidKeepsOnTrack(s, e, h, h + 1, after);
    }
    RewardsPreserve(ok, s, e, blocks, count);
  }

  /** A recovery keeps it on track under the condition of `RollbackOnTrackIff`. */
  lemma RecoveryOnTrackIff(s: State, e: Emissions, blocks: nat, fork: nat)
    requires OnTrack(s, e, blocks) && fork + 1 < blocks
    ensures AllEmit(e, fork + 1, blocks) && Defined(e, fork + 1)
    ensures OnTrack(RolledBack(s, fork, Folded(e, fork + 1, blocks)), e, fork + 1) <==>
      s.ready || s.first.None? || s.first.value <= fork + 1 || Sum(e, fork + 1, s.first.value) == 0
  {
    FoldedIsSum(e, fork + 1, blocks);
    RollbackOnTrackIff(s, e, blocks, fork);
  }

  /** A `MigrateBlocks` call that indexed `count` blocks and paid for all of them, whatever else it returned. */
  ghost predicate MigrationStep(a: Ledger, b: Ledger, e: Emissions, count: nat) {
    b.blocks == a.blocks + count && Defined(e, b.blocks) && Rewarded(a.state, a.blocks, count, e) == Some(b.state)
  }

  /** A recovery that cannot hurt the backfill. */
  ghost predicate RecoveryStep(a: Ledger, b: Ledger, e: Emissions, fork: nat) {
    && fork + 1 < a.blocks && AllEmit(e, fork + 1, a.blocks)
    && (a.state.ready || a.state.first.None? || a.state.first.value <= fork + 1)
    && b == Ledger(RolledBack(a.state, fork, Folded(e, fork + 1, a.blocks)), fork + 1)
  }

  ghost predicate BackfillStep(a: Ledger, b: Ledger, e: Emissions) {
    Legal(a, FinishBackfill, e) && b == Next(a, FinishBackfill, e)
  }

  /** A restart reads the state file and finds whatever index the last process left, paid for or not. */
  ghost predicate RestartStep(a: Ledger, b: Ledger, e: Emissions) {
    b.state == Restarted(a.state) && Defined(e, b.blocks)
  }

  ghost predicate ServiceStep(a: Ledger, b: Ledger, e: Emissions) {
    || (exists count :: MigrationStep(a, b, e, count))
    || (exists fork :: RecoveryStep(a, b, e, fork))
    || BackfillStep(a, b, e)
    || RestartStep(a, b, e)
  }

  lemma ServiceStepKeepsOnTrack(a: Ledger, b: Ledger, e: Emissions)
    requires OnTrack(a.state, e, a.blocks) && ServiceStep(a, b, e)
    ensures OnTrack(b.state, e, b.blocks)
  {
    if count :| MigrationStep(a, b, e, count) {
      RewardsKeepOnTrack(a.state, e, a.blocks, count, b.state);
    } else if fork :| RecoveryStep(a, b, e, fork) {
      RecoveryOnTrackIff(a.state, e, a.blocks, fork);
    } else if RestartStep(a, b, e) {
      RestartRestoresTrack(a.state, e, b.blocks);
    } else {
      StepKeepsOnTrack(a, FinishBackfill, e);
    }
  }

  ghost predicate ServiceRun(trace: seq<Ledger>, e: Emissions) {
    trace != [] && forall k :: 0 <= k < |trace| - 1 ==> StepAt(trace, e, k)
  }

  ghost predicate StepAt(trace: seq<Ledger>, e: Emissions, k: nat)
    requires k + 1 < |trace|
  {
    ServiceStep(trace[k], trace[k + 1], e)
  }

  /**
   * After every run of the service's migrations, partial ones included,
   * recoveries and restarts, with the backfill finishing anywhere in it, a ready
   * total is the emission of the indexed blocks.
   */
  lemma {:induction false} ServiceTotalIsEmission(trace: seq<Ledger>, e: Emissions, k: nat)
    requires ServiceRun(trace, e) && OnTrack(trace[0].state, e, trace[0].blocks) && k < |trace|
    ensures OnTrack(trace[k].state, e, trace[k].blocks)
    ensures trace[k].state.ready ==> trace[k].state.total == Sum(e, 0, trace[k].blocks)
  {
    if k > 0 {
      ServiceTotalIsEmission(trace, e, k - 1);
      assert StepAt(trace, e, k - 1);
      ServiceStepKeepsOnTrack(trace[k - 1], trace[k], e);
    }
  }

  /** A call of `MigrateBlocks` is a migration step, unless the supply update itself failed. */
  lemma MigrateBlocksIsStep(before: Tables, after: Tables, path: seq<SealedBlock>, done: nat,
                            r: Result<(), MigrationError>, s: State, s': State, e: Emissions,
                            cfg: MetadataAgreement.Config)
    requires Sound(before) && Migrated(before, after, path, done, cfg) && r != Err(SupplyFailed)
    requires Rewarded(s, |before.index|, PaidCount(r, done), e) == Some(s') && Defined(e, |after.index|)
    ensures ServiceStep(Ledger(s, |before.index|), Ledger(s', |after.index|), e)
  {
    assert MigrationStep(Ledger(s, |before.index|), Ledger(s', |after.index|), e, done);
  }

  /**
   * A recovery that rolls back is a recovery step, unless it reaches below a first
   * migration still being backfilled.
   */
  lemma RecoveryIsStep(t: Tables, fork: nat, modules: seq<Module>, perPartition: nat, e: Emissions,
                       cfg: MetadataAgreement.Config, plan: RecoveryPlan, s: State)
    requires Sound(t) && Plans(t, fork, modules, perPartition, e, cfg, plan) && plan.Roll?
    requires s.ready || s.first.None? || s.first.value <= fork + 1
    ensures ServiceStep(Ledger(s, |t.index|), Ledger(RolledBack(s, fork, plan.amount), |plan.after.index|), e)
  {
    assert RecoveryStep(Ledger(s, |t.index|), Ledger(RolledBack(s, fork, plan.amount), |plan.after.index|), e, fork);
  }

  /**
   * A failed supply update leaves the total that of the index without its last
   * block; it ends the process, and the restart makes up for the block.
   */
  lemma FailedUpdateIsOneBehind(s: State, e: Emissions, blocks: nat, done: nat, after: State)
    requires OnTrack(s, e, blocks) && done > 0 && Defined(e, blocks + done)
    requires Rewarded(s, blocks, PaidCount(Err(SupplyFailed), done), e) == Some(after)
    ensures OnTrack(after, e, blocks + done - 1) && OnTrack(Restarted(after), e, blocks + done)
  {
    SumFits(e, 0, blocks + done - 1, blocks + done);
    RewardsKeepOnTrack(s, e, blocks, done - 1, after);
    RestartRestoresTrack(after, e, blocks + done);
  }
}
