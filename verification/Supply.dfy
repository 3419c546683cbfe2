// The running supply total: `SupplyState`, the migration and rollback updates
// the migration service makes to it, and the batched backfill of
// `supply_state_calculator.rs`.

module Supply {
  import opened Chain
  import opened BlockReward
  import opened Outcome

  /** Emission by height: the service and the backfill are given `block_emission` of the curve. */
  type Emissions = nat -> Option<nat>

  ghost predicate Emits(e: Emissions, hi: nat) {
    forall h :: 0 <= h < hi ==> e(h).Some?
  }

  /** Emission of the blocks at heights `[lo, hi)`. */
  ghost function Sum(e: Emissions, lo: nat, hi: nat): nat
    requires Emits(e, hi)
  {
    if hi <= lo then 0 else Sum(e, lo, hi - 1) + e(hi - 1).value
  }

  /** Every height below `hi` has an emission, and together they fit in 256 bits. */
  ghost predicate Defined(e: Emissions, hi: nat) {
    Emits(e, hi) && Sum(e, 0, hi) < U256_LIMIT
  }

  lemma {:induction false} SumSplits(e: Emissions, lo: nat, mid: nat, hi: nat)
    requires lo <= mid <= hi && Emits(e, hi)
    ensures Sum(e, lo, hi) == Sum(e, lo, mid) + Sum(e, mid, hi)
    decreases hi
  {
    if mid < hi {
      SumSplits(e, lo, mid, hi - 1);
    }
  }

  /** No sum over blocks can saturate, and what is defined up to a height is defined below it. */
  lemma SumFits(e: Emissions, lo: nat, mid: nat, hi: nat)
    requires Defined(e, hi) && mid <= hi
    ensures Defined(e, mid) && Sum(e, lo, mid) < U256_LIMIT
  {
    SumSplits(e, 0, mid, hi);
    if lo <= mid {
      SumSplits(e, 0, lo, mid);
    }
  }

  /** The curve's emissions are defined as far as the curve is: they telescope below its cap. */
  lemma CurveIsDefined(e: Emissions, curve: Curve, blockSecs: nat, hi: nat)
    requires curve.inflationCap < U256_LIMIT && (hi > 0 ==> EmissionDefined(curve, blockSecs, hi - 1))
    requires forall h :: 0 <= h < hi ==> e(h) == BlockEmission(curve, blockSecs, h)
    ensures Defined(e, hi) && Sum(e, 0, hi) == EmissionSum(curve, blockSecs, 0, hi)
  {
    CurveSum(e, curve, blockSecs, hi);
    if hi > 0 {
      EmissionTelescopes(curve, blockSecs, hi - 1);
    }
  }

  lemma {:induction false} CurveSum(e: Emissions, curve: Curve, blockSecs: nat, hi: nat)
    requires hi > 0 ==> EmissionDefined(curve, blockSecs, hi - 1)
    requires forall h :: 0 <= h < hi ==> e(h) == BlockEmission(curve, blockSecs, h)
    ensures Emits(e, hi) && Sum(e, 0, hi) == EmissionSum(curve, blockSecs, 0, hi)
  {
    if hi > 0 {
      CurveSum(e, curve, blockSecs, hi - 1);
      assert e(hi - 1) == BlockEmission(curve, blockSecs, hi - 1);
    }
  }

  function SatAdd(a: nat, b: nat): (r: nat)
    ensures a + b < U256_LIMIT ==> r == a + b
    ensures a + b >= U256_LIMIT ==> r == U256_LIMIT - 1
  {
    if a + b >= U256_LIMIT then U256_LIMIT - 1 else a + b
  }

  // ---- The state and its updates, as values ----

  /** The state file: the emission of the blocks up to `height`, as the last finished backfill left it. */
  datatype Saved = Saved(height: Option<nat>, value: nat)

  /** `persisted` is what this process read from the file at its start; `file` is what the file holds now. */
  datatype State = State(height: nat, total: nat, first: Option<nat>, ready: bool, persisted: Saved, file: Saved)

  /** `add_block_reward`: the first block fixes the backfill boundary, later ones must follow on. */
  function Added(s: State, height: nat, amount: nat): Option<State> {
    if s.first.None? && s.persisted.height.Some? && height <= s.persisted.height.value then None
    else if s.first.Some? && height != s.height + 1 then None
    else
      Some(s.(height := height, total := SatAdd(s.total, amount),
              first := if s.first.None? then Some(height) else s.first))
  }

  /** `rollback_reward`. */
  function RolledBack(s: State, target: nat, amount: nat): State {
    s.(total := SatSub(s.total, amount), height := target)
  }

  /** The block before the first migrated one. */
  function BeforeFirst(s: State): Option<nat> {
    if s.first.Some? && s.first.value > 0 then Some(s.first.value - 1) else None
  }

  /** `add_historical_sum_and_mark_ready`: the sum is saved and added; a second call does nothing. */
  function Backfilled(s: State, historical: nat): State {
    if s.ready then s
    else
      var value := SatAdd(s.persisted.value, historical);
      s.(total := SatAdd(s.total, value), ready := true, file := Saved(BeforeFirst(s), value))
  }

  /** A new process starts from the file alone. */
  function Restarted(s: State): State {
    State(0, 0, None, false, s.file, s.file)
  }

  class SupplyState {
    var state: State

    /** `new`: a missing or empty file counts as one that covers nothing. */
    constructor (file: Option<Saved>)
      ensures state == State(0, 0, None, false, state.file, state.file)
      ensures state.file == if file.Some? then file.value else Saved(None, 0)
    {
      var loaded := if file.Some? then file.value else Saved(None, 0);
      state := State(0, 0, None, false, loaded, loaded);
    }

    method AddBlockReward(height: nat, amount: nat) returns (ok: bool)
      modifies this
      ensures ok == Added(old(state), height, amount).Some?
      ensures state == if ok then Added(old(state), height, amount).value else old(state)
    {
      if state.first.None? && state.persisted.height.Some? && height <= state.persisted.height.value {
        return false;
      }
      if state.first.Some? && height != state.height + 1 {
        return false;
      }
      state := state.(height := height, total := SatAdd(state.total, amount),
                      first := if state.first.None? then Some(height) else state.first);
      return true;
    }

    method RollbackReward(target: nat, amount: nat)
      modifies this
      ensures state == RolledBack(old(state), target, amount)
    {
      state := state.(total := SatSub(state.total, amount), height := target);
    }

    method AddHistoricalSumAndMarkReady(historical: nat, saveFails: bool) returns (ok: bool)
      modifies this
      ensures ok <==> old(state).ready || !saveFails
      ensures state == if ok then Backfilled(old(state), historical) else old(state)
    {
      if state.ready {
        return true;
      }
      var value := SatAdd(state.persisted.value, historical);
      if saveFails {
        return false;
      }
      state := state.(total := SatAdd(state.total, value), ready := true, file := Saved(BeforeFirst(state), value));
      return true;
    }

    /**
     * `do_backfill`: sum the heights the persisted value does not cover, up to
     * the block before the first migration. `cancelled` answers the
     * cancellation check before each batch.
     */
    method Backfill(index: seq<Hash>, db: Store, e: Emissions, cancelled: nat -> bool, saveFails: bool)
      returns (r: BackfillOutcome)
      requires state.first.Some? && HeightsMatch(index, db)
      modifies this
      ensures r.StalePersisted? <==>
        old(state).persisted.height.Some? && old(state).persisted.height.value >= old(state).first.value
      ensures r.MissingBlock? ==>
        BackfillStart(old(state)) <= r.height < old(state).first.value && Missing(index, db, e, r.height)
      ensures r.Cancelled? ==>
        exists k: nat :: cancelled(k) && HasBatch(BackfillStart(old(state)), old(state).first.value - 1, k)
      ensures r.Completed? && old(state).first.value > 0 ==>
        forall k: nat :: HasBatch(BackfillStart(old(state)), old(state).first.value - 1, k) ==> !cancelled(k)
      ensures r.SaveFailed? ==> saveFails
      ensures !r.Completed? ==> state == old(state)
      ensures r.Completed? && Defined(e, old(state).first.value) ==>
        state == Backfilled(old(state), Sum(e, BackfillStart(old(state)), old(state).first.value))
    {
      var first := state.first.value;
      if state.persisted.height.Some? && state.persisted.height.value >= first {
        return StalePersisted;
      }
      var start := BackfillStart(state);
      var end := SatSub(first, 1);
      if start > end || first == 0 {
        var saved := AddHistoricalSumAndMarkReady(0, saveFails);
        return if saved then Completed else SaveFailed;
      }
      var outcome, sum := HistoricalSum(index, db, e, start, end, cancelled);
      if !outcome.Completed? {
        return outcome;
      }
      var saved := AddHistoricalSumAndMarkReady(sum, saveFails);
      return if saved then Completed else SaveFailed;
    }
  }

  datatype BackfillOutcome = Completed | Cancelled | StalePersisted | MissingBlock(height: nat) | SaveFailed

  const BATCH_SIZE: nat := 1_000

  function BackfillStart(s: State): nat {
    if s.persisted.height.None? then 0 else s.persisted.height.value + 1
  }

  /** The block at `h` is indexed, its header stored and its emission computable. */
  predicate Readable(index: seq<Hash>, db: Store, e: Emissions, h: nat) {
    h < |index| && index[h] in db && e(db[index[h]].height).Some?
  }

  /** The index ends below `h`, or the header there is gone, or the height has no emission. */
  ghost predicate Missing(index: seq<Hash>, db: Store, e: Emissions, h: nat) {
    |index| <= h || index[h] !in db || e(h).None?
  }

  ghost predicate HeightsMatch(index: seq<Hash>, db: Store) {
    forall h :: 0 <= h < |index| && index[h] in db ==> db[index[h]].height == h
  }

  /** `get_block_emissions_batch`: one emission per height, or the first unreadable height. */
  method EmissionsBatch(index: seq<Hash>, db: Store, e: Emissions, start: nat, end: nat)
    returns (r: Result<seq<nat>, nat>)
    requires start <= end && HeightsMatch(index, db)
    ensures r.Ok? ==> |r.value| == end - start + 1
    ensures r.Ok? ==> forall k :: 0 <= k < |r.value| ==> e(start + k) == Some(r.value[k])
    ensures r.Err? ==> start <= r.error <= end && Missing(index, db, e, r.error)
  {
    var out: seq<nat> := [];
    for k := 0 to end - start + 1
      invariant |out| == k
      invariant forall j :: 0 <= j < k ==> e(start + j) == Some(out[j])
    {
      if !Readable(index, db, e, start + k) {
        return Err(start + k);
      }
      out := out + [e(db[index[start + k]].height).value];
    }
    return Ok(out);
  }

  /** Add one batch to the running sum. */
  method AddBatch(sum: nat, batch: seq<nat>, ghost e: Emissions, ghost start: nat, ghost height: nat, ghost hi: nat)
    returns (r: nat)
    requires start <= height && height + |batch| <= hi
    requires forall k :: 0 <= k < |batch| ==> e(height + k) == Some(batch[k])
    requires Defined(e, hi) ==> sum == Sum(e, start, height)
    ensures Defined(e, hi) ==> r == Sum(e, start, height + |batch|)
  {
    r := sum;
    for k := 0 to |batch|
      invariant Defined(e, hi) ==> r == Sum(e, start, height + k)
    {
      if Defined(e, hi) {
        SumFits(e, start, height + k + 1, hi);
      }
      r := SatAdd(r, batch[k]);
    }
  }

  /** The range has a batch `k`, of the batch size or what is left. */
  ghost predicate HasBatch(start: nat, end: int, k: nat) {
    start + k * BATCH_SIZE <= end
  }

  /** The batch loop: every height of `[start, end]` is counted once. */
  method HistoricalSum(index: seq<Hash>, db: Store, e: Emissions, start: nat, end: nat, cancelled: nat -> bool)
    returns (r: BackfillOutcome, sum: nat)
    requires start <= end && HeightsMatch(index, db)
    ensures !r.StalePersisted? && !r.SaveFailed?
    ensures r.MissingBlock? ==> start <= r.height <= end && Missing(index, db, e, r.height)
    ensures r.Cancelled? ==> exists k: nat :: cancelled(k) && HasBatch(start, end, k)
    ensures r.Completed? ==> forall k: nat :: HasBatch(start, end, k) ==> !cancelled(k)
    ensures r.Completed? && Defined(e, end + 1) ==> sum == Sum(e, start, end + 1)
  {
    sum := 0;
    var height, batches := start, 0;
    while height <= end
      invariant start <= height <= end + 1
      invariant height == Min(start + batches * BATCH_SIZE, end + 1)
      invariant forall k: nat :: k < batches ==> !cancelled(k)
      invariant Defined(e, end + 1) ==> sum == Sum(e, start, height)
    {
      if cancelled(batches) {
        assert HasBatch(start, end, batches);
        return Cancelled, sum;
      }
      var batchEnd := if height + BATCH_SIZE - 1 < end then height + BATCH_SIZE - 1 else end;
      var batch := EmissionsBatch(index, db, e, height, batchEnd);
      if batch.Err? {
        return MissingBlock(batch.error), sum;
      }
      assert |batch.value| == batchEnd - height + 1;
      sum := AddBatch(sum, batch.value, e, start, height, end + 1);
      height := batchEnd + 1;
      batches := batches + 1;
    }
    return Completed, sum;
  }

  // ---- Runs ----

  /** What the backfill will still add once it finishes: nothing after it has. */
  ghost function Pending(s: State, e: Emissions, blocks: nat): nat
    requires Defined(e, blocks) && (s.first.Some? ==> Defined(e, s.first.value))
  {
    if s.ready then 0 else Sum(e, 0, if s.first.Some? then s.first.value else blocks)
  }

  /** A saved value is the emission of the heights it covers. */
  ghost predicate SavedSound(f: Saved, e: Emissions) {
    && (f.height.Some? ==> Defined(e, f.height.value + 1) && f.value == Sum(e, 0, f.height.value + 1))
    && (f.height.None? ==> f.value == 0)
  }

  /** The file is sound: as it was at the start, or with the blocks below the first migrated one once backfilled. */
  ghost predicate FileSound(s: State, e: Emissions) {
    && SavedSound(s.persisted, e) && (s.first.None? ==> !s.ready)
    && (s.first.Some? ==> Defined(e, s.first.value))
    && (s.first.Some? && s.persisted.height.Some? ==> s.persisted.height.value < s.first.value)
    && s.file == if s.ready then Saved(BeforeFirst(s), Sum(e, 0, s.first.value)) else s.persisted
  }

  /** Total plus pending backfill is the emission of all `blocks` indexed blocks. */
  ghost predicate OnTrack(s: State, e: Emissions, blocks: nat) {
    && Defined(e, blocks) && FileSound(s, e)
    && s.total + Pending(s, e, blocks) == Sum(e, 0, blocks)
    && (s.first.Some? ==> s.height + 1 == blocks)
  }

  lemma AddKeepsOnTrack(s: State, e: Emissions, blocks: nat)
    requires OnTrack(s, e, blocks) && Defined(e, blocks + 1)
    requires Added(s, blocks, e(blocks).value).Some?
    ensures OnTrack(Added(s, blocks, e(blocks).value).value, e, blocks + 1)
  {
    SumFits(e, 0, blocks, blocks + 1);
  }

  /** Once the first block has migrated, the reward of the next block is the only one accepted. */
  lemma AcceptsOnlyNext(s: State, e: Emissions, blocks: nat, height: nat, amount: nat)
    requires OnTrack(s, e, blocks) && s.first.Some?
    ensures Added(s, height, amount).Some? <==> height == blocks
  {
  }

  /**
   * A rollback keeps the total on track exactly when the backfill has finished,
   * or no migration has happened yet, or it stops at or above the block before
   * the first migrated one, or what lies between emits nothing: otherwise it
   * subtracts what was never added.
   */
  lemma RollbackOnTrackIff(s: State, e: Emissions, blocks: nat, target: nat)
    requires OnTrack(s, e, blocks) && target + 1 < blocks
    ensures Defined(e, target + 1)
    ensures OnTrack(RolledBack(s, target, Sum(e, target + 1, blocks)), e, target + 1) <==>
      s.ready || s.first.None? || s.first.value <= target + 1 || Sum(e, target + 1, s.first.value) == 0
  {
    SumSplits(e, 0, target + 1, blocks);
    SumFits(e, 0, target + 1, blocks);
    if !s.ready && s.first.Some? {
      var f := s.first.value;
      if f <= target + 1 {
        SumSplits(e, 0, f, target + 1);
        SumSplits(e, 0, f, blocks);
      } else {
        SumSplits(e, 0, target + 1, f);
      }
    }
  }

  /** Finishing the backfill makes the total the emission of all indexed blocks; finishing twice changes nothing. */
  lemma BackfillCompletesTotal(s: State, e: Emissions, blocks: nat)
    requires OnTrack(s, e, blocks) && s.first.Some?
    ensures var done := Backfilled(s, Sum(e, BackfillStart(s), s.first.value));
      && OnTrack(done, e, blocks) && done.ready && done.total == Sum(e, 0, blocks)
      && forall again :: Backfilled(done, again) == done
  {
    if !s.ready {
      SumSplits(e, 0, BackfillStart(s), s.first.value);
      SumFits(e, BackfillStart(s), s.first.value, s.first.value);
    }
  }

  /** What a migration adds, rolling it back takes away. */
  lemma RollbackUndoesAdd(s: State, e: Emissions, blocks: nat)
    requires OnTrack(s, e, blocks) && Defined(e, blocks + 1) && s.first.Some?
    ensures var added := Added(s, blocks, e(blocks).value);
      added.Some? && RolledBack(added.value, blocks - 1, Sum(e, blocks, blocks + 1)) == s
  {
    SumFits(e, 0, blocks, blocks + 1);
  }

  // ---- Restarts ----

  lemma SavedIsSound(s: State, e: Emissions)
    requires FileSound(s, e)
    ensures SavedSound(s.file, e)
  {
  }

  /**
   * A restart puts the total back on track whatever it was before, and with
   * whatever index it finds: only the file has to be sound.
   */
  lemma RestartRestoresTrack(s: State, e: Emissions, blocks: nat)
    requires FileSound(s, e) && Defined(e, blocks)
    ensures OnTrack(Restarted(s), e, blocks)
  {
    SavedIsSound(s, e);
  }

  /**
   * After a restart the next block's reward is accepted exactly when the index
   * still holds every block the file covers. Once a backfill has finished, that
   * is up to the block before the first migration of the old process.
   */
  lemma RestartAcceptsIff(s: State, e: Emissions, blocks: nat, amount: nat)
    requires FileSound(s, e)
    ensures Added(Restarted(s), blocks, amount).Some? <==> s.file.height.None? || s.file.height.value < blocks
    ensures s.ready ==> (Added(Restarted(s), blocks, amount).Some? <==> s.first.value <= blocks)
  {
  }

  /** Any update at all, on track or not: the rollback may take away any amount, down to any height. */
  datatype Update = Add(height: nat, amount: nat) | Subtract(target: nat, amount: nat) | Finish | Reload

  ghost predicate Updates(a: State, u: Update, b: State, e: Emissions) {
    match u
    case Add(height, amount) => Defined(e, height) && Added(a, height, amount) == Some(b)
    case Subtract(target, amount) => b == RolledBack(a, target, amount)
    case Finish =>
      a.first.Some? && Defined(e, a.first.value) && b == Backfilled(a, Sum(e, BackfillStart(a), a.first.value))
    case Reload => b == Restarted(a)
  }

  lemma BackfillKeepsFile(s: State, e: Emissions)
    requires FileSound(s, e) && s.first.Some?
    ensures FileSound(Backfilled(s, Sum(e, BackfillStart(s), s.first.value)), e)
  {
    if !s.ready {
      SumSplits(e, 0, BackfillStart(s), s.first.value);
      SumFits(e, BackfillStart(s), s.first.value, s.first.value);
    }
  }

  lemma UpdateKeepsFile(a: State, u: Update, b: State, e: Emissions)
    requires FileSound(a, e) && Updates(a, u, b, e)
    ensures FileSound(b, e)
  {
    match u
    case Add(height, amount) =>
    case Subtract(target, amount) =>
    case Finish => BackfillKeepsFile(a, e);
    case Reload => SavedIsSound(a, e);
  }

  ghost predicate UpdateAt(trace: seq<State>, updates: seq<Update>, e: Emissions, k: nat)
    requires |trace| == |updates| + 1 && k < |updates|
  {
    Updates(trace[k], updates[k], trace[k + 1], e)
  }

  ghost predicate UpdateRun(trace: seq<State>, updates: seq<Update>, e: Emissions) {
    |trace| == |updates| + 1 && forall k :: 0 <= k < |updates| ==> UpdateAt(trace, updates, e, k)
  }

  /**
   * However far off its total has gone, by rollbacks that subtract what was never
   * added or by anything else, the file stays sound and a restart repairs it.
   */
  lemma {:induction false} RestartRepairsEveryRun(trace: seq<State>, updates: seq<Update>, e: Emissions, k: nat,
                                                  blocks: nat)
    requires UpdateRun(trace, updates, e) && k < |trace| && FileSound(trace[0], e) && Defined(e, blocks)
    ensures FileSound(trace[k], e) && OnTrack(Restarted(trace[k]), e, blocks)
  {
    if k > 0 {
      RestartRepairsEveryRun(trace, updates, e, k - 1, blocks);
      assert UpdateAt(trace, updates, e, k - 1);
      UpdateKeepsFile(trace[k - 1], updates[k - 1], trace[k], e);
    }
    RestartRestoresTrack(trace[k], e, blocks);
  }

  datatype Step = Migrate | Rollback(target: nat) | FinishBackfill | Restart

  /** The supply state and the number of indexed blocks. */
  datatype Ledger = Ledger(state: State, blocks: nat)

  ghost predicate Legal(l: Ledger, step: Step, e: Emissions) {
    match step
    case Migrate => Defined(e, l.blocks + 1) && e(l.blocks).Some? && Added(l.state, l.blocks, e(l.blocks).value).Some?
    case Rollback(target) =>
      && target + 1 < l.blocks && Defined(e, l.blocks)
      && (l.state.ready || l.state.first.None? || l.state.first.value <= target + 1)
    case FinishBackfill => l.state.first.Some? && Defined(e, l.state.first.value)
    case Restart => true
  }

  ghost function Next(l: Ledger, step: Step, e: Emissions): Ledger
    requires Legal(l, step, e)
  {
    match step
    case Migrate => Ledger(Added(l.state, l.blocks, e(l.blocks).value).value, l.blocks + 1)
    case Rollback(target) => Ledger(RolledBack(l.state, target, Sum(e, target + 1, l.blocks)), target + 1)
    case FinishBackfill => l.(state := Backfilled(l.state, Sum(e, BackfillStart(l.state), l.state.first.value)))
    case Restart => l.(state := Restarted(l.state))
  }

  lemma StepKeepsOnTrack(l: Ledger, step: Step, e: Emissions)
    requires OnTrack(l.state, e, l.blocks) && Legal(l, step, e)
    ensures OnTrack(Next(l, step, e).state, e, Next(l, step, e).blocks)
  {
    var s := l.state;
    match step
    case Migrate => AddKeepsOnTrack(s, e, l.blocks);
    case Rollback(target) => RollbackOnTrackIff(s, e, l.blocks, target);
    case FinishBackfill => BackfillCompletesTotal(s, e, l.blocks);
    case Restart => RestartRestoresTrack(s, e, l.blocks);
  }

  ghost predicate LegalRun(l: Ledger, steps: seq<Step>, e: Emissions)
    decreases |steps|
  {
    steps != [] ==> Legal(l, steps[0], e) && LegalRun(Next(l, steps[0], e), steps[1..], e)
  }

  ghost function Run(l: Ledger, steps: seq<Step>, e: Emissions): Ledger
    requires LegalRun(l, steps, e)
    decreases |steps|
  {
    if steps == [] then l else Run(Next(l, steps[0], e), steps[1..], e)
  }

  /**
   * After every run of migrations, rollbacks and restarts, with the backfill
   * finishing anywhere in it, a ready total is the emission of the indexed blocks.
   */
  lemma {:induction false} TotalIsEmission(l: Ledger, steps: seq<Step>, e: Emissions)
    requires OnTrack(l.state, e, l.blocks) && LegalRun(l, steps, e)
    ensures OnTrack(Run(l, steps, e).state, e, Run(l, steps, e).blocks)
    ensures Run(l, steps, e).state.ready ==> Run(l, steps, e).state.total == Sum(e, 0, Run(l, steps, e).blocks)
    decreases |steps|
  {
    if steps != [] {
      StepKeepsOnTrack(l, steps[0], e);
      TotalIsEmission(Next(l, steps[0], e), steps[1..], e);
    }
  }

  /** And so it is what miners and treasury received for those blocks, in any mix of PoA kinds. */
  lemma TotalIsShares(l: Ledger, steps: seq<Step>, e: Emissions, curve: Curve, blockSecs: nat, delta: Option<Delta>,
                      blocks: seq<Mined>)
    requires OnTrack(l.state, e, l.blocks) && LegalRun(l, steps, e)
    requires Run(l, steps, e).state.ready && |blocks| == Run(l, steps, e).blocks
    requires AllSplit(curve, blockSecs, delta, blocks)
    requires forall h :: 0 <= h < |blocks| ==> e(h) == BlockEmission(curve, blockSecs, h)
    ensures Run(l, steps, e).state.total ==
      MinerTotal(curve, blockSecs, delta, blocks, |blocks|)
      + TreasuryTotal(curve, blockSecs, delta, blocks, |blocks|)
  {
    TotalIsEmission(l, steps, e);
    SharesAreEmission(curve, blockSecs, delta, blocks, |blocks|);
    CurveSum(e, curve, blockSecs, |blocks|);
  }

  // ---- A rollback that is not on track ----

  /** A curve that emits one unit per second for four seconds. */
  function ExampleDecay(t: nat): Option<nat> {
    Some(if t >= 4 then 0 else TOKEN_SCALE - t * 250_000_000_000_000_000)
  }

  function Example(h: nat): Option<nat> {
    BlockEmission(Curve(4, ExampleDecay), 1, h)
  }

  lemma ExampleSums()
    ensures Emits(Example, 4) && Sum(Example, 0, 1) == 0 && Sum(Example, 0, 3) == 2 && Sum(Example, 0, 4) == 3
    ensures Sum(Example, 1, 3) == 2 && Sum(Example, 1, 4) == 3
  {
    assert Example(0) == Some(0) && Example(1) == Some(1) && Example(2) == Some(1) && Example(3) == Some(1);
    assert Sum(Example, 0, 1) == 0 && Sum(Example, 0, 2) == 1 && Sum(Example, 0, 3) == 2;
    assert Sum(Example, 1, 2) == 1 && Sum(Example, 1, 3) == 2;
  }

  /**
   * First migration at height 3, backfill not finished, rollback to genesis:
   * the two blocks below the first migration are subtracted from a total that
   * never held them, and the backfill will still add them.
   */
  lemma RollbackBelowFirstMigration()
    ensures var s := State(3, 1, Some(3), false, Saved(None, 0), Saved(None, 0));
      && OnTrack(s, Example, 4) && !OnTrack(RolledBack(s, 0, Sum(Example, 1, 4)), Example, 1)
  {
    var s := State(3, 1, Some(3), false, Saved(None, 0), Saved(None, 0));
    ExampleSums();
    RollbackOnTrackIff(s, Example, 4, 0);
  }

  /**
   * First migration at height 3, backfill finished, rollback to genesis, restart:
   * every total on the way is right, and the reward of the next block is refused
   * all the same, because the file covers more than the index. The one at height
   * 3 is accepted again.
   */
  lemma RestartAfterDeepRollbackRefuses()
    ensures var s := State(3, 3, Some(3), true, Saved(None, 0), Saved(Some(2), 2));
      var cut := RolledBack(s, 0, Sum(Example, 1, 4));
      && OnTrack(s, Example, 4) && OnTrack(cut, Example, 1) && OnTrack(Restarted(cut), Example, 1)
      && Added(Restarted(cut), 1, 1) == None && Added(Restarted(cut), 3, 1).Some?
  {
    var s := State(3, 3, Some(3), true, Saved(None, 0), Saved(Some(2), 2));
    ExampleSums();
    RollbackOnTrackIff(s, Example, 4, 0);
    RestartRestoresTrack(RolledBack(s, 0, Sum(Example, 1, 4)), Example, 1);
  }
}
