// The ledger shape validated blocks have, and the chunk totals of the block
// index over whole runs of migrations and rollbacks.

module IndexTotals {
  import opened Chain
  import opened RollbackRanges
  import opened BlockDiscovery
  import opened BlockMigration
  import opened MetadataAgreement

  /** `extract_data_ledgers`: two ledgers before Cascade, four once it is active, in this order. */
  function ShapeOf(cascade: bool): seq<DataLedger> {
    if cascade then [Publish, Submit, OneYear, ThirtyDay] else [Publish, Submit]
  }

  ghost predicate BlockShaped(b: SealedBlock, cascade: bool) {
    && |b.header.ledgers| == |ShapeOf(cascade)|
    && forall i :: 0 <= i < |b.header.ledgers| ==> b.header.ledgers[i].ledger == ShapeOf(cascade)[i]
  }

  /** An entry with four totals belongs to a block after the activation. */
  predicate AfterCascade(item: IndexItem) {
    |item.ledgers| == 4
  }

  ghost predicate ItemShaped(item: IndexItem) {
    var shape := ShapeOf(AfterCascade(item));
    |item.ledgers| == |shape| && forall i :: 0 <= i < |shape| ==> item.ledgers[i].ledger == shape[i]
  }

  /** A validated block is pushed on the tip; Cascade, once active on a branch, stays active. */
  ghost predicate PushStep(before: seq<IndexItem>, after: seq<IndexItem>, b: SealedBlock, cascade: bool,
                           chunkSize: nat)
  {
    && before != [] && chunkSize > 0 && |after| == |before| + 1 && after[..|before|] == before
    && BlockShaped(b, cascade) && (AfterCascade(before[|before| - 1]) ==> cascade)
    && Pushed(b, before[|before| - 1].ledgers, chunkSize, after[|before|].ledgers)
  }

  ghost predicate CutStep(before: seq<IndexItem>, after: seq<IndexItem>, fork: nat) {
    fork < |before| && after == before[..fork + 1]
  }

  ghost predicate IndexChange(before: seq<IndexItem>, after: seq<IndexItem>, chunkSize: nat) {
    || (exists b, cascade :: PushStep(before, after, b, cascade, chunkSize))
    || (exists fork :: CutStep(before, after, fork))
  }

  ghost predicate TotalsInv(index: seq<IndexItem>) {
    && index != [] && TotalsGrow(index) && ItemShaped(index[|index| - 1])
    && (forall h :: 0 <= h < |index| ==> ItemShaped(index[h]))
  }

  /** Distinct ledgers, and every ledger of the entry below: what the shape gives a push. */
  lemma ShapeKeepsLedgers(prev: IndexItem, b: SealedBlock, cascade: bool)
    requires ItemShaped(prev) && BlockShaped(b, cascade) && (AfterCascade(prev) ==> cascade)
    ensures DistinctLedgers(b.header) && KeepsLedgers(b, prev.ledgers)
  {
    forall ledger | TotalOf(prev.ledgers, ledger) > 0 ensures ListsLedger(b, ledger) {
      if forall k :: 0 <= k < |prev.ledgers| ==> prev.ledgers[k].ledger != ledger {
        AbsentIsZero(prev.ledgers, ledger);
      }
      var k :| 0 <= k < |prev.ledgers| && prev.ledgers[k].ledger == ledger;
      assert b.header.ledgers[k].ledger == ledger;
    }
  }

  lemma PushKeepsTotals(before: seq<IndexItem>, after: seq<IndexItem>, b: SealedBlock, cascade: bool, chunkSize: nat)
    requires TotalsInv(before) && PushStep(before, after, b, cascade, chunkSize)
    ensures TotalsInv(after)
  {
    var prev, item := before[|before| - 1], after[|before|];
    ShapeKeepsLedgers(prev, b, cascade);
    PushKeepsTotalsIff(before, b, chunkSize, item.ledgers);
    SameTotals(before + [IndexItem(b.header.hash, item.ledgers)], after);
    forall i | 0 <= i < |item.ledgers| ensures item.ledgers[i].ledger == ShapeOf(cascade)[i] {
      assert TotalAt(b, prev.ledgers, chunkSize, item.ledgers, i);
    }
    forall h | 0 <= h < |after| ensures ItemShaped(after[h]) {
      assert h < |before| ==> after[h] == before[h];
    }
  }

  /** Growth depends on the totals only. */
  lemma SameTotals(a: seq<IndexItem>, b: seq<IndexItem>)
    requires TotalsGrow(a) && |a| == |b| && forall h :: 0 <= h < |a| ==> a[h].ledgers == b[h].ledgers
    ensures TotalsGrow(b)
  {
    forall h | 0 <= h < |b| ensures DistinctAt(b, h) {
      assert DistinctAt(a, h);
    }
    forall g, h | 0 <= g <= h < |b| ensures GrowsBetween(b, g, h) {
      assert GrowsBetween(a, g, h);
    }
  }

  lemma CutKeepsTotals(before: seq<IndexItem>, after: seq<IndexItem>, fork: nat)
    requires TotalsInv(before) && CutStep(before, after, fork)
    ensures TotalsInv(after)
  {
    forall h | 0 <= h < |after| ensures DistinctAt(after, h) {
      assert DistinctAt(before, h);
    }
    forall g, h | 0 <= g <= h < |after| ensures GrowsBetween(after, g, h) {
      assert GrowsBetween(before, g, h);
    }
  }

  /** `trace` holds the indexes of a run of pushes and cuts. */
  ghost predicate IndexRun(trace: seq<seq<IndexItem>>, chunkSize: nat) {
    trace != [] && forall k :: 0 <= k < |trace| - 1 ==> ChangeAt(trace, chunkSize, k)
  }

  ghost predicate ChangeAt(trace: seq<seq<IndexItem>>, chunkSize: nat, k: nat)
    requires k + 1 < |trace|
  {
    IndexChange(trace[k], trace[k + 1], chunkSize)
  }

  /** Totals never shrink along the index, after every run that starts from a shaped genesis entry. */
  lemma {:induction false} TotalsGrowAfterEveryRun(trace: seq<seq<IndexItem>>, chunkSize: nat, k: nat)
    requires IndexRun(trace, chunkSize) && k < |trace| && |trace[0]| == 1 && ItemShaped(trace[0][0])
    ensures TotalsInv(trace[k])
  {
    if k == 0 {
      assert DistinctAt(trace[0], 0);
    } else {
      TotalsGrowAfterEveryRun(trace, chunkSize, k - 1);
      assert ChangeAt(trace, chunkSize, k - 1);
      var before, after := trace[k - 1], trace[k];
      if b, cascade :| PushStep(before, after, b, cascade, chunkSize) {
        PushKeepsTotals(before, after, b, cascade, chunkSize);
      } else {
        var fork :| CutStep(before, after, fork);
        CutKeepsTotals(before, after, fork);
      }
    }
  }

  /** So a rollback at any point of any run unassigns each orphaned offset once and no canonical one. */
  lemma RollbackAfterEveryRun(trace: seq<seq<IndexItem>>, chunkSize: nat, fork: nat, modules: seq<Module>,
                              perPartition: nat, m: nat, o: nat)
    requires IndexRun(trace, chunkSize) && |trace[0]| == 1 && ItemShaped(trace[0][0])
    requires fork < |trace[|trace| - 1]| && perPartition > 0 && m < |modules| && o < perPartition
    ensures var index := trace[|trace| - 1];
      && Proper(Ranges(index, fork, |index|))
      && var calls := Calls(modules, Ranges(index, fork, |index|), perPartition);
      && InPartition(calls, |modules|, perPartition)
      && HitCount(calls, m, o) == if Orphaned(index, fork, modules, m, perPartition, o) then 1 else 0
  {
    TotalsGrowAfterEveryRun(trace, chunkSize, |trace| - 1);
    RollbackUnassignsOrphansOnce(trace[|trace| - 1], fork, modules, perPartition, m, o);
  }

  /** The service's two index writes are such changes. */
  lemma PersistChangesIndex(t: Tables, b: SealedBlock, after: Tables, cascade: bool, cfg: Config, chunkSize: nat)
    requires Sound(t) && t.index != [] && chunkSize > 0 && Persisted(t, b, after, cfg, chunkSize)
    requires BlockShaped(b, cascade) && (AfterCascade(Tip(t)) ==> cascade)
    ensures IndexChange(t.index, after.index, chunkSize)
  {
    assert PushStep(t.index, after.index, b, cascade, chunkSize);
  }

  lemma CutChangesIndex(t: Tables, fork: nat, after: Tables, chunkSize: nat)
    requires Sound(t) && fork < |t.index| && Cut(t, fork, after)
    ensures IndexChange(t.index, after.index, chunkSize)
  {
    assert CutStep(t.index, after.index, fork);
  }
}
