// A partition rollback cut short. It clears storage offsets, truncates the index
// and corrects the supply, in that order and in three stores; this module says
// what a crash in between leaves, what a second rollback makes of it, and when
// there is a second rollback at all.

module RecoveryCrash {
  import opened RollbackRanges
  import opened BlockMigration

  /** A storage module's position and an offset in its partition. */
  type Place = (nat, nat)

  /** The index has a chunk for this offset. */
  ghost predicate Backed(index: seq<IndexItem>, modules: seq<Module>, perPartition: nat, m: nat, o: nat)
    requires index != []
  {
    && m < |modules| && o < perPartition && modules[m].assignment.Some?
    && var slot := modules[m].assignment.value;
       LedgerOffset(slot, perPartition, o) < TotalOf(index[|index| - 1].ledgers, slot.ledger)
  }

  /** The offsets that storage should have assigned under this index. */
  ghost function Places(index: seq<IndexItem>, modules: seq<Module>, perPartition: nat): set<Place>
    requires index != []
  {
    set m: nat, o: nat | m < |modules| && o < perPartition && Backed(index, modules, perPartition, m, o) :: (m, o)
  }

  ghost predicate Hit(calls: seq<Unassign>, m: nat, o: nat) {
    exists k :: 0 <= k < |calls| && Hits(calls[k], m, o) == 1
  }

  /** What is left assigned once the calls are done. */
  ghost function Cleared(held: set<Place>, calls: seq<Unassign>): set<Place> {
    set p | p in held && !Hit(calls, p.0, p.1)
  }

  /** The calls of a rollback to `fork`. */
  ghost function RollbackCalls(index: seq<IndexItem>, fork: nat, modules: seq<Module>, perPartition: nat): seq<Unassign>
    requires fork < |index| && perPartition > 0 && Proper(Ranges(index, fork, |index|))
  {
    Calls(modules, Ranges(index, fork, |index|), perPartition)
  }

  lemma {:induction false} HitIffCounted(calls: seq<Unassign>, m: nat, o: nat)
    ensures Hit(calls, m, o) <==> HitCount(calls, m, o) > 0
    decreases |calls|
  {
    if calls != [] {
      var rest, last := calls[..|calls| - 1], calls[|calls| - 1];
      HitIffCounted(rest, m, o);
      if Hit(rest, m, o) {
        var k :| 0 <= k < |rest| && Hits(rest[k], m, o) == 1;
        assert Hits(calls[k], m, o) == 1;
      }
      if Hit(calls, m, o) {
        var k :| 0 <= k < |calls| && Hits(calls[k], m, o) == 1;
        assert k < |rest| ==> Hits(rest[k], m, o) == 1;
      }
    }
  }

  lemma PrefixHitsLess(calls: seq<Unassign>, k: nat, m: nat, o: nat)
    requires k <= |calls|
    ensures Hit(calls[..k], m, o) ==> Hit(calls, m, o)
  {
    if Hit(calls[..k], m, o) {
      var j :| 0 <= j < k && Hits(calls[..k][j], m, o) == 1;
      assert Hits(calls[j], m, o) == 1;
    }
  }

  ghost predicate Rollable(index: seq<IndexItem>, fork: nat, perPartition: nat) {
    TotalsGrow(index) && fork < |index| && perPartition > 0 && Proper(Ranges(index, fork, |index|))
  }

  /** A place of the index is hit exactly when the cut index no longer backs it. */
  lemma HitIffOrphaned(index: seq<IndexItem>, fork: nat, modules: seq<Module>, perPartition: nat, m: nat, o: nat)
    requires Rollable(index, fork, perPartition) && m < |modules| && o < perPartition
    ensures Hit(RollbackCalls(index, fork, modules, perPartition), m, o) <==>
      Backed(index, modules, perPartition, m, o) && !Backed(index[..fork + 1], modules, perPartition, m, o)
  {
    RollbackUnassignsOrphansOnce(index, fork, modules, perPartition, m, o);
    HitIffCounted(RollbackCalls(index, fork, modules, perPartition), m, o);
  }

  /** What the cut index backs, the index backs. */
  lemma CutBacksLess(index: seq<IndexItem>, low: nat, fork: nat, modules: seq<Module>, perPartition: nat, m: nat,
                     o: nat)
    requires TotalsGrow(index) && low <= fork < |index| && Backed(index[..low + 1], modules, perPartition, m, o)
    ensures Backed(index[..fork + 1], modules, perPartition, m, o) && Backed(index, modules, perPartition, m, o)
  {
    assert GrowsBetween(index, low, fork) && GrowsBetween(index, fork, |index| - 1);
  }

  lemma PlaceIsBacked(index: seq<IndexItem>, modules: seq<Module>, perPartition: nat, p: Place)
    requires index != []
    ensures p in Places(index, modules, perPartition) <==> Backed(index, modules, perPartition, p.0, p.1)
  {
  }

  /** Storage that agrees with the index agrees with the cut index once every call is done. */
  lemma RollbackKeepsAgreement(index: seq<IndexItem>, fork: nat, modules: seq<Module>, perPartition: nat)
    requires Rollable(index, fork, perPartition)
    ensures Cleared(Places(index, modules, perPartition), RollbackCalls(index, fork, modules, perPartition)) ==
      Places(index[..fork + 1], modules, perPartition)
  {
    assert Cleared(Places(index, modules, perPartition), []) == Places(index, modules, perPartition);
    RerunAgreesIff(index, [], fork, modules, perPartition);
  }

  // ---- A crash before the truncation ----

  /** The calls a crash let through hit nothing that the index cut at `fork` backs. */
  ghost predicate Spares(done: seq<Unassign>, index: seq<IndexItem>, fork: nat, modules: seq<Module>, perPartition: nat)
    requires fork < |index|
  {
    forall p :: p in Places(index[..fork + 1], modules, perPartition) ==> !Hit(done, p.0, p.1)
  }

  /**
   * After some clears, a full rollback to any fork makes storage agree with the
   * index it cuts exactly when those clears hit nothing at or below that fork.
   */
  lemma RerunAgreesIff(index: seq<IndexItem>, done: seq<Unassign>, again: nat, modules: seq<Module>, perPartition: nat)
    requires Rollable(index, again, perPartition)
    ensures var left := Cleared(Places(index, modules, perPartition), done);
      Cleared(left, RollbackCalls(index, again, modules, perPartition)) ==
        Places(index[..again + 1], modules, perPartition)
      <==> Spares(done, index, again, modules, perPartition)
  {
    var all, low := Places(index, modules, perPartition), Places(index[..again + 1], modules, perPartition);
    var calls := RollbackCalls(index, again, modules, perPartition);
    var left := Cleared(Cleared(all, done), calls);
    forall p: Place ensures p in left <==> p in low && !Hit(done, p.0, p.1) {
      PlaceIsBacked(index, modules, perPartition, p);
      PlaceIsBacked(index[..again + 1], modules, perPartition, p);
      if p.0 < |modules| && p.1 < perPartition {
        HitIffOrphaned(index, again, modules, perPartition, p.0, p.1);
        if p in low {
          CutBacksLess(index, again, again, modules, perPartition, p.0, p.1);
        }
      }
    }
  }

  /** The first calls of a rollback spare everything at or below its fork. */
  lemma RollbackSpares(index: seq<IndexItem>, fork: nat, modules: seq<Module>, perPartition: nat, k: nat, low: nat)
    requires Rollable(index, fork, perPartition) && low <= fork
    requires k <= |RollbackCalls(index, fork, modules, perPartition)|
    ensures Spares(RollbackCalls(index, fork, modules, perPartition)[..k], index, low, modules, perPartition)
  {
    var calls := RollbackCalls(index, fork, modules, perPartition);
    forall p | p in Places(index[..low + 1], modules, perPartition) ensures !Hit(calls[..k], p.0, p.1) {
      PlaceIsBacked(index[..low + 1], modules, perPartition, p);
      CutBacksLess(index, low, fork, modules, perPartition, p.0, p.1);
      HitIffOrphaned(index, fork, modules, perPartition, p.0, p.1);
      PrefixHitsLess(calls, k, p.0, p.1);
    }
  }

  /**
   * A rollback that a crash stopped after `k` clears has lost nothing of the
   * canonical chain, and a second one, to the same fork or a lower one, ends
   * where an undisturbed rollback would.
   */
  lemma RerunRestores(index: seq<IndexItem>, fork: nat, modules: seq<Module>, perPartition: nat, k: nat, again: nat)
    requires Rollable(index, fork, perPartition) && again <= fork && Rollable(index, again, perPartition)
    requires k <= |RollbackCalls(index, fork, modules, perPartition)|
    ensures var left := Cleared(Places(index, modules, perPartition),
                                RollbackCalls(index, fork, modules, perPartition)[..k]);
      && Places(index[..fork + 1], modules, perPartition) <= left <= Places(index, modules, perPartition)
      && Cleared(left, RollbackCalls(index, again, modules, perPartition)) ==
        Places(index[..again + 1], modules, perPartition)
  {
    var done := RollbackCalls(index, fork, modules, perPartition)[..k];
    RollbackSpares(index, fork, modules, perPartition, k, again);
    RollbackSpares(index, fork, modules, perPartition, k, fork);
    RerunAgreesIff(index, done, again, modules, perPartition);
    forall p | p in Places(index[..fork + 1], modules, perPartition) ensures p in Places(index, modules, perPartition) {
      PlaceIsBacked(index[..fork + 1], modules, perPartition, p);
      CutBacksLess(index, fork, fork, modules, perPartition, p.0, p.1);
    }
  }

  /** Until then storage disagrees with the index, which is not cut yet, as soon as one clear is done. */
  lemma InterruptedAgreesIff(index: seq<IndexItem>, fork: nat, modules: seq<Module>, perPartition: nat, k: nat)
    requires Rollable(index, fork, perPartition) && k <= |RollbackCalls(index, fork, modules, perPartition)|
    ensures var left := Cleared(Places(index, modules, perPartition),
                                RollbackCalls(index, fork, modules, perPartition)[..k]);
      left == Places(index, modules, perPartition) <==> k == 0
  {
    var all, calls := Places(index, modules, perPartition), RollbackCalls(index, fork, modules, perPartition);
    if k > 0 {
      var c := calls[0];
      CallsHit(modules, Ranges(index, fork, |index|), perPartition, 0, 0);
      assert c == calls[..k][0] && Hits(c, c.owner, c.lo) == 1;
      assert Hit(calls[..k], c.owner, c.lo) && Hit(calls, c.owner, c.lo);
      HitIffOrphaned(index, fork, modules, perPartition, c.owner, c.lo);
      assert (c.owner, c.lo) in all;
    } else {
      assert calls[..0] == [];
    }
  }

  // ---- The service's own rollback ----

  /** The clears of a recovery, without the txs they carry. */
  ghost function Bare(calls: seq<RollbackCall>): (r: seq<Unassign>)
    ensures |r| == |calls| && forall k :: 0 <= k < |calls| ==> r[k] == calls[k].call
  {
    seq(|calls|, k requires 0 <= k < |calls| => calls[k].call)
  }

  /** What the service plans keeps storage in agreement with the index, before and after. */
  lemma PlannedRollbackKeepsAgreement(t: Tables, fork: nat, modules: seq<Module>, perPartition: nat,
                                      e: Supply.Emissions, cfg: MetadataAgreement.Config, plan: RecoveryPlan)
    requires Sound(t) && Plans(t, fork, modules, perPartition, e, cfg, plan) && plan.Roll? && TotalsGrow(t.index)
    ensures plan.after.index != []
    ensures Cleared(Places(t.index, modules, perPartition), Bare(plan.calls)) ==
      Places(plan.after.index, modules, perPartition)
  {
    assert Bare(plan.calls) == RollbackCalls(t.index, fork, modules, perPartition);
    RollbackKeepsAgreement(t.index, fork, modules, perPartition);
  }

  // ---- Whether a restart rolls back again ----

  /**
   * A restarted node sees the index as its chain. It repeats a rollback that was
   * due exactly when more than a migration depth of indexed blocks lies above the
   * fork; otherwise the same reorg passes as a shallow one.
   */
  lemma RestartRepeatsRollbackIff(n: MetadataAgreement.Node, fork: nat, cfg: MetadataAgreement.Config)
    requires MetadataAgreement.RollsBack(n, fork, cfg)
    ensures MetadataAgreement.RollsBack(MetadataAgreement.Next(n, MetadataAgreement.Restart, cfg), fork, cfg) <==>
      |n.index| > fork + 1 + cfg.migrationDepth
  {
  }

  /**
   * One orphaned indexed block under a migration depth of one: the rollback was
   * due, and is not due after a restart.
   */
  lemma RestartForgetsRollback()
    ensures var n, cfg := MetadataAgreement.ListingMigrated(), MetadataAgreement.EXAMPLE_CONFIG;
      var restarted := MetadataAgreement.Next(n, MetadataAgreement.Restart, cfg);
      && MetadataAgreement.RollsBack(n, 0, cfg) && !MetadataAgreement.Refused(n, 0, cfg)
      && !MetadataAgreement.RollsBack(restarted, 0, cfg) && restarted.index == n.index
  {
  }
}
