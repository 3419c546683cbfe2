// Chunk accounting of the block index: the per-ledger totals a migrated block
// adds, and the partition rollback that unassigns exactly what orphaned blocks
// had added.

module RollbackRanges {
  import opened Chain
  import opened Outcome

  datatype LedgerTotal = LedgerTotal(ledger: DataLedger, total: nat)

  /** One block-index entry: cumulative chunk totals by ledger. */
  datatype IndexItem = IndexItem(hash: Hash, ledgers: seq<LedgerTotal>)

  /** Cumulative chunks of a ledger; zero before it is introduced. */
  function TotalOf(ledgers: seq<LedgerTotal>, ledger: DataLedger): nat {
    if ledgers == [] then 0
    else if ledgers[0].ledger == ledger then ledgers[0].total
    else TotalOf(ledgers[1..], ledger)
  }

  ghost predicate DistinctTotals(ledgers: seq<LedgerTotal>) {
    forall i, j :: 0 <= i < j < |ledgers| ==> Differ(ledgers, i, j)
  }

  ghost predicate Differ(ledgers: seq<LedgerTotal>, i: nat, j: nat)
    requires i < |ledgers| && j < |ledgers|
  {
    ledgers[i].ledger != ledgers[j].ledger
  }

  /** Any part of a list with distinct ledgers has distinct ledgers. */
  lemma DistinctPart(ledgers: seq<LedgerTotal>, lo: nat, hi: nat)
    requires DistinctTotals(ledgers) && lo <= hi <= |ledgers|
    ensures DistinctTotals(ledgers[lo..hi])
  {
    forall i, j | 0 <= i < j < hi - lo ensures Differ(ledgers[lo..hi], i, j) {
      assert Differ(ledgers, lo + i, lo + j);
    }
  }

  /** An inclusive range of ledger chunk offsets, with the height of the block that added it. */
  datatype ChunkRange = ChunkRange(ledger: DataLedger, lo: nat, hi: nat, height: nat)

  datatype Slot = Slot(ledger: DataLedger, position: nat)

  /** A storage module: the ledger slot it is assigned to, if any. */
  datatype Module = Module(assignment: Option<Slot>)

  /** One `rollback_unassigned_range` call: module position, inclusive partition offsets, and the orphan it is for. */
  datatype Unassign = Unassign(owner: nat, lo: nat, hi: nat, height: nat)

  // ---- Collecting the orphaned ranges ----

  /** Ranges one block added over the block below. */
  function BlockRanges(ledgers: seq<LedgerTotal>, prev: seq<LedgerTotal>, height: nat): seq<ChunkRange> {
    if ledgers == [] then []
    else
      var last := ledgers[|ledgers| - 1];
      var before := TotalOf(prev, last.ledger);
      BlockRanges(ledgers[..|ledgers| - 1], prev, height) + AddedRange(last, before, height)
  }

  /** Ranges of the blocks at heights `(fork, end)`. */
  function Ranges(index: seq<IndexItem>, fork: nat, end: nat): seq<ChunkRange>
    requires fork < end <= |index|
    decreases end
  {
    if end == fork + 1 then []
    else Ranges(index, fork, end - 1) + RangesAt(index, end - 1)
  }

  function RangesAt(index: seq<IndexItem>, h: nat): seq<ChunkRange>
    requires 0 < h < |index|
  {
    BlockRanges(index[h].ledgers, index[h - 1].ledgers, h)
  }

  method CollectBlock(ledgers: seq<LedgerTotal>, prev: seq<LedgerTotal>, height: nat) returns (r: seq<ChunkRange>)
    ensures r == BlockRanges(ledgers, prev, height) && Proper(r)
  {
    r := [];
    for k := 0 to |ledgers|
      invariant r == BlockRanges(ledgers[..k], prev, height) && Proper(r)
    {
      assert ledgers[..k + 1][..k] == ledgers[..k];
      var prevTotal := TotalOf(prev, ledgers[k].ledger);
      if ledgers[k].total > prevTotal {
        r := r + [ChunkRange(ledgers[k].ledger, prevTotal, ledgers[k].total - 1, height)];
      }
    }
    assert ledgers[..|ledgers|] == ledgers;
  }

  /** Phase one of the rollback. */
  method CollectRanges(index: seq<IndexItem>, fork: nat) returns (r: seq<ChunkRange>)
    requires fork < |index|
    ensures r == Ranges(index, fork, |index|) && Proper(r)
  {
    r := [];
    for h := fork + 1 to |index|
      invariant r == Ranges(index, fork, h) && Proper(r)
    {
      var added := CollectBlock(index[h].ledgers, index[h - 1].ledgers, h);
      r := r + added;
    }
  }

  // ---- Unassigning them ----

  /** Where a module's slot meets a range, as partition offsets. */
  function Clip(m: Module, r: ChunkRange, perPartition: nat): Option<(nat, nat)>
    requires perPartition > 0 && r.lo <= r.hi
  {
    if m.assignment.None? || m.assignment.value.ledger != r.ledger then None
    else
      var start := m.assignment.value.position * perPartition;
      var end := start + perPartition - 1;
      var lo := if r.lo < start then start else r.lo;
      var hi := if end < r.hi then end else r.hi;
      if lo <= hi then Some((lo - start, hi - start)) else None
  }

  function RangeCalls(modules: seq<Module>, r: ChunkRange, perPartition: nat): seq<Unassign>
    requires perPartition > 0 && r.lo <= r.hi
  {
    if modules == [] then []
    else
      RangeCalls(modules[..|modules| - 1], r, perPartition)
      + match Clip(modules[|modules| - 1], r, perPartition)
        case None => []
        case Some((lo, hi)) => [Unassign(|modules| - 1, lo, hi, r.height)]
  }

  ghost predicate Proper(ranges: seq<ChunkRange>) {
    forall k :: 0 <= k < |ranges| ==> ranges[k].lo <= ranges[k].hi
  }

  function Calls(modules: seq<Module>, ranges: seq<ChunkRange>, perPartition: nat): seq<Unassign>
    requires perPartition > 0 && Proper(ranges)
  {
    if ranges == [] then []
    else Calls(modules, ranges[..|ranges| - 1], perPartition) + RangeCalls(modules, ranges[|ranges| - 1], perPartition)
  }

  /** Phase two of the rollback: one call per module that overlaps a range, clipped to its slot. */
  method UnassignRanges(modules: seq<Module>, ranges: seq<ChunkRange>, perPartition: nat) returns (calls: seq<Unassign>)
    requires perPartition > 0 && Proper(ranges)
    ensures calls == Calls(modules, ranges, perPartition)
  {
    calls := [];
    for k := 0 to |ranges|
      invariant calls == Calls(modules, ranges[..k], perPartition)
    {
      assert ranges[..k + 1][..k] == ranges[..k];
      ghost var before := calls;
      for m := 0 to |modules|
        invariant calls == before + RangeCalls(modules[..m], ranges[k], perPartition)
      {
        assert modules[..m + 1][..m] == modules[..m];
        var overlap := Clip(modules[m], ranges[k], perPartition);
        if overlap.Some? {
          calls := calls + [Unassign(m, overlap.value.0, overlap.value.1, ranges[k].height)];
        }
      }
      assert modules[..|modules|] == modules;
    }
    assert ranges[..|ranges|] == ranges;
  }

  // ---- Exactly the orphaned chunks, exactly once ----

  function Covers(r: ChunkRange, ledger: DataLedger, x: nat): nat {
    if r.ledger == ledger && r.lo <= x <= r.hi then 1 else 0
  }

  /** How many ranges contain ledger offset `x`. */
  ghost function CoverCount(ranges: seq<ChunkRange>, ledger: DataLedger, x: nat): nat {
    if ranges == [] then 0
    else CoverCount(ranges[..|ranges| - 1], ledger, x) + Covers(ranges[|ranges| - 1], ledger, x)
  }

  lemma {:induction false} CoverConcat(a: seq<ChunkRange>, b: seq<ChunkRange>, ledger: DataLedger, x: nat)
    ensures CoverCount(a + b, ledger, x) == CoverCount(a, ledger, x) + CoverCount(b, ledger, x)
    decreases |b|
  {
    if b == [] {
      assert a + b == a;
    } else {
      assert (a + b)[..|a + b| - 1] == a + b[..|b| - 1];
      CoverConcat(a, b[..|b| - 1], ledger, x);
    }
  }

  lemma {:induction false} TotalOfSnoc(ledgers: seq<LedgerTotal>, last: LedgerTotal, ledger: DataLedger)
    requires forall k :: 0 <= k < |ledgers| ==> ledgers[k].ledger != last.ledger
    ensures TotalOf(ledgers + [last], ledger) == if last.ledger == ledger then last.total else TotalOf(ledgers, ledger)
    decreases |ledgers|
  {
    var all := ledgers + [last];
    if ledgers != [] {
      assert all[0] == ledgers[0];
      assert all[1..] == ledgers[1..] + [last];
      if ledgers[0].ledger != ledger {
        TotalOfSnoc(ledgers[1..], last, ledger);
      }
    }
  }

  lemma {:induction false} AbsentIsZero(ledgers: seq<LedgerTotal>, ledger: DataLedger)
    requires forall k :: 0 <= k < |ledgers| ==> ledgers[k].ledger != ledger
    ensures TotalOf(ledgers, ledger) == 0
  {
    if ledgers != [] {
      AbsentIsZero(ledgers[1..], ledger);
    }
  }

  /** The range one ledger of a block adds, if any. */
  function AddedRange(last: LedgerTotal, before: nat, height: nat): seq<ChunkRange> {
    if last.total > before then [ChunkRange(last.ledger, before, last.total - 1, height)] else []
  }

  lemma AddedRangeCovers(last: LedgerTotal, before: nat, height: nat, ledger: DataLedger, x: nat)
    ensures Proper(AddedRange(last, before, height))
    ensures CoverCount(AddedRange(last, before, height), ledger, x) ==
      if last.ledger == ledger && before <= x < last.total then 1 else 0
  {
    if last.total > before {
      assert AddedRange(last, before, height)[..0] == [];
    }
  }

  /** One block's ranges cover exactly what it added. */
  lemma {:induction false} BlockCovers(ledgers: seq<LedgerTotal>, prev: seq<LedgerTotal>, height: nat,
                                       ledger: DataLedger, x: nat)
    requires DistinctTotals(ledgers)
    ensures Proper(BlockRanges(ledgers, prev, height))
    ensures CoverCount(BlockRanges(ledgers, prev, height), ledger, x) ==
      if TotalOf(prev, ledger) <= x < TotalOf(ledgers, ledger) then 1 else 0
    decreases |ledgers|
  {
    if ledgers != [] {
      var rest, last := ledgers[..|ledgers| - 1], ledgers[|ledgers| - 1];
      DistinctPart(ledgers, 0, |ledgers| - 1);
      BlockCovers(rest, prev, height, ledger, x);
      BlockTotal(ledgers, ledger);
      LedgerJoins(BlockRanges(rest, prev, height), last, TotalOf(prev, last.ledger), height, ledger, x);
    }
  }

  /** The ranges of one more ledger. */
  lemma LedgerJoins(ranges: seq<ChunkRange>, last: LedgerTotal, before: nat, height: nat, ledger: DataLedger, x: nat)
    requires Proper(ranges)
    ensures Proper(ranges + AddedRange(last, before, height))
    ensures CoverCount(ranges + AddedRange(last, before, height), ledger, x) ==
      CoverCount(ranges, ledger, x) + if last.ledger == ledger && before <= x < last.total then 1 else 0
  {
    AddedRangeCovers(last, before, height, ledger, x);
    CoverConcat(ranges, AddedRange(last, before, height), ledger, x);
  }

  lemma BlockTotal(ledgers: seq<LedgerTotal>, ledger: DataLedger)
    requires DistinctTotals(ledgers) && ledgers != []
    ensures var rest, last := ledgers[..|ledgers| - 1], ledgers[|ledgers| - 1];
      && TotalOf(ledgers, ledger) == (if last.ledger == ledger then last.total else TotalOf(rest, ledger))
      && (last.ledger == ledger ==> TotalOf(rest, ledger) == 0)
  {
    var rest, last := ledgers[..|ledgers| - 1], ledgers[|ledgers| - 1];
    assert ledgers == rest + [last];
    forall k | 0 <= k < |rest| ensures rest[k].ledger != last.ledger {
      assert Differ(ledgers, k, |rest|);
    }
    TotalOfSnoc(rest, last, ledger);
    if last.ledger == ledger {
      AbsentIsZero(rest, ledger);
    }
  }

  /** Totals never shrink along the index: no ledger, once used, is dropped from a block. */
  ghost predicate TotalsGrow(index: seq<IndexItem>) {
    && (forall h :: 0 <= h < |index| ==> DistinctAt(index, h))
    && (forall g, h :: 0 <= g <= h < |index| ==> GrowsBetween(index, g, h))
  }

  ghost predicate DistinctAt(index: seq<IndexItem>, h: nat)
    requires h < |index|
  {
    DistinctTotals(index[h].ledgers)
  }

  ghost predicate GrowsBetween(index: seq<IndexItem>, g: nat, h: nat)
    requires g < |index| && h < |index|
  {
    forall ledger :: TotalOf(index[g].ledgers, ledger) <= TotalOf(index[h].ledgers, ledger)
  }

  /** Ranges that cover `[a, b)` once, followed by ranges that cover `[b, c)` once. */
  lemma TilesJoin(lower: seq<ChunkRange>, upper: seq<ChunkRange>, ledger: DataLedger, x: nat, a: nat, b: nat, c: nat)
    requires Proper(lower) && Proper(upper) && a <= b <= c
    requires CoverCount(lower, ledger, x) == if a <= x < b then 1 else 0
    requires CoverCount(upper, ledger, x) == if b <= x < c then 1 else 0
    ensures Proper(lower + upper) && CoverCount(lower + upper, ledger, x) == if a <= x < c then 1 else 0
  {
    CoverConcat(lower, upper, ledger, x);
  }

  /** The collected ranges tile `[total(fork), total(end - 1))`: each offset in it once, none outside. */
  lemma {:induction false} RangesTile(index: seq<IndexItem>, fork: nat, end: nat, ledger: DataLedger, x: nat)
    requires TotalsGrow(index) && fork < end <= |index|
    ensures Proper(Ranges(index, fork, end))
    ensures CoverCount(Ranges(index, fork, end), ledger, x) ==
      if TotalOf(index[fork].ledgers, ledger) <= x < TotalOf(index[end - 1].ledgers, ledger) then 1 else 0
    decreases end
  {
    if end > fork + 1 {
      var top, below := index[end - 1].ledgers, index[end - 2].ledgers;
      RangesTile(index, fork, end - 1, ledger, x);
      assert DistinctAt(index, end - 1);
      BlockCovers(top, below, end - 1, ledger, x);
      assert GrowsBetween(index, fork, end - 2) && GrowsBetween(index, end - 2, end - 1);
      TilesJoin(Ranges(index, fork, end - 1), RangesAt(index, end - 1), ledger, x,
                TotalOf(index[fork].ledgers, ledger), TotalOf(below, ledger), TotalOf(top, ledger));
    }
  }

  function Hits(c: Unassign, m: nat, o: nat): nat {
    if c.owner == m && c.lo <= o <= c.hi then 1 else 0
  }

  /** How many calls unassign partition offset `o` of module `m`. */
  ghost function HitCount(calls: seq<Unassign>, m: nat, o: nat): nat {
    if calls == [] then 0 else HitCount(calls[..|calls| - 1], m, o) + Hits(calls[|calls| - 1], m, o)
  }

  lemma {:induction false} HitConcat(a: seq<Unassign>, b: seq<Unassign>, m: nat, o: nat)
    ensures HitCount(a + b, m, o) == HitCount(a, m, o) + HitCount(b, m, o)
    decreases |b|
  {
    if b == [] {
      assert a + b == a;
    } else {
      assert (a + b)[..|a + b| - 1] == a + b[..|b| - 1];
      HitConcat(a, b[..|b| - 1], m, o);
    }
  }

  ghost predicate InPartition(calls: seq<Unassign>, count: nat, perPartition: nat) {
    forall k :: 0 <= k < |calls| ==> calls[k].owner < count && calls[k].lo <= calls[k].hi < perPartition
  }

  /** The module slot's ledger offset of partition offset `o`. */
  function LedgerOffset(slot: Slot, perPartition: nat, o: nat): nat {
    slot.position * perPartition + o
  }

  /** How often a range, clipped to module `m`, hits its offset `o`. */
  function ModuleCovers(modules: seq<Module>, m: nat, r: ChunkRange, perPartition: nat, o: nat): nat
    requires m < |modules|
  {
    if modules[m].assignment.None? then 0
    else
      var slot := modules[m].assignment.value;
      Covers(r, slot.ledger, LedgerOffset(slot, perPartition, o))
  }

  /** How many ranges hold the ledger offset behind offset `o` of module `m`. */
  ghost function ModuleCoverCount(modules: seq<Module>, m: nat, ranges: seq<ChunkRange>, perPartition: nat, o: nat): nat
    requires m < |modules|
  {
    if modules[m].assignment.None? then 0
    else
      var slot := modules[m].assignment.value;
      CoverCount(ranges, slot.ledger, LedgerOffset(slot, perPartition, o))
  }

  /** Clipping keeps exactly the offsets of the range that lie in the slot, relative to its start. */
  lemma ClipKeepsOffsets(modules: seq<Module>, m: nat, r: ChunkRange, perPartition: nat, o: nat)
    requires perPartition > 0 && r.lo <= r.hi && o < perPartition && m < |modules|
    ensures var clip := Clip(modules[m], r, perPartition);
      && (clip.Some? ==> clip.value.0 <= clip.value.1 < perPartition)
      && ModuleCovers(modules, m, r, perPartition, o) ==
           if clip.Some? && clip.value.0 <= o <= clip.value.1 then 1 else 0
  {
  }

  /** The calls of one more module. */
  function ModuleCalls(m: Module, position: nat, r: ChunkRange, perPartition: nat): seq<Unassign>
    requires perPartition > 0 && r.lo <= r.hi
  {
    var clip := Clip(m, r, perPartition);
    if clip.Some? then [Unassign(position, clip.value.0, clip.value.1, r.height)] else []
  }

  lemma RangeCallsSnoc(modules: seq<Module>, r: ChunkRange, perPartition: nat)
    requires perPartition > 0 && r.lo <= r.hi && modules != []
    ensures var k := |modules| - 1;
      RangeCalls(modules, r, perPartition) ==
        RangeCalls(modules[..k], r, perPartition) + ModuleCalls(modules[k], k, r, perPartition)
  {
  }

  lemma ModuleHits(modules: seq<Module>, k: nat, r: ChunkRange, perPartition: nat, m: nat, o: nat)
    requires perPartition > 0 && r.lo <= r.hi && o < perPartition && k < |modules|
    ensures HitCount(ModuleCalls(modules[k], k, r, perPartition), m, o) ==
      if m == k then ModuleCovers(modules, k, r, perPartition, o) else 0
    ensures InPartition(ModuleCalls(modules[k], k, r, perPartition), k + 1, perPartition)
  {
    ClipKeepsOffsets(modules, k, r, perPartition, o);
    var calls := ModuleCalls(modules[k], k, r, perPartition);
    if calls != [] {
      assert calls[..0] == [];
    }
  }

  lemma {:induction false} RangeHits(modules: seq<Module>, r: ChunkRange, perPartition: nat, m: nat, o: nat)
    requires perPartition > 0 && r.lo <= r.hi && o < perPartition
    ensures HitCount(RangeCalls(modules, r, perPartition), m, o) ==
      if m < |modules| then ModuleCovers(modules, m, r, perPartition, o) else 0
    ensures InPartition(RangeCalls(modules, r, perPartition), |modules|, perPartition)
    decreases |modules|
  {
    if modules != [] {
      var k := |modules| - 1;
      RangeHits(modules[..k], r, perPartition, m, o);
      assert m < k ==> modules[..k][m] == modules[m];
      RangeCallsSnoc(modules, r, perPartition);
      ModuleHits(modules, k, r, perPartition, m, o);
      HitConcat(RangeCalls(modules[..k], r, perPartition), ModuleCalls(modules[k], k, r, perPartition), m, o);
    }
  }

  lemma ModuleCoverSnoc(modules: seq<Module>, m: nat, ranges: seq<ChunkRange>, perPartition: nat, o: nat)
    requires m < |modules| && ranges != []
    ensures ModuleCoverCount(modules, m, ranges, perPartition, o) ==
      ModuleCoverCount(modules, m, ranges[..|ranges| - 1], perPartition, o)
      + ModuleCovers(modules, m, ranges[|ranges| - 1], perPartition, o)
  {
  }

  lemma {:induction false} CallsHit(modules: seq<Module>, ranges: seq<ChunkRange>, perPartition: nat, m: nat, o: nat)
    requires perPartition > 0 && Proper(ranges) && o < perPartition
    ensures InPartition(Calls(modules, ranges, perPartition), |modules|, perPartition)
    ensures m < |modules| ==>
      HitCount(Calls(modules, ranges, perPartition), m, o) == ModuleCoverCount(modules, m, ranges, perPartition, o)
    decreases |ranges|
  {
    if ranges != [] {
      var rest, last := ranges[..|ranges| - 1], ranges[|ranges| - 1];
      CallsHit(modules, rest, perPartition, m, o);
      RangeHits(modules, last, perPartition, m, o);
      if m < |modules| {
        ModuleCoverSnoc(modules, m, ranges, perPartition, o);
      }
      HitConcat(Calls(modules, rest, perPartition), RangeCalls(modules, last, perPartition), m, o);
    }
  }

  /** Offset `o` of module `m` holds a chunk that only orphaned blocks had added. */
  ghost predicate Orphaned(index: seq<IndexItem>, fork: nat, modules: seq<Module>, m: nat, perPartition: nat, o: nat)
    requires fork < |index| && m < |modules|
  {
    && modules[m].assignment.Some?
    && var slot := modules[m].assignment.value;
       TotalOf(index[fork].ledgers, slot.ledger) <= LedgerOffset(slot, perPartition, o)
         < TotalOf(index[|index| - 1].ledgers, slot.ledger)
  }

  /**
   * A rollback unassigns each orphaned offset of each module exactly once, at a
   * partition offset inside the partition, and touches no canonical offset.
   */
  lemma RollbackUnassignsOrphansOnce(index: seq<IndexItem>, fork: nat, modules: seq<Module>, perPartition: nat, m: nat,
                                     o: nat)
    requires TotalsGrow(index) && fork < |index| && perPartition > 0 && m < |modules| && o < perPartition
    ensures Proper(Ranges(index, fork, |index|))
    ensures var calls := Calls(modules, Ranges(index, fork, |index|), perPartition);
      && InPartition(calls, |modules|, perPartition)
      && HitCount(calls, m, o) == if Orphaned(index, fork, modules, m, perPartition, o) then 1 else 0
  {
    var ranges := Ranges(index, fork, |index|);
    if modules[m].assignment.Some? {
      var slot := modules[m].assignment.value;
      RangesTile(index, fork, |index|, slot.ledger, LedgerOffset(slot, perPartition, o));
    } else {
      RangesTile(index, fork, |index|, Submit, 0);
    }
    HitsAreCovers(modules, ranges, perPartition, m, o);
  }

  /** The calls hit an offset as often as the ranges cover it in the module's ledger. */
  lemma HitsAreCovers(modules: seq<Module>, ranges: seq<ChunkRange>, perPartition: nat, m: nat, o: nat)
    requires perPartition > 0 && Proper(ranges) && m < |modules| && o < perPartition
    ensures InPartition(Calls(modules, ranges, perPartition), |modules|, perPartition)
    ensures HitCount(Calls(modules, ranges, perPartition), m, o) ==
      if modules[m].assignment.None? then 0
      else CoverCount(ranges, modules[m].assignment.value.ledger,
                      LedgerOffset(modules[m].assignment.value, perPartition, o))
  {
    CallsHit(modules, ranges, perPartition, m, o);
  }

  // ---- Each call is for the block that added the chunks ----

  /** The range is what block `r.height` added to its ledger. */
  ghost predicate AddedBy(index: seq<IndexItem>, r: ChunkRange) {
    && 0 < r.height < |index|
    && r.lo == TotalOf(index[r.height - 1].ledgers, r.ledger) && r.hi + 1 == TotalOf(index[r.height].ledgers, r.ledger)
  }

  lemma {:induction false} BlockRangesAdded(ledgers: seq<LedgerTotal>, prev: seq<LedgerTotal>, height: nat, k: nat)
    requires DistinctTotals(ledgers) && k < |BlockRanges(ledgers, prev, height)|
    ensures var r := BlockRanges(ledgers, prev, height)[k];
      r.height == height && r.lo == TotalOf(prev, r.ledger) && r.hi + 1 == TotalOf(ledgers, r.ledger)
    decreases |ledgers|
  {
    var rest, last := ledgers[..|ledgers| - 1], ledgers[|ledgers| - 1];
    if k < |BlockRanges(rest, prev, height)| {
      DistinctPart(ledgers, 0, |ledgers| - 1);
      BlockRangesAdded(rest, prev, height, k);
      BlockTotal(ledgers, BlockRanges(rest, prev, height)[k].ledger);
    } else {
      BlockTotal(ledgers, last.ledger);
    }
  }

  lemma RangesAtAdded(index: seq<IndexItem>, h: nat, k: nat)
    requires TotalsGrow(index) && 0 < h < |index| && k < |RangesAt(index, h)|
    ensures AddedBy(index, RangesAt(index, h)[k]) && RangesAt(index, h)[k].height == h
  {
    assert DistinctAt(index, h);
    BlockRangesAdded(index[h].ledgers, index[h - 1].ledgers, h, k);
  }

  lemma {:induction false} RangesAdded(index: seq<IndexItem>, fork: nat, end: nat, k: nat)
    requires TotalsGrow(index) && fork < end <= |index| && k < |Ranges(index, fork, end)|
    ensures AddedBy(index, Ranges(index, fork, end)[k]) && fork < Ranges(index, fork, end)[k].height < end
    decreases end
  {
    var below := Ranges(index, fork, end - 1);
    assert Ranges(index, fork, end) == below + RangesAt(index, end - 1);
    if k < |below| {
      RangesAdded(index, fork, end - 1, k);
    } else {
      RangesAtAdded(index, end - 1, k - |below|);
    }
  }

  /** Every offset of the call lies, in its module's ledger, inside range `r`. */
  ghost predicate CallWithin(modules: seq<Module>, c: Unassign, r: ChunkRange, perPartition: nat) {
    && c.height == r.height && c.owner < |modules| && modules[c.owner].assignment.Some?
    && var slot := modules[c.owner].assignment.value;
    && slot.ledger == r.ledger
    && r.lo <= LedgerOffset(slot, perPartition, c.lo) && LedgerOffset(slot, perPartition, c.hi) <= r.hi
  }

  lemma {:induction false} RangeCallsWithin(modules: seq<Module>, r: ChunkRange, perPartition: nat, k: nat)
    requires perPartition > 0 && r.lo <= r.hi && k < |RangeCalls(modules, r, perPartition)|
    ensures CallWithin(modules, RangeCalls(modules, r, perPartition)[k], r, perPartition)
    decreases |modules|
  {
    var rest := modules[..|modules| - 1];
    RangeCallsSnoc(modules, r, perPartition);
    if k < |RangeCalls(rest, r, perPartition)| {
      RangeCallsWithin(rest, r, perPartition, k);
    }
  }

  lemma {:induction false} CallsWithin(modules: seq<Module>, ranges: seq<ChunkRange>, perPartition: nat, k: nat)
    returns (j: nat)
    requires perPartition > 0 && Proper(ranges) && k < |Calls(modules, ranges, perPartition)|
    ensures j < |ranges| && CallWithin(modules, Calls(modules, ranges, perPartition)[k], ranges[j], perPartition)
    decreases |ranges|
  {
    var rest, last := ranges[..|ranges| - 1], ranges[|ranges| - 1];
    var below := Calls(modules, rest, perPartition);
    if k < |below| {
      j := CallsWithin(modules, rest, perPartition, k);
    } else {
      j := |ranges| - 1;
      RangeCallsWithin(modules, last, perPartition, k - |below|);
    }
  }

  /** Each call of a rollback is for an orphaned block, and covers only chunks that block added. */
  lemma CallsNameTheirBlock(index: seq<IndexItem>, fork: nat, modules: seq<Module>, perPartition: nat, k: nat)
    requires TotalsGrow(index) && fork < |index| && perPartition > 0 && Proper(Ranges(index, fork, |index|))
    requires k < |Calls(modules, Ranges(index, fork, |index|), perPartition)|
    ensures var c := Calls(modules, Ranges(index, fork, |index|), perPartition)[k];
      && fork < c.height < |index| && c.owner < |modules| && modules[c.owner].assignment.Some?
      && var slot := modules[c.owner].assignment.value;
      && TotalOf(index[c.height - 1].ledgers, slot.ledger) <= LedgerOffset(slot, perPartition, c.lo)
      && LedgerOffset(slot, perPartition, c.hi) < TotalOf(index[c.height].ledgers, slot.ledger)
  {
    var ranges := Ranges(index, fork, |index|);
    var j := CallsWithin(modules, ranges, perPartition, k);
    RangesAdded(index, fork, |index|, j);
  }
}
