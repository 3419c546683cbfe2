// `BlockMigrationService`: collecting and persisting the blocks to migrate,
// clearing orphaned metadata, and the partition rollback, on in-place state.

module BlockMigration {
  import opened Chain
  import opened BlockDiscovery
  import opened MetadataRows
  import opened MetadataAgreement
  import opened CommitmentDedup
  import opened RollbackRanges
  import opened Supply
  import Finality
  import opened Outcome

  datatype DataTx = DataTx(id: TxId, size: nat)

  datatype LedgerTxs = LedgerTxs(ledger: DataLedger, txs: seq<DataTx>)

  /** A block with its data and commitment txs; a migrated block must still carry its PoA chunk. */
  datatype SealedBlock = SealedBlock(header: Header, body: seq<LedgerTxs>, commitments: seq<TxId>, hasPoaChunk: bool)

  datatype MigrationError =
    | EmptyIndex
    | NotInCache(hash: Hash)
    | Discontinuous
    | MissingPoaChunk
    | BodyMismatch
    | WriteFailed
    | SupplyFailed
    | SendFailed
    | EpochEventsFailed
    | BelowFinalized
    | Unreadable(height: nat)

  /** Where the environment fails while one block is migrated. */
  datatype Fault = NoFault | DatabaseFault | SendFault

  const U64_LIMIT: nat := 0x1_0000_0000_0000_0000

  function BodyTxs(body: seq<LedgerTxs>, ledger: DataLedger): seq<DataTx> {
    if body == [] then [] else if body[0].ledger == ledger then body[0].txs else BodyTxs(body[1..], ledger)
  }

  /** The first entry of a ledger is its list of txs, and an absent ledger has none. */
  lemma {:induction false} BodyTxsAre(body: seq<LedgerTxs>, ledger: DataLedger, k: nat)
    requires k <= |body| && forall j :: 0 <= j < k ==> body[j].ledger != ledger
    ensures k == |body| ==> BodyTxs(body, ledger) == []
    ensures k < |body| && body[k].ledger == ledger ==> BodyTxs(body, ledger) == body[k].txs
    decreases |body|
  {
    if k > 0 {
      BodyTxsAre(body[1..], ledger, k - 1);
    }
  }

  function TxIds(txs: seq<DataTx>): (r: seq<TxId>)
    ensures |r| == |txs| && forall i :: 0 <= i < |r| ==> r[i] == txs[i].id
  {
    seq(|txs|, i requires 0 <= i < |txs| => txs[i].id)
  }

  /** `ensure_header_body_consistent`: sorted id lists agree in every data ledger. */
  predicate BodyConsistent(b: SealedBlock) {
    && multiset(LedgerTxIds(b.header.ledgers, Submit)) == multiset(TxIds(BodyTxs(b.body, Submit)))
    && multiset(LedgerTxIds(b.header.ledgers, Publish)) == multiset(TxIds(BodyTxs(b.body, Publish)))
    && multiset(LedgerTxIds(b.header.ledgers, OneYear)) == multiset(TxIds(BodyTxs(b.body, OneYear)))
    && multiset(LedgerTxIds(b.header.ledgers, ThirtyDay)) == multiset(TxIds(BodyTxs(b.body, ThirtyDay)))
  }

  /** Said of every ledger at once: header and body list the same txs, in whatever order. */
  lemma ConsistentIff(b: SealedBlock)
    ensures BodyConsistent(b) <==> forall ledger :: SameTxs(b, ledger)
  {
    if BodyConsistent(b) {
      forall ledger ensures SameTxs(b, ledger) {
        match ledger
        case Submit =>
        case Publish =>
        case OneYear =>
        case ThirtyDay =>
      }
    } else {
      assert !SameTxs(b, Submit) || !SameTxs(b, Publish) || !SameTxs(b, OneYear) || !SameTxs(b, ThirtyDay);
    }
  }

  ghost predicate SameTxs(b: SealedBlock, ledger: DataLedger) {
    multiset(LedgerTxIds(b.header.ledgers, ledger)) == multiset(TxIds(BodyTxs(b.body, ledger)))
  }

  ghost predicate AllConsistent(blocks: seq<SealedBlock>) {
    forall k :: 0 <= k < |blocks| ==> BodyConsistent(blocks[k])
  }

  method CheckBodies(blocks: seq<SealedBlock>) returns (ok: bool)
    ensures ok <==> AllConsistent(blocks)
  {
    for k := 0 to |blocks|
      invariant forall j :: 0 <= j < k ==> BodyConsistent(blocks[j])
    {
      if !BodyConsistent(blocks[k]) {
        return false;
      }
    }
    return true;
  }

  // ---- Index totals ----

  function ChunksOf(size: nat, chunkSize: nat): nat
    requires chunkSize > 0
  {
    (size + chunkSize - 1) / chunkSize
  }

  /** Chunks a ledger's txs take, each padded up to whole chunks. */
  function ChunksAdded(txs: seq<DataTx>, chunkSize: nat): nat
    requires chunkSize > 0
  {
    if txs == [] then 0
    else ChunksAdded(txs[..|txs| - 1], chunkSize) + ChunksOf(txs[|txs| - 1].size, chunkSize)
  }

  /** Whole chunks that hold `size` bytes, with less than one chunk of padding. */
  ghost predicate Holds(chunks: nat, size: nat, chunkSize: nat) {
    size <= chunks * chunkSize < size + chunkSize
  }

  lemma ChunksSnoc(txs: seq<DataTx>, chunkSize: nat, k: nat)
    requires chunkSize > 0 && k < |txs|
    ensures ChunksAdded(txs[..k + 1], chunkSize) == ChunksAdded(txs[..k], chunkSize) + ChunksOf(txs[k].size, chunkSize)
  {
    assert txs[..k + 1][..k] == txs[..k];
  }

  lemma {:induction false} ChunksGrow(txs: seq<DataTx>, chunkSize: nat, k: nat)
    requires chunkSize > 0 && k <= |txs|
    ensures ChunksAdded(txs[..k], chunkSize) <= ChunksAdded(txs, chunkSize)
    decreases |txs| - k
  {
    if k < |txs| {
      ChunksSnoc(txs, chunkSize, k);
      ChunksGrow(txs, chunkSize, k + 1);
    } else {
      assert txs[..k] == txs;
    }
  }

  /**
   * The txs lie behind one another: tx `k` starts where the ones before it end,
   * and takes just the whole chunks that hold its bytes.
   */
  lemma TxTakesItsChunks(txs: seq<DataTx>, chunkSize: nat, k: nat)
    requires chunkSize > 0 && k < |txs|
    ensures ChunksAdded(txs[..k], chunkSize) <= ChunksAdded(txs[..k + 1], chunkSize) <= ChunksAdded(txs, chunkSize)
    ensures Holds(ChunksAdded(txs[..k + 1], chunkSize) - ChunksAdded(txs[..k], chunkSize), txs[k].size, chunkSize)
  {
    ChunksSnoc(txs, chunkSize, k);
    ChunksGrow(txs, chunkSize, k + 1);
    RoundedUpHolds(txs[k].size, chunkSize);
  }

  lemma RoundedUpHolds(size: nat, chunkSize: nat)
    requires chunkSize > 0
    ensures Holds(ChunksOf(size, chunkSize), size, chunkSize)
  {
    var chunks := (size + chunkSize - 1) / chunkSize;
    assert chunks * chunkSize == size + chunkSize - 1 - (size + chunkSize - 1) % chunkSize;
  }

  ghost function Bytes(txs: seq<DataTx>): nat {
    if txs == [] then 0 else Bytes(txs[..|txs| - 1]) + txs[|txs| - 1].size
  }

  ghost function NonEmpty(txs: seq<DataTx>): nat {
    if txs == [] then 0 else NonEmpty(txs[..|txs| - 1]) + if txs[|txs| - 1].size > 0 then 1 else 0
  }

  /**
   * Growth by `n` chunks for a list of txs: room for all their bytes, less than a
   * chunk of padding each, and at least one chunk for each that is not empty.
   */
  ghost predicate GrowsBy(n: nat, txs: seq<DataTx>, chunkSize: nat) {
    && Bytes(txs) <= n * chunkSize && NonEmpty(txs) <= n
    && (if txs == [] then n == 0 else n * chunkSize < Bytes(txs) + |txs| * chunkSize)
  }

  lemma {:induction false} ChunksHoldBytes(txs: seq<DataTx>, chunkSize: nat)
    requires chunkSize > 0
    ensures GrowsBy(ChunksAdded(txs, chunkSize), txs, chunkSize)
    decreases |txs|
  {
    if txs != [] {
      var rest, size := txs[..|txs| - 1], txs[|txs| - 1].size;
      ChunksHoldBytes(rest, chunkSize);
      RoundedUpHolds(size, chunkSize);
      GrowthAdds(ChunksAdded(rest, chunkSize), ChunksOf(size, chunkSize), chunkSize, |rest|);
    }
  }

  lemma GrowthAdds(a: nat, b: nat, chunkSize: nat, count: nat)
    ensures (a + b) * chunkSize == a * chunkSize + b * chunkSize
    ensures (count + 1) * chunkSize == count * chunkSize + chunkSize
  {
  }

  /** What a pushed block adds to the total of each ledger it lists, said of its txs' sizes. */
  lemma PushHoldsBytes(b: SealedBlock, prev: seq<LedgerTotal>, chunkSize: nat, totals: seq<LedgerTotal>, i: nat)
    requires chunkSize > 0 && Pushed(b, prev, chunkSize, totals) && i < |totals|
    ensures TotalOf(prev, totals[i].ledger) <= totals[i].total && totals[i].ledger == b.header.ledgers[i].ledger
    ensures GrowsBy(totals[i].total - TotalOf(prev, totals[i].ledger), BodyTxs(b.body, totals[i].ledger), chunkSize)
  {
    assert TotalAt(b, prev, chunkSize, totals, i);
    ChunksHoldBytes(BodyTxs(b.body, totals[i].ledger), chunkSize);
  }

  /** `push_block` totals: each listed ledger's total grows by the block's chunks; overflow is refused. */
  method NewTotals(b: SealedBlock, prev: seq<LedgerTotal>, chunkSize: nat) returns (r: Option<seq<LedgerTotal>>)
    requires chunkSize > 0
    ensures r.Some? ==> Pushed(b, prev, chunkSize, r.value)
    ensures r.None? <==> exists i :: 0 <= i < |b.header.ledgers| && Overflows(b, prev, chunkSize, i)
  {
    var out: seq<LedgerTotal> := [];
    for k := 0 to |b.header.ledgers|
      invariant |out| == k
      invariant forall i :: 0 <= i < k ==> TotalAt(b, prev, chunkSize, out, i) && !Overflows(b, prev, chunkSize, i)
    {
      var ledger := b.header.ledgers[k].ledger;
      var total := TotalOf(prev, ledger) + ChunksAdded(BodyTxs(b.body, ledger), chunkSize);
      if total >= U64_LIMIT {
        assert Overflows(b, prev, chunkSize, k);
        return None;
      }
      var longer := out + [LedgerTotal(ledger, total)];
      assert forall i :: 0 <= i < k ==> TotalAt(b, prev, chunkSize, out, i) ==> TotalAt(b, prev, chunkSize, longer, i);
      out := longer;
    }
    return Some(out);
  }

  ghost predicate TotalAt(b: SealedBlock, prev: seq<LedgerTotal>, chunkSize: nat, totals: seq<LedgerTotal>, i: nat)
    requires chunkSize > 0 && i < |b.header.ledgers|
  {
    var ledger := b.header.ledgers[i].ledger;
    && i < |totals|
    && totals[i] == LedgerTotal(ledger, TotalOf(prev, ledger) + ChunksAdded(BodyTxs(b.body, ledger), chunkSize))
  }

  /** The totals of a pushed block: one per listed ledger, in header order. */
  ghost predicate Pushed(b: SealedBlock, prev: seq<LedgerTotal>, chunkSize: nat, totals: seq<LedgerTotal>)
    requires chunkSize > 0
  {
    |totals| == |b.header.ledgers| && forall i :: 0 <= i < |totals| ==> TotalAt(b, prev, chunkSize, totals, i)
  }

  ghost predicate Overflows(b: SealedBlock, prev: seq<LedgerTotal>, chunkSize: nat, i: nat)
    requires chunkSize > 0 && i < |b.header.ledgers|
  {
    var ledger := b.header.ledgers[i].ledger;
    TotalOf(prev, ledger) + ChunksAdded(BodyTxs(b.body, ledger), chunkSize) >= U64_LIMIT
  }

  /** A block lists every ledger that already holds chunks. */
  ghost predicate KeepsLedgers(b: SealedBlock, prev: seq<LedgerTotal>) {
    forall ledger :: TotalOf(prev, ledger) > 0 ==> ListsLedger(b, ledger)
  }

  ghost predicate ListsLedger(b: SealedBlock, ledger: DataLedger) {
    exists i :: 0 <= i < |b.header.ledgers| && b.header.ledgers[i].ledger == ledger
  }

  lemma {:induction false} TotalOfListed(totals: seq<LedgerTotal>, i: nat)
    requires DistinctTotals(totals) && i < |totals|
    ensures TotalOf(totals, totals[i].ledger) == totals[i].total
  {
    if i > 0 {
      assert Differ(totals, 0, i);
      DistinctPart(totals, 1, |totals|);
      assert totals[1..|totals|] == totals[1..];
      TotalOfListed(totals[1..], i - 1);
    }
  }

  /** A pushed block's total: the old one plus its chunks when listed, else zero. */
  lemma PushedTotal(b: SealedBlock, prev: seq<LedgerTotal>, chunkSize: nat, totals: seq<LedgerTotal>,
                    ledger: DataLedger)
    requires chunkSize > 0 && Pushed(b, prev, chunkSize, totals) && DistinctLedgers(b.header)
    ensures DistinctTotals(totals)
    ensures TotalOf(totals, ledger) ==
      if ListsLedger(b, ledger) then TotalOf(prev, ledger) + ChunksAdded(BodyTxs(b.body, ledger), chunkSize) else 0
  {
    forall i, j | 0 <= i < j < |totals| ensures Differ(totals, i, j) {
      assert TotalAt(b, prev, chunkSize, totals, i) && TotalAt(b, prev, chunkSize, totals, j);
    }
    if ListsLedger(b, ledger) {
      var i :| 0 <= i < |b.header.ledgers| && b.header.ledgers[i].ledger == ledger;
      assert TotalAt(b, prev, chunkSize, totals, i);
      TotalOfListed(totals, i);
    } else {
      forall k | 0 <= k < |totals| ensures totals[k].ledger != ledger {
        assert TotalAt(b, prev, chunkSize, totals, k);
      }
      AbsentIsZero(totals, ledger);
    }
  }

  /** Pushing a block keeps the totals growing exactly when it lists every ledger that holds chunks. */
  lemma PushKeepsTotalsIff(index: seq<IndexItem>, b: SealedBlock, chunkSize: nat, totals: seq<LedgerTotal>)
    requires chunkSize > 0 && index != [] && TotalsGrow(index) && DistinctLedgers(b.header)
    requires Pushed(b, index[|index| - 1].ledgers, chunkSize, totals)
    ensures TotalsGrow(index + [IndexItem(b.header.hash, totals)]) <==> KeepsLedgers(b, index[|index| - 1].ledgers)
  {
    var longer, prev, n := index + [IndexItem(b.header.hash, totals)], index[|index| - 1].ledgers, |index|;
    PushedTotal(b, prev, chunkSize, totals, Submit);
    forall ledger
      ensures TotalOf(totals, ledger) >= TotalOf(prev, ledger) <==>
        (TotalOf(prev, ledger) > 0 ==> ListsLedger(b, ledger))
    {
      PushedTotal(b, prev, chunkSize, totals, ledger);
    }
    assert longer[n - 1].ledgers == prev && longer[n].ledgers == totals;
    forall h | 0 <= h < |longer| ensures DistinctAt(longer, h) {
      assert h < n ==> DistinctAt(index, h);
    }
    if KeepsLedgers(b, prev) {
      forall g, h | 0 <= g <= h < |longer| ensures GrowsBetween(longer, g, h) {
        if g < n {
          assert GrowsBetween(index, g, n - 1) && (h < n ==> GrowsBetween(index, g, h));
        }
      }
    } else {
      var ledger :| TotalOf(prev, ledger) > 0 && !ListsLedger(b, ledger);
      assert TotalOf(longer[n].ledgers, ledger) < TotalOf(longer[n - 1].ledgers, ledger);
      assert !GrowsBetween(longer, n - 1, n);
    }
  }

  /** Why a block's transaction is not written. */
  ghost predicate Unwritable(b: SealedBlock, rows: DataRows, prev: seq<LedgerTotal>, chunkSize: nat,
                             databaseFails: bool)
    requires chunkSize > 0
  {
    || !BodyConsistent(b) || databaseFails
    || !(PublishIds(b.header.ledgers) <= rows.Keys + TermIds(b.header.ledgers))
    || exists i :: 0 <= i < |b.header.ledgers| && Overflows(b, prev, chunkSize, i)
  }

  // ---- The path to migrate ----

  type Cache = map<Hash, SealedBlock>

  /** Following parents inside the tree goes down one height at a time. */
  ghost predicate CacheDescends(cache: Cache) {
    forall h {:trigger CacheStep(cache, h)} :: h in cache ==> CacheStep(cache, h)
  }

  ghost predicate CacheStep(cache: Cache, h: Hash)
    requires h in cache
  {
    && cache[h].header.hash == h
    && (cache[h].header.prev in cache ==> cache[cache[h].header.prev].header.height + 1 == cache[h].header.height)
  }

  /** The parent path from just above `last` up to `target`, oldest first; `None` when the tree does not hold it. */
  ghost function ParentPath(cache: Cache, last: Hash, target: Hash): Option<seq<SealedBlock>>
    requires CacheDescends(cache)
    decreases if target in cache then cache[target].header.height + 1 else 0
  {
    if target == last then Some([])
    else if target !in cache then None
    else
      assert CacheStep(cache, target);
      match ParentPath(cache, last, cache[target].header.prev)
      case None => None
      case Some(path) => Some(path + [cache[target]])
  }

  /** Parent by parent inside the tree: from a child of `last` to the target. */
  ghost predicate LeadsTo(cache: Cache, last: Hash, target: Hash, path: seq<SealedBlock>) {
    && (forall i :: 0 <= i < |path| ==> LeadsAt(cache, last, path, i))
    && target == if path == [] then last else path[|path| - 1].header.hash
  }

  ghost predicate LeadsAt(cache: Cache, last: Hash, path: seq<SealedBlock>, i: nat)
    requires i < |path|
  {
    && path[i].header.hash != last && path[i].header.hash in cache && cache[path[i].header.hash] == path[i]
    && path[i].header.prev == if i == 0 then last else path[i - 1].header.hash
  }

  /** The parent path leads to the target, and it is the only one that does. */
  lemma {:induction false} ParentPathLeads(cache: Cache, last: Hash, target: Hash, path: seq<SealedBlock>)
    requires CacheDescends(cache)
    ensures ParentPath(cache, last, target) == Some(path) <==> LeadsTo(cache, last, target, path)
    decreases if target in cache then cache[target].header.height + 1 else 0
  {
    if target != last && target in cache {
      assert CacheStep(cache, target);
      var b := cache[target];
      if path != [] {
        var rest := path[..|path| - 1];
        ParentPathLeads(cache, last, b.header.prev, rest);
        LeadsSnoc(cache, last, target, path);
        SnocUnique(ParentPath(cache, last, b.header.prev), b, path);
      }
    } else if path != [] {
      assert LeadsTo(cache, last, target, path) ==> LeadsAt(cache, last, path, |path| - 1);
    }
  }

  lemma PathEnds(cache: Cache, last: Hash, target: Hash, path: seq<SealedBlock>)
    requires CacheDescends(cache) && ParentPath(cache, last, target) == Some(path)
    ensures target == if path == [] then last else path[|path| - 1].header.hash
  {
    ParentPathLeads(cache, last, target, path);
  }

  lemma SnocUnique(below: Option<seq<SealedBlock>>, b: SealedBlock, path: seq<SealedBlock>)
    requires path != []
    ensures below.Some? ==>
      (below.value + [b] == path <==> below.value == path[..|path| - 1] && b == path[|path| - 1])
  {
    assert path == path[..|path| - 1] + [path[|path| - 1]];
    if below.Some? {
      assert (below.value + [b])[..|below.value|] == below.value;
    }
  }

  lemma LeadsSnoc(cache: Cache, last: Hash, target: Hash, path: seq<SealedBlock>)
    requires path != [] && target != last && target in cache && cache[target].header.hash == target
    ensures LeadsTo(cache, last, target, path) <==>
      path[|path| - 1] == cache[target] && LeadsTo(cache, last, cache[target].header.prev, path[..|path| - 1])
  {
    var rest, n := path[..|path| - 1], |path| - 1;
    assert forall i :: 0 <= i < n ==> (LeadsAt(cache, last, path, i) <==> LeadsAt(cache, last, rest, i));
    assert LeadsTo(cache, last, target, path) ==> LeadsAt(cache, last, path, n);
    if path[n] == cache[target] && LeadsTo(cache, last, cache[target].header.prev, rest) {
      assert LeadsAt(cache, last, path, n);
    }
  }

  function Reverse(s: seq<SealedBlock>): (r: seq<SealedBlock>)
    ensures |r| == |s| && forall i :: 0 <= i < |s| ==> r[i] == s[|s| - 1 - i]
  {
    seq(|s|, i requires 0 <= i < |s| => s[|s| - 1 - i])
  }

  ghost function Prepend(path: Option<seq<SealedBlock>>, rest: seq<SealedBlock>): Option<seq<SealedBlock>> {
    match path
    case None => None
    case Some(p) => Some(p + rest)
  }

  /** Moving one block from the path below to the collected ones. */
  lemma PrependNext(below: Option<seq<SealedBlock>>, b: SealedBlock, collected: seq<SealedBlock>)
    ensures Prepend(below, Reverse(collected + [b])) ==
      Prepend(if below.None? then None else Some(below.value + [b]), Reverse(collected))
  {
    assert Reverse(collected + [b]) == [b] + Reverse(collected);
    if below.Some? {
      assert below.value + [b] + Reverse(collected) == below.value + ([b] + Reverse(collected));
    }
  }

  /** `get_blocks_to_migrate`: walk backward from the target to the index head, then reverse. */
  method CollectPath(cache: Cache, last: Hash, target: Hash) returns (r: Result<seq<SealedBlock>, MigrationError>)
    requires CacheDescends(cache)
    ensures r.Ok? <==> ParentPath(cache, last, target).Some?
    ensures r.Err? ==> r.error.NotInCache? && r.error.hash !in cache
    ensures r.Ok? ==> ParentPath(cache, last, target) == Some(r.value)
  {
    var collected: seq<SealedBlock> := [];
    var current := target;
    ghost var whole := ParentPath(cache, last, target);
    assert whole.Some? ==> whole.value + Reverse([]) == whole.value;
    while current != last
      invariant ParentPath(cache, last, target) == Prepend(ParentPath(cache, last, current), Reverse(collected))
      decreases if current in cache then cache[current].header.height + 1 else 0
    {
      if current !in cache {
        return Err(NotInCache(current));
      }
      assert CacheStep(cache, current);
      var b := cache[current];
      PrependNext(ParentPath(cache, last, b.header.prev), b, collected);
      collected := collected + [b];
      current := b.header.prev;
    }
    assert [] + Reverse(collected) == Reverse(collected);
    return Ok(Reverse(collected));
  }

  /** Consecutive heights and parent hashes, starting on top of `tip` at `height`. */
  ghost predicate Continuous(tip: Hash, height: nat, blocks: seq<SealedBlock>) {
    forall i :: 0 <= i < |blocks| ==> FollowsOn(tip, height, blocks, i)
  }

  ghost predicate FollowsOn(tip: Hash, height: nat, blocks: seq<SealedBlock>, i: nat)
    requires i < |blocks|
  {
    && blocks[i].header.height == height + 1 + i
    && blocks[i].header.prev == if i == 0 then tip else blocks[i - 1].header.hash
  }

  /** `validate_migration_continuity`. */
  method ValidateContinuity(tip: Hash, height: nat, blocks: seq<SealedBlock>) returns (ok: bool)
    ensures ok <==> Continuous(tip, height, blocks)
  {
    for i := 0 to |blocks|
      invariant forall j :: 0 <= j < i ==> FollowsOn(tip, height, blocks, j)
    {
      assert i > 0 ==> FollowsOn(tip, height, blocks, i - 1);
      var header := blocks[i].header;
      if i == 0 {
        if height + 1 != header.height || tip != header.prev {
          assert !FollowsOn(tip, height, blocks, i);
          return false;
        }
      } else if header.height != blocks[i - 1].header.height + 1 || header.prev != blocks[i - 1].header.hash {
        assert !FollowsOn(tip, height, blocks, i);
        return false;
      }
    }
    return true;
  }

  function Headers(blocks: seq<SealedBlock>): (r: seq<Header>)
    ensures |r| == |blocks| && forall i :: 0 <= i < |r| ==> r[i] == blocks[i].header
  {
    seq(|blocks|, i requires 0 <= i < |blocks| => blocks[i].header)
  }

  function HashesOf(index: seq<IndexItem>): (r: seq<Hash>)
    ensures |r| == |index| && forall i :: 0 <= i < |r| ==> r[i] == index[i].hash
  {
    seq(|index|, i requires 0 <= i < |index| => index[i].hash)
  }

  /** What migrating a list of blocks leaves in the index and the rows. */
  ghost function MigrateMany(n: Node, blocks: seq<Header>, cfg: Config): Node {
    if blocks == [] then n
    else MigrateOne(MigrateMany(n, blocks[..|blocks| - 1], cfg), blocks[|blocks| - 1], cfg)
  }

  /** The supply after the rewards of `count` blocks from height `from` on, each added in turn. */
  ghost function Rewarded(s: State, from: nat, count: nat, e: Emissions): Option<State>
    decreases count
  {
    if count == 0 then Some(s)
    else
      match Rewarded(s, from, count - 1, e)
      case None => None
      case Some(before) =>
        if e(from + count - 1).None? then None else Added(before, from + count - 1, e(from + count - 1).value)
  }

  lemma RewardedNext(s: State, from: nat, count: nat, e: Emissions, mid: State, after: State)
    requires Rewarded(s, from, count, e) == Some(mid) && Paid(mid, from + count, e, after)
    ensures Rewarded(s, from, count + 1, e) == Some(after)
  {
  }

  /** The emission at `height` was added. */
  ghost predicate Paid(before: State, height: nat, e: Emissions, after: State) {
    e(height).Some? && Added(before, height, e(height).value) == Some(after)
  }

  ghost predicate AllEmit(e: Emissions, lo: nat, hi: nat) {
    forall h :: lo <= h < hi ==> e(h).Some?
  }

  /** The saturating sum of the emissions at `[lo, hi)`. */
  ghost function Folded(e: Emissions, lo: nat, hi: nat): nat
    requires AllEmit(e, lo, hi)
  {
    if hi <= lo then 0 else SatAdd(Folded(e, lo, hi - 1), e(hi - 1).value)
  }

  /** Where the emissions fit, the sum never saturates. */
  lemma {:induction false} FoldedIsSum(e: Emissions, lo: nat, hi: nat)
    requires lo <= hi && Defined(e, hi)
    ensures AllEmit(e, lo, hi) && Folded(e, lo, hi) == Sum(e, lo, hi)
    decreases hi
  {
    if lo < hi {
      SumFits(e, lo, hi - 1, hi);
      FoldedIsSum(e, lo, hi - 1);
      SumFits(e, lo, hi, hi);
    }
  }

  /** Headers of the blocks the two stores share are the same. */
  ghost predicate CollisionFree(cache: Cache, headers: Store) {
    forall h :: h in cache && h in headers ==> headers[h] == cache[h].header
  }

  // ---- The tables ----

  /**
   * Header table, block index, metadata rows, stored data tx headers and
   * commitment txs: what one database transaction replaces.
   */
  datatype Tables = Tables(headers: Store, index: seq<IndexItem>, rows: DataRows, commits: CommitRows,
                           txs: set<TxId>, commitmentTxs: set<TxId>)

  /** The index is a gap-free chain of stored headers, linked by hash. */
  ghost predicate Sound(t: Tables) {
    IndexLinked(t.headers, HashesOf(t.index))
  }

  /** The migrated blocks by height, and the metadata rows, as one node state. */
  ghost function Model(t: Tables): Node
    requires Sound(t)
  {
    Node([], IndexBlocks(t.headers, HashesOf(t.index)), t.rows, t.commits, None)
  }

  function Tip(t: Tables): IndexItem
    requires t.index != []
  {
    t.index[|t.index| - 1]
  }

  /** The block continues the index and agrees with any header stored under its hash. */
  ghost predicate Extends(t: Tables, b: Header) {
    && t.index != [] && b.height == |t.index| && b.prev == Tip(t).hash
    && (b.hash in t.headers ==> t.headers[b.hash] == b)
  }

  /** What the transaction of one block makes of the tables. */
  ghost predicate Persisted(t: Tables, b: SealedBlock, after: Tables, cfg: Config, chunkSize: nat)
    requires Sound(t) && t.index != [] && chunkSize > 0
  {
    && Sound(after) && Model(after) == MigrateOne(Model(t), b.header, cfg)
    && after.headers == t.headers[b.header.hash := b.header]
    && |after.index| == |t.index| + 1 && after.index[..|t.index|] == t.index
    && Tip(after).hash == b.header.hash && Pushed(b, Tip(t).ledgers, chunkSize, Tip(after).ledgers)
  }

  /** The txs the body holds for the ledgers the header lists. */
  ghost function BodyIds(b: SealedBlock): set<TxId> {
    BodyIdsOf(b, |b.header.ledgers|)
  }

  ghost function BodyIdsOf(b: SealedBlock, k: nat): set<TxId>
    requires k <= |b.header.ledgers|
  {
    if k == 0 then {} else BodyIdsOf(b, k - 1) + Ids(TxIds(BodyTxs(b.body, b.header.ledgers[k - 1].ledger)))
  }

  method InsertTxHeaders(txs: set<TxId>, b: SealedBlock) returns (r: set<TxId>)
    ensures r == txs + BodyIds(b)
  {
    r := txs;
    for k := 0 to |b.header.ledgers|
      invariant r == txs + BodyIdsOf(b, k)
    {
      r := r + Ids(TxIds(BodyTxs(b.body, b.header.ledgers[k].ledger)));
    }
  }

  /** The block's own txs were consistent with its header, and their headers are now stored. */
  ghost predicate BodyWritten(t: Tables, b: SealedBlock, after: Tables) {
    && BodyConsistent(b) && after.txs == t.txs + BodyIds(b)
    && after.commitmentTxs == t.commitmentTxs + Ids(b.commitments)
  }

  /** The writes of `persist_block`, staged: rows, header and index entry together. */
  method StageBlock(t: Tables, b: SealedBlock, databaseFails: bool, cfg: Config, chunkSize: nat)
    returns (r: Result<Tables, MigrationError>)
    requires Sound(t) && Extends(t, b.header) && chunkSize > 0
    ensures r.Err? <==> Unwritable(b, t.rows, Tip(t).ledgers, chunkSize, databaseFails)
    ensures r.Err? ==> r.error == if BodyConsistent(b) then WriteFailed else BodyMismatch
    ensures r.Ok? ==> Persisted(t, b, r.value, cfg, chunkSize) && BodyWritten(t, b, r.value)
  {
    if !BodyConsistent(b) {
      return Err(BodyMismatch);
    }
    var height := b.header.height;
    var written := WriteDataLedgerMetadata(t.rows, b.header.ledgers, height);
    if written.None? || databaseFails {
      return Err(WriteFailed);
    }
    var committed := t.commits;
    if b.header.commitments != [] && !IsNonGenesisEpoch(height, cfg.epochLength) {
      committed := BatchSetCommitIncluded(t.commits, b.header.commitments, height);
    }
    var txs := InsertTxHeaders(t.txs, b);
    var totals := NewTotals(b, Tip(t).ledgers, chunkSize);
    if totals.None? {
      return Err(WriteFailed);
    }
    assert committed == CommitsWritten(t.commits, OwnedCommitments(b.header, cfg.epochLength), height);
    var after := Tables(t.headers[b.header.hash := b.header], t.index + [IndexItem(b.header.hash, totals.value)],
                        written.value, committed, txs, t.commitmentTxs + Ids(b.commitments));
    IndexGrows(t.headers, HashesOf(t.index), b.header);
    assert HashesOf(after.index) == HashesOf(t.index) + [b.header.hash];
    return Ok(after);
  }

  /** Phase one of the recovery reads each orphan: its ledgers must be well formed and its emission known. */
  method ReadOrphans(t: Tables, e: Emissions, lo: nat) returns (r: Result<nat, nat>)
    requires Sound(t) && lo <= |t.index|
    ensures r.Err? ==> lo <= r.error < |t.index| && !OrphanReadable(t, e, r.error)
    ensures r.Ok? ==> forall h :: lo <= h < |t.index| ==> OrphanReadable(t, e, h)
    ensures r.Ok? ==> AllEmit(e, lo, |t.index|) && r.value == Folded(e, lo, |t.index|)
  {
    var sum := 0;
    for h := lo to |t.index|
      invariant forall g :: lo <= g < h ==> OrphanReadable(t, e, g)
      invariant AllEmit(e, lo, h) && sum == Folded(e, lo, h)
    {
      assert HashesOf(t.index)[h] in t.headers;
      if !OrphanReadable(t, e, h) {
        return Err(h);
      }
      sum := SatAdd(sum, e(h).value);
    }
    return Ok(sum);
  }

  predicate OrphanReadable(t: Tables, e: Emissions, h: nat) {
    h < |t.index| && t.index[h].hash in t.headers && DistinctLedgers(t.headers[t.index[h].hash]) && e(h).Some?
  }

  /** A clear of one module: the call, and the stored txs of the orphan, whose data roots it clears. */
  datatype RollbackCall = RollbackCall(call: Unassign, txs: set<TxId>)

  /** Stored txs among those a block lists. */
  function StoredTxs(t: Tables, h: nat): set<TxId> {
    if h < |t.index| && t.index[h].hash in t.headers then ListedTxs(t.headers[t.index[h].hash].ledgers) * t.txs else {}
  }

  function ListedTxs(ledgers: seq<LedgerEntry>): set<TxId> {
    if ledgers == [] then {} else ListedTxs(ledgers[..|ledgers| - 1]) + Ids(ledgers[|ledgers| - 1].txIds)
  }

  /** Every tx of the block, term or published. */
  lemma {:induction false} ListedTxsAre(ledgers: seq<LedgerEntry>)
    ensures ListedTxs(ledgers) == TermIds(ledgers) + PublishIds(ledgers)
    decreases |ledgers|
  {
    if ledgers != [] {
      var n := |ledgers| - 1;
      ListedTxsAre(ledgers[..n]);
      TermIdsSnoc(ledgers, n);
      assert ledgers[..n + 1] == ledgers;
    }
  }

  function WithTxs(t: Tables, calls: seq<Unassign>): (r: seq<RollbackCall>)
    ensures |r| == |calls|
    ensures forall k :: 0 <= k < |calls| ==> r[k] == RollbackCall(calls[k], StoredTxs(t, calls[k].height))
  {
    seq(|calls|, k requires 0 <= k < |calls| => RollbackCall(calls[k], StoredTxs(t, calls[k].height)))
  }

  /** The index cut at `fork`; nothing else changes. */
  ghost predicate Cut(t: Tables, fork: nat, after: Tables)
    requires Sound(t) && fork < |t.index|
  {
    after == t.(index := t.index[..fork + 1]) && Sound(after) && Model(after).index == Model(t).index[..fork + 1]
  }

  /** A recovery: the index cut, and one clear per module and orphaned range that overlap. */
  ghost predicate Recovered(t: Tables, fork: nat, modules: seq<Module>, perPartition: nat, after: Tables,
                            calls: seq<RollbackCall>)
    requires Sound(t)
  {
    && fork < |t.index| && perPartition > 0 && Cut(t, fork, after) && Proper(Ranges(t.index, fork, |t.index|))
    && calls == WithTxs(t, Calls(modules, Ranges(t.index, fork, |t.index|), perPartition))
  }

  /** The orphan at `h` lists a ledger twice, or its emission cannot be computed. */
  ghost predicate Broken(t: Tables, e: Emissions, h: nat)
    requires h < |t.index|
  {
    e(h).None? || (t.index[h].hash in t.headers && !DistinctLedgers(t.headers[t.index[h].hash]))
  }

  /** What a recovery decides before it writes anything. */
  datatype RecoveryPlan =
    | Nothing
    | Refuse(error: MigrationError)
    | Roll(after: Tables, calls: seq<RollbackCall>, amount: nat)

  /**
   * Nothing to do at or above the tip; refused exactly below the finalized height
   * or at an unreadable orphan; otherwise the cut, which is the rollback of the
   * finality machine, the clears, and the emission of the orphans.
   */
  ghost predicate Plans(t: Tables, fork: nat, modules: seq<Module>, perPartition: nat, e: Emissions, cfg: Config,
                        plan: RecoveryPlan)
    requires Sound(t)
  {
    var below := fork + 1 + SatSub(cfg.treeDepth, cfg.migrationDepth) < |t.index|;
    var stepped := Finality.Step1(HashesOf(t.index), Finality.RollBack(fork), cfg);
    match plan
    case Nothing => |t.index| <= fork + 1 && HashesOf(t.index) == stepped
    case Refuse(error) =>
      && fork + 1 < |t.index| && (error == BelowFinalized <==> below) && (below ==> HashesOf(t.index) == stepped)
      && (|| error == BelowFinalized
          || (error.Unreadable? && fork < error.height < |t.index| && Broken(t, e, error.height)))
    case Roll(after, calls, amount) =>
      && fork + 1 < |t.index| && !below
      && Recovered(t, fork, modules, perPartition, after, calls) && BodiesStored(after)
      && AllEmit(e, fork + 1, |t.index|) && amount == Folded(e, fork + 1, |t.index|)
      && HashesOf(after.index) == stepped
  }

  method PlanRecovery(t: Tables, fork: nat, modules: seq<Module>, perPartition: nat, e: Emissions, cfg: Config)
    returns (plan: RecoveryPlan)
    requires Sound(t) && BodiesStored(t) && perPartition > 0
    ensures Plans(t, fork, modules, perPartition, e, cfg, plan)
  {
    if |t.index| <= fork + 1 {
      return Nothing;
    }
    if fork < FinalizedHeight(|t.index| - 1, cfg.treeDepth, cfg.migrationDepth) {
      return Refuse(BelowFinalized);
    }
    var ranges := CollectRanges(t.index, fork);
    var amount := ReadOrphans(t, e, fork + 1);
    if amount.Err? {
      return Refuse(Unreadable(amount.error));
    }
    var calls := UnassignRanges(modules, ranges, perPartition);
    CutTables(t, fork, cfg);
    return Roll(t.(index := t.index[..fork + 1]), WithTxs(t, calls), amount.value);
  }

  // ---- The persist loop, on tables ----

  /** The tables after the first `k` blocks of a path that starts on `tip` at `height`. */
  ghost predicate Reached(t: Tables, start: Node, tip: Hash, height: nat, path: seq<SealedBlock>, k: nat, cfg: Config)
    requires k <= |path|
  {
    && Sound(t) && BodiesStored(t) && |t.index| == height + 1 + k
    && Tip(t).hash == (if k == 0 then tip else path[k - 1].header.hash)
    && Model(t) == MigrateMany(start, Headers(path)[..k], cfg)
  }

  lemma ReachedNext(t: Tables, after: Tables, start: Node, tip: Hash, height: nat, path: seq<SealedBlock>, k: nat,
                    cfg: Config, chunkSize: nat)
    requires k < |path| && Reached(t, start, tip, height, path, k, cfg) && FollowsOn(tip, height, path, k)
    requires chunkSize > 0 && Persisted(t, path[k], after, cfg, chunkSize) && BodiesStored(after)
    ensures Reached(after, start, tip, height, path, k + 1, cfg)
  {
    MigrateManySnoc(start, path, k, cfg);
  }

  /** Block `k` of the path continues it and is the cached block of its hash. */
  ghost predicate Planned(path: seq<SealedBlock>, cache: Cache, tip: Hash, height: nat, k: nat)
    requires k < |path|
  {
    FollowsOn(tip, height, path, k) && path[k].header.hash in cache && cache[path[k].header.hash] == path[k]
  }

  ghost predicate Plan(path: seq<SealedBlock>, cache: Cache, tip: Hash, height: nat) {
    forall k :: 0 <= k < |path| ==> Planned(path, cache, tip, height, k)
  }

  /** Why the block was not pushed, or why the run stopped after it: `t` and `s` are what the failure left. */
  ghost predicate Cause(b: SealedBlock, t: Tables, s: State, fault: Fault, error: MigrationError, e: Emissions,
                        chunkSize: nat)
    requires t.index != [] && chunkSize > 0
  {
    var height := b.header.height;
    match error
    case BodyMismatch => !BodyConsistent(b)
    case WriteFailed => Unwritable(b, t.rows, Tip(t).ledgers, chunkSize, fault == DatabaseFault)
    case SupplyFailed => e(height).None? || Added(s, height, e(height).value).None?
    case SendFailed => fault == SendFault
    case _ => false
  }

  /** The errors of the persist loop: the block they stop at, which is indexed or not, and their cause. */
  ghost predicate Stopped(path: seq<SealedBlock>, faults: nat -> Fault, done: nat, t: Tables, s: State,
                          error: MigrationError, e: Emissions, chunkSize: nat)
    requires t.index != [] && chunkSize > 0
  {
    var k := if error in {BodyMismatch, WriteFailed} then done else done - 1;
    0 <= k < |path| && Cause(path[k], t, s, faults(k), error, e, chunkSize)
  }

  /** The environment does not fail for any of the first `n` blocks. */
  ghost predicate NoneFails(faults: nat -> Fault, n: nat) {
    forall k :: 0 <= k < n ==> faults(k) == NoFault
  }

  lemma NoneFailsNext(faults: nat -> Fault, n: nat)
    requires NoneFails(faults, n) && faults(n) == NoFault
    ensures NoneFails(faults, n + 1)
  {
  }

  lemma StoppedHere(path: seq<SealedBlock>, faults: nat -> Fault, k: nat, pushed: bool, t: Tables, s: State,
                    error: MigrationError, e: Emissions, chunkSize: nat)
    requires t.index != [] && chunkSize > 0 && k < |path| && Cause(path[k], t, s, faults(k), error, e, chunkSize)
    requires pushed <==> error !in {BodyMismatch, WriteFailed}
    ensures Stopped(path, faults, if pushed then k + 1 else k, t, s, error, e, chunkSize)
  {
  }

  /** The migrated part of the parent path, after a run of `migrate_blocks` that stopped after `done` blocks. */
  ghost predicate Migrated(before: Tables, after: Tables, path: seq<SealedBlock>, done: nat, cfg: Config)
    requires Sound(before)
  {
    && done <= |path| && Sound(after) && |after.index| == |before.index| + done
    && Model(after) == MigrateMany(Model(before), Headers(path)[..done], cfg)
  }

  /**
   * Of `done` indexed blocks, how many have their reward added: the last one lacks
   * it when the supply update failed.
   */
  function PaidCount(r: Result<(), MigrationError>, done: nat): nat {
    if r == Err(SupplyFailed) then SatSub(done, 1) else done
  }

  /** The supply after one block's migration: its reward is added unless the block or the update failed. */
  ghost predicate Settled(before: State, height: nat, e: Emissions, r: Result<(), MigrationError>, pushed: bool,
                          after: State) {
    if pushed && r != Err(SupplyFailed) then Paid(before, height, e, after) else after == before
  }

  lemma SettledNext(s: State, from: nat, k: nat, e: Emissions, mid: State, r: Result<(), MigrationError>, pushed: bool,
                    after: State)
    requires Rewarded(s, from, k, e) == Some(mid) && Settled(mid, from + k, e, r, pushed, after)
    requires !pushed ==> r != Err(SupplyFailed)
    ensures Rewarded(s, from, PaidCount(r, if pushed then k + 1 else k), e) == Some(after)
  {
    if pushed && r != Err(SupplyFailed) {
      RewardedNext(s, from, k, e, mid, after);
    }
  }

  /** A rollback took the emission of the indexed blocks above the fork back; nothing else touched the supply. */
  ghost predicate SupplyFollows(before: State, fork: nat, indexed: nat, e: Emissions, rolledBack: bool, after: State) {
    if rolledBack then
      AllEmit(e, fork + 1, indexed) && after == RolledBack(before, fork, Folded(e, fork + 1, indexed))
    else
      after == before
  }

  class BlockMigrationService {
    const cfg: Config
    const chunkSize: nat
    const perPartition: nat
    /** `block_emission` of the service's curve. */
    const emission: Emissions
    const supply: SupplyState
    var db: Tables

    constructor (cfg: Config, chunkSize: nat, perPartition: nat, emission: Emissions, supply: SupplyState, db: Tables)
      requires chunkSize > 0 && perPartition > 0 && Sound(db) && BodiesStored(db)
      ensures Valid() && this.cfg == cfg && this.supply == supply && this.emission == emission && this.db == db
      ensures this.chunkSize == chunkSize && this.perPartition == perPartition
    {
      this.cfg := cfg;
      this.chunkSize := chunkSize;
      this.perPartition := perPartition;
      this.emission := emission;
      this.supply := supply;
      this.db := db;
    }

    ghost predicate Valid()
      reads this
    {
      chunkSize > 0 && perPartition > 0 && Sound(db) && BodiesStored(db)
    }

    /** `persist_block`: one transaction; an error leaves everything as it was. */
    method PersistBlock(b: SealedBlock, databaseFails: bool) returns (r: Result<(), MigrationError>)
      requires Valid() && Extends(db, b.header)
      modifies this
      ensures Valid()
      ensures r.Err? <==> Unwritable(b, old(db).rows, Tip(old(db)).ledgers, chunkSize, databaseFails)
      ensures r.Err? ==> db == old(db) && r.error == if BodyConsistent(b) then WriteFailed else BodyMismatch
      ensures r.Ok? ==> Persisted(old(db), b, db, cfg, chunkSize) && BodyWritten(old(db), b, db)
      ensures r.Ok? ==> HashesOf(db.index) == Finality.Step1(HashesOf(old(db).index), Finality.Push(b.header.hash), cfg)
    {
      var staged := StageBlock(db, b, databaseFails, cfg, chunkSize);
      if staged.Err? {
        return Err(staged.error);
      }
      PersistedIsPush(db, b, staged.value, cfg, chunkSize);
      PersistKeepsBodies(db, b, staged.value, cfg, chunkSize);
      db := staged.value;
      return Ok(());
    }

    /** `persist_metadata`, consensus part: clear the rows of orphaned blocks, ledger by ledger. */
    method PersistMetadata(orphans: seq<SealedBlock>, confirmed: seq<SealedBlock>, databaseFails: bool)
      returns (r: Result<(), MigrationError>)
      requires Valid()
      modifies this
      ensures Valid() && db.index == old(db).index && db.headers == old(db).headers
      ensures r.Err? <==> databaseFails || !AllConsistent(orphans + confirmed)
      ensures r.Err? ==> db == old(db)
      ensures r.Err? ==> r.error == if AllConsistent(orphans + confirmed) then WriteFailed else BodyMismatch
      ensures r.Ok? ==> Model(db) == ClearOrphans(Model(old(db)), Headers(orphans), cfg)
    {
      var ok := CheckBodies(orphans + confirmed);
      if !ok {
        return Err(BodyMismatch);
      }
      if databaseFails {
        return Err(WriteFailed);
      }
      var cleared, dropped := ClearAll(db.rows, db.commits, orphans, cfg.epochLength);
      db := db.(rows := cleared, commits := dropped);
      return Ok(());
    }

    /** The supply update after one block; its failure does not undo the index. */
    method AddReward(height: nat) returns (ok: bool)
      modifies supply
      ensures ok <==> emission(height).Some? && Added(old(supply.state), height, emission(height).value).Some?
      ensures supply.state ==
        if ok then Added(old(supply.state), height, emission(height).value).value else old(supply.state)
    {
      var amount := emission(height);
      if amount.None? {
        return false;
      }
      ok := supply.AddBlockReward(height, amount.value);
    }

    /**
     * `recover_from_network_partition`: unassign what the orphaned entries
     * added, cut the index at the fork and take their emission back. Refusals
     * and unreadable heights leave everything as it was.
     */
    method RecoverFromNetworkPartition(fork: nat, modules: seq<Module>)
      returns (r: Result<seq<RollbackCall>, MigrationError>, ghost plan: RecoveryPlan)
      requires Valid()
      modifies this, supply
      ensures Valid() && Plans(old(db), fork, modules, perPartition, emission, cfg, plan)
      ensures plan.Nothing? ==> r == Ok([])
      ensures plan.Refuse? ==> r == Err(plan.error)
      ensures !plan.Roll? ==> db == old(db) && supply.state == old(supply.state)
      ensures plan.Roll? ==>
        r == Ok(plan.calls) && db == plan.after && supply.state == RolledBack(old(supply.state), fork, plan.amount)
    {
      var planned := PlanRecovery(db, fork, modules, perPartition, emission, cfg);
      plan := planned;
      match planned
      case Nothing => r := Ok([]);
      case Refuse(error) => r := Err(error);
      case Roll(after, calls, amount) =>
        db := after;
        supply.RollbackReward(fork, amount);
        r := Ok(calls);
    }

    /**
     * The reorg path of the tip update: roll the index back when the old fork is
     * deeper than the migration depth, then clear the metadata of the old fork in
     * a transaction of its own. `n` is the node with its canonical chain.
     */
    method HandleReorg(fork: nat, oldFork: seq<SealedBlock>, newFork: seq<SealedBlock>, modules: seq<Module>,
                       epochEventsFail: bool, databaseFails: bool, ghost n: Node)
      returns (r: Result<(), MigrationError>)
      requires Valid() && n.pending.None? && Model(db) == n.(chain := [])
      requires fork < |n.chain| && n.chain[fork + 1..] == Headers(oldFork)
      modifies this, supply
      ensures Valid()
      ensures Refused(n, fork, cfg) <==> r == Err(BelowFinalized)
      ensures r.Err? && r.error.Unreadable? ==>
        RollsBack(n, fork, cfg) && fork < r.error.height < |old(db).index| && Broken(old(db), emission, r.error.height)
      ensures r == Err(EpochEventsFailed) ==> epochEventsFail
      ensures epochEventsFail && r != Err(EpochEventsFailed) ==>
        r.Err? && (r.error.BelowFinalized? || r.error.Unreadable?)
      ensures r == Err(BodyMismatch) ==> !AllConsistent(oldFork + newFork)
      ensures r == Err(WriteFailed) ==> databaseFails
      ensures r.Err? && (r.error.BelowFinalized? || r.error.Unreadable?) ==>
        db == old(db) && supply.state == old(supply.state)
      ensures r.Err? ==>
        r.error in {BelowFinalized, EpochEventsFailed, BodyMismatch, WriteFailed} || r.error.Unreadable?
      // The rollback stands and the clear is lost: the index is cut, the rows are not.
      ensures r.Err? && r.error in {EpochEventsFailed, BodyMismatch, WriteFailed} ==>
        MetadataAgreement.Next(n, MoveTip(fork, Headers(newFork)), cfg).(chain := [], pending := None) == Model(db)
      ensures r.Ok? ==> Reorged(n, fork, Headers(newFork), cfg).(chain := []) == Model(db)
      // The supply follows the index.
      ensures r.Ok? || r.error in {EpochEventsFailed, BodyMismatch, WriteFailed} ==>
        SupplyFollows(old(supply.state), fork, |old(db).index|, emission, RollsBack(n, fork, cfg), supply.state)
    {
      if |oldFork| > cfg.migrationDepth {
        var recovered, _ := RecoverFromNetworkPartition(fork, modules);
        if recovered.Err? {
          return Err(recovered.error);
        }
      }
      if epochEventsFail {
        return Err(EpochEventsFailed);
      }
      r := PersistMetadata(oldFork, newFork, databaseFails);
    }

    /**
     * `migrate_blocks`. Whatever fails and wherever, the tables end as the old
     * ones plus the first `done` blocks of the unique parent path from the index
     * tip to the target, and on success the whole path is migrated.
     */
    method MigrateBlocks(cache: Cache, target: Hash, faults: nat -> Fault)
      returns (r: Result<(), MigrationError>, ghost done: nat)
      requires Valid() && CacheDescends(cache) && CollisionFree(cache, db.headers)
      modifies this, supply
      ensures Valid()
      ensures old(db).index == [] ==> r == Err(EmptyIndex) && db == old(db) && supply.state == old(supply.state)
      ensures old(db).index != [] && ParentPath(cache, Tip(old(db)).hash, target).None? ==>
        r.Err? && r.error.NotInCache? && db == old(db) && supply.state == old(supply.state)
      ensures old(db).index != [] && ParentPath(cache, Tip(old(db)).hash, target).Some? ==>
        var path := ParentPath(cache, Tip(old(db)).hash, target).value;
        && Migrated(old(db), db, path, done, cfg)
        && (r.Ok? ==> done == |path| && NoneFails(faults, |path|))
        && (r.Ok? ==> forall k :: 0 <= k < |path| ==> path[k].hasPoaChunk)
        && (r == Err(Discontinuous) || r == Err(MissingPoaChunk) ==> db == old(db) && done == 0)
        && Rewarded(old(supply.state), |old(db).index|, PaidCount(r, done), emission) == Some(supply.state)
        && (r.Err? ==> || (r.error.Discontinuous? && !Continuous(Tip(old(db)).hash, |old(db).index| - 1, path))
                       || (r.error.MissingPoaChunk? && exists k :: 0 <= k < |path| && !path[k].hasPoaChunk)
                       || (&& db.index != []
                           && Stopped(path, faults, done, db, supply.state, r.error, emission, chunkSize)))
        && (r.Ok? ==> db.index != [] && Tip(db).hash == target)
    {
      done := 0;
      if db.index == [] {
        return Err(EmptyIndex), 0;
      }
      var tip := Tip(db);
      var collected := CollectPath(cache, tip.hash, target);
      if collected.Err? {
        return Err(collected.error), 0;
      }
      var path := collected.value;
      var ok := ValidateContinuity(tip.hash, |db.index| - 1, path);
      if !ok {
        return Err(Discontinuous), 0;
      }
      for k := 0 to |path|
        invariant forall j :: 0 <= j < k ==> path[j].hasPoaChunk
      {
        if !path[k].hasPoaChunk {
          return Err(MissingPoaChunk), 0;
        }
      }
      PathInCache(cache, tip.hash, target, path);
      PathEnds(cache, tip.hash, target, path);
      assert Plan(path, cache, tip.hash, |db.index| - 1);
      r, done := PersistPath(path, faults, cache, Model(db), tip.hash, |db.index| - 1);
    }

    /** One block of the persist loop: its transaction, then the supply and the chunk notification. */
    method MigrateBlock(b: SealedBlock, fault: Fault) returns (r: Result<(), MigrationError>, ghost pushed: bool)
      requires Valid() && Extends(db, b.header)
      modifies this, supply
      ensures Valid() && (r.Ok? ==> pushed && fault == NoFault)
      ensures !pushed ==> db == old(db) && r.Err?
      ensures pushed ==> Persisted(old(db), b, db, cfg, chunkSize)
      ensures Settled(old(supply.state), b.header.height, emission, r, pushed, supply.state)
      ensures r.Err? ==> (pushed <==> r.error !in {BodyMismatch, WriteFailed})
      ensures r.Err? ==> Cause(b, db, supply.state, fault, r.error, emission, chunkSize)
    {
      var persisted := PersistBlock(b, fault == DatabaseFault);
      if persisted.Err? {
        return persisted, false;
      }
      var added := AddReward(b.header.height);
      if !added {
        return Err(SupplyFailed), true;
      }
      if fault == SendFault {
        return Err(SendFailed), true;
      }
      return Ok(()), true;
    }

    /** One round of the persist loop, on the tables. */
    method PersistNext(path: seq<SealedBlock>, k: nat, fault: Fault, ghost cache: Cache, ghost start: Node,
                       ghost tip: Hash, ghost height: nat)
      returns (r: Result<(), MigrationError>, ghost pushed: bool)
      requires Valid() && k < |path| && Reached(db, start, tip, height, path, k, cfg)
      requires CollisionFree(cache, db.headers) && Planned(path, cache, tip, height, k)
      modifies this, supply
      ensures Valid() && CollisionFree(cache, db.headers) && (r.Ok? ==> pushed && fault == NoFault)
      ensures Reached(db, start, tip, height, path, if pushed then k + 1 else k, cfg)
      ensures Settled(old(supply.state), height + 1 + k, emission, r, pushed, supply.state)
      ensures !pushed ==> r.Err?
      ensures r.Err? ==> (pushed <==> r.error !in {BodyMismatch, WriteFailed})
      ensures r.Err? ==> Cause(path[k], db, supply.state, fault, r.error, emission, chunkSize)
    {
      ghost var before := db;
      r, pushed := MigrateBlock(path[k], fault);
      if pushed {
        ReachedNext(before, db, start, tip, height, path, k, cfg, chunkSize);
      }
    }

    /** One round of the persist loop, with the supply: `done` counts the blocks indexed after it. */
    method PersistRound(path: seq<SealedBlock>, k: nat, faults: nat -> Fault, ghost cache: Cache, ghost start: Node,
                        ghost tip: Hash, ghost height: nat, ghost first: State)
      returns (r: Result<(), MigrationError>, ghost done: nat)
      requires Valid() && k < |path| && Reached(db, start, tip, height, path, k, cfg)
      requires CollisionFree(cache, db.headers) && Planned(path, cache, tip, height, k)
      requires Rewarded(first, height + 1, k, emission) == Some(supply.state)
      modifies this, supply
      ensures Valid() && CollisionFree(cache, db.headers) && k <= done <= k + 1
      ensures r.Ok? ==> done == k + 1 && faults(k) == NoFault
      ensures Reached(db, start, tip, height, path, done, cfg)
      ensures Rewarded(first, height + 1, PaidCount(r, done), emission) == Some(supply.state)
      ensures r.Err? ==> Stopped(path, faults, done, db, supply.state, r.error, emission, chunkSize)
    {
      ghost var mid, pushed := supply.state, false;
      r, pushed := PersistNext(path, k, faults(k), cache, start, tip, height);
      done := if pushed then k + 1 else k;
      SettledNext(first, height + 1, k, emission, mid, r, pushed, supply.state);
      if r.Err? {
        StoppedHere(path, faults, k, pushed, db, supply.state, r.error, emission, chunkSize);
      }
    }

    /** The persist loop. */
    method PersistPath(path: seq<SealedBlock>, faults: nat -> Fault, ghost cache: Cache, ghost start: Node,
                       ghost tip: Hash, ghost height: nat)
      returns (r: Result<(), MigrationError>, ghost done: nat)
      requires Valid() && Reached(db, start, tip, height, path, 0, cfg)
      requires Plan(path, cache, tip, height) && CollisionFree(cache, db.headers)
      modifies this, supply
      ensures Valid() && done <= |path|
      ensures r.Ok? ==> done == |path| && NoneFails(faults, |path|)
      ensures Reached(db, start, tip, height, path, done, cfg)
      ensures Rewarded(old(supply.state), height + 1, PaidCount(r, done), emission) == Some(supply.state)
      ensures r.Err? ==> Stopped(path, faults, done, db, supply.state, r.error, emission, chunkSize)
    {
      ghost var first := supply.state;
      done := 0;
      for k := 0 to |path|
        invariant Reached(db, start, tip, height, path, k, cfg) && CollisionFree(cache, db.headers)
        invariant NoneFails(faults, k)
        invariant Rewarded(first, height + 1, k, emission) == Some(supply.state)
      {
        r, done := PersistRound(path, k, faults, cache, start, tip, height, first);
        if r.Err? {
          return;
        }
        NoneFailsNext(faults, k);
      }
      return Ok(()), |path|;
    }
  }

  lemma MigrateManySnoc(n: Node, path: seq<SealedBlock>, k: nat, cfg: Config)
    requires k < |path|
    ensures MigrateMany(n, Headers(path)[..k + 1], cfg) ==
      MigrateOne(MigrateMany(n, Headers(path)[..k], cfg), path[k].header, cfg)
  {
    assert Headers(path)[..k + 1][..k] == Headers(path)[..k];
  }

  /** Whatever part of a path was migrated, the rows still agree with the index. */
  lemma {:induction false} MigrateManyKeepsRows(n: Node, blocks: seq<Header>, cfg: Config)
    requires GoodChain(n.index + blocks, cfg) && Agrees(n, cfg)
    ensures MigrateMany(n, blocks, cfg).index == n.index + blocks && Agrees(MigrateMany(n, blocks, cfg), cfg)
    decreases |blocks|
  {
    if blocks == [] {
      assert n.index + blocks == n.index;
    } else {
      var rest, last, all := blocks[..|blocks| - 1], blocks[|blocks| - 1], n.index + blocks;
      assert all[..|all| - 1] == n.index + rest && all == n.index + rest + [last];
      PrefixUnique(all, |all| - 1, cfg.epochLength);
      assert forall i :: 0 <= i < |all| - 1 ==> (n.index + rest)[i] == all[i];
      MigrateManyKeepsRows(n, rest, cfg);
      var before := MigrateMany(n, rest, cfg);
      assert last == all[|all| - 1];
      MigrateKeepsRows(before.index, last, before.rows, before.commits, cfg.epochLength);
    }
  }

  /** Over rows with stale entries, every migrated listing still gets its row. */
  lemma {:induction false} MigrateManyCoversRows(n: Node, blocks: seq<Header>, cfg: Config)
    requires GoodChain(n.index + blocks, cfg) && RowsCover(n, cfg)
    ensures MigrateMany(n, blocks, cfg).index == n.index + blocks && RowsCover(MigrateMany(n, blocks, cfg), cfg)
    decreases |blocks|
  {
    if blocks == [] {
      assert n.index + blocks == n.index;
    } else {
      var rest, last, all := blocks[..|blocks| - 1], blocks[|blocks| - 1], n.index + blocks;
      assert all[..|all| - 1] == n.index + rest && all == n.index + rest + [last];
      PrefixUnique(all, |all| - 1, cfg.epochLength);
      assert forall i :: 0 <= i < |all| - 1 ==> (n.index + rest)[i] == all[i];
      MigrateManyCoversRows(n, rest, cfg);
      var before := MigrateMany(n, rest, cfg);
      assert last == all[|all| - 1];
      MigrateCoversRows(before.index, last, before.rows, before.commits, cfg.epochLength);
    }
  }

  ghost predicate FromCache(path: seq<SealedBlock>, cache: Cache) {
    forall i :: 0 <= i < |path| ==> path[i].header.hash in cache && cache[path[i].header.hash] == path[i]
  }

  lemma {:induction false} PathInCache(cache: Cache, last: Hash, target: Hash, path: seq<SealedBlock>)
    requires CacheDescends(cache) && ParentPath(cache, last, target) == Some(path)
    ensures FromCache(path, cache)
    decreases |path|
  {
    if target != last {
      assert CacheStep(cache, target);
      PathInCache(cache, last, cache[target].header.prev, path[..|path| - 1]);
    }
  }

  lemma ClearedTwice(rows: DataRows, a: set<TxId>, p: set<TxId>, b: set<TxId>, q: set<TxId>)
    ensures Cleared(Cleared(rows, a, p), b, q) == Cleared(rows, a + b, p + q)
  {
  }

  /** The clear loop of `persist_metadata`. */
  method ClearAll(rows: DataRows, commits: CommitRows, orphans: seq<SealedBlock>, epochLength: nat)
    returns (cleared: DataRows, dropped: CommitRows)
    ensures cleared == Cleared(rows, ListedBy(Headers(orphans), Include), ListedBy(Headers(orphans), Promote))
    ensures dropped == commits - ListedBy(Headers(orphans), Commit(epochLength))
  {
    cleared, dropped := rows, commits;
    for k := 0 to |orphans|
      invariant cleared ==
        Cleared(rows, ListedBy(Headers(orphans[..k]), Include), ListedBy(Headers(orphans[..k]), Promote))
      invariant dropped == commits - ListedBy(Headers(orphans[..k]), Commit(epochLength))
    {
      var header := orphans[k].header;
      ListedBySnoc(orphans, k, Include);
      ListedBySnoc(orphans, k, Promote);
      ListedBySnoc(orphans, k, Commit(epochLength));
      ClearedTwice(rows, ListedBy(Headers(orphans[..k]), Include), ListedBy(Headers(orphans[..k]), Promote),
                   Listed(header, Include), Listed(header, Promote));
      cleared := ClearDataLedgers(cleared, header.ledgers);
      if header.commitments != [] && !IsNonGenesisEpoch(header.height, epochLength) {
        dropped := BatchDelete(dropped, header.commitments);
      }
    }
    assert orphans[..|orphans|] == orphans;
  }

  lemma ListedBySnoc(blocks: seq<SealedBlock>, k: nat, kind: Kind)
    requires k < |blocks|
    ensures ListedBy(Headers(blocks[..k + 1]), kind) ==
      ListedBy(Headers(blocks[..k]), kind) + Listed(blocks[k].header, kind)
  {
    var shorter, longer := Headers(blocks[..k]), Headers(blocks[..k + 1]);
    assert longer == shorter + [blocks[k].header];
    forall t
      ensures t in ListedBy(longer, kind) <==> t in ListedBy(shorter, kind) || t in Listed(blocks[k].header, kind)
    {
      if t in ListedBy(longer, kind) {
        var h :| 0 <= h < |longer| && t in Listed(longer[h], kind);
        assert h < |shorter| ==> longer[h] == shorter[h];
      }
      if t in ListedBy(shorter, kind) {
        var h :| 0 <= h < |shorter| && t in Listed(shorter[h], kind);
        assert longer[h] == shorter[h];
      }
      if t in Listed(blocks[k].header, kind) {
        assert longer[k] == blocks[k].header;
      }
    }
  }

  /** Every tx an indexed block lists has its header stored. */
  ghost predicate BodiesStored(t: Tables)
    requires Sound(t)
  {
    forall h :: 0 <= h < |t.index| ==> BodyStored(t.headers[t.index[h].hash], t.txs)
  }

  ghost predicate BodyStored(header: Header, txs: set<TxId>) {
    forall k :: 0 <= k < |header.ledgers| ==> Ids(LedgerTxIds(header.ledgers, header.ledgers[k].ledger)) <= txs
  }

  /** In a consistent block, a ledger's listed txs are the ones its body holds. */
  lemma ConsistentIn(b: SealedBlock, ledger: DataLedger)
    requires BodyConsistent(b)
    ensures Ids(LedgerTxIds(b.header.ledgers, ledger)) == Ids(TxIds(BodyTxs(b.body, ledger)))
  {
    match ledger
    case Submit => SameIds(LedgerTxIds(b.header.ledgers, Submit), TxIds(BodyTxs(b.body, Submit)));
    case Publish => SameIds(LedgerTxIds(b.header.ledgers, Publish), TxIds(BodyTxs(b.body, Publish)));
    case OneYear => SameIds(LedgerTxIds(b.header.ledgers, OneYear), TxIds(BodyTxs(b.body, OneYear)));
    case ThirtyDay => SameIds(LedgerTxIds(b.header.ledgers, ThirtyDay), TxIds(BodyTxs(b.body, ThirtyDay)));
  }

  lemma SameIds(a: seq<TxId>, b: seq<TxId>)
    requires multiset(a) == multiset(b)
    ensures Ids(a) == Ids(b)
  {
    forall t ensures t in a <==> t in b {
      assert t in multiset(a) <==> t in multiset(b);
    }
  }

  lemma {:induction false} ListedIsInserted(b: SealedBlock, i: nat, k: nat)
    requires BodyConsistent(b) && i < k <= |b.header.ledgers|
    ensures Ids(LedgerTxIds(b.header.ledgers, b.header.ledgers[i].ledger)) <= BodyIdsOf(b, k)
    decreases k
  {
    if i < k - 1 {
      ListedIsInserted(b, i, k - 1);
    } else {
      ConsistentIn(b, b.header.ledgers[i].ledger);
    }
  }

  /** Persisting a block keeps every indexed block's txs stored; so does a rollback. */
  lemma PersistKeepsBodies(t: Tables, b: SealedBlock, after: Tables, cfg: Config, chunkSize: nat)
    requires Sound(t) && t.index != [] && chunkSize > 0 && Persisted(t, b, after, cfg, chunkSize) && BodiesStored(t)
    requires BodyWritten(t, b, after)
    requires b.header.hash in t.headers ==> t.headers[b.header.hash] == b.header
    ensures BodiesStored(after)
  {
    forall h | 0 <= h < |after.index| ensures BodyStored(after.headers[after.index[h].hash], after.txs) {
      if h < |t.index| {
        assert after.index[h] == t.index[h];
        assert BodyStored(t.headers[t.index[h].hash], t.txs);
      } else {
        assert after.index[h] == Tip(after);
        forall k | 0 <= k < |b.header.ledgers|
          ensures Ids(LedgerTxIds(b.header.ledgers, b.header.ledgers[k].ledger)) <= after.txs
        {
          ListedIsInserted(b, k, |b.header.ledgers|);
        }
      }
    }
  }

  lemma {:induction false} ListedWithin(ledgers: seq<LedgerEntry>, txs: set<TxId>)
    requires forall k :: 0 <= k < |ledgers| ==> Ids(ledgers[k].txIds) <= txs
    ensures ListedTxs(ledgers) <= txs
    decreases |ledgers|
  {
    if ledgers != [] {
      ListedWithin(ledgers[..|ledgers| - 1], txs);
    }
  }

  /** The clear of an orphan covers every tx it lists: none of their headers is missing. */
  lemma OrphanClearsAllTxs(t: Tables, e: Emissions, h: nat)
    requires Sound(t) && BodiesStored(t) && OrphanReadable(t, e, h)
    ensures StoredTxs(t, h) == ListedTxs(t.headers[t.index[h].hash].ledgers)
  {
    var header := t.headers[t.index[h].hash];
    assert BodyStored(header, t.txs);
    forall k | 0 <= k < |header.ledgers| ensures Ids(header.ledgers[k].txIds) <= t.txs {
      FirstEntryIsOwn(header.ledgers, k);
    }
    ListedWithin(header.ledgers, t.txs);
  }

  lemma CutKeepsBodies(t: Tables, fork: nat, after: Tables)
    requires Sound(t) && fork < |t.index| && Cut(t, fork, after) && BodiesStored(t)
    ensures BodiesStored(after)
  {
    forall h | 0 <= h < |after.index| ensures BodyStored(after.headers[after.index[h].hash], after.txs) {
      assert after.index[h] == t.index[h];
    }
  }

  /** Persisting a block is the push of the finality machine. */
  lemma PersistedIsPush(t: Tables, b: SealedBlock, after: Tables, cfg: Config, chunkSize: nat)
    requires Sound(t) && t.index != [] && chunkSize > 0 && Persisted(t, b, after, cfg, chunkSize)
    ensures HashesOf(after.index) == Finality.Step1(HashesOf(t.index), Finality.Push(b.header.hash), cfg)
  {
    assert after.index == t.index + [Tip(after)];
  }

  /** A cut the guard lets through is its rollback. */
  lemma CutIsRollBack(index: seq<IndexItem>, fork: nat, cfg: Config)
    requires fork + 1 < |index| && fork >= FinalizedHeight(|index| - 1, cfg.treeDepth, cfg.migrationDepth)
    ensures HashesOf(index[..fork + 1]) == Finality.Step1(HashesOf(index), Finality.RollBack(fork), cfg)
  {
    assert HashesOf(index[..fork + 1]) == HashesOf(index)[..fork + 1];
  }

  /** All a cut does to the tables. */
  lemma CutTables(t: Tables, fork: nat, cfg: Config)
    requires Sound(t) && BodiesStored(t) && fork + 1 < |t.index|
    requires fork >= FinalizedHeight(|t.index| - 1, cfg.treeDepth, cfg.migrationDepth)
    ensures var after := t.(index := t.index[..fork + 1]);
      && Cut(t, fork, after) && BodiesStored(after)
      && HashesOf(after.index) == Finality.Step1(HashesOf(t.index), Finality.RollBack(fork), cfg)
  {
    IndexCut(t, fork);
    CutIsRollBack(t.index, fork, cfg);
    CutKeepsBodies(t, fork, t.(index := t.index[..fork + 1]));
  }

  lemma IndexCut(t: Tables, fork: nat)
    requires Sound(t) && fork < |t.index|
    ensures Cut(t, fork, t.(index := t.index[..fork + 1]))
  {
    var hashes, shorter := HashesOf(t.index), HashesOf(t.index[..fork + 1]);
    assert shorter == hashes[..fork + 1];
    forall i | 0 < i <= fork ensures LinkAt(t.headers, shorter, i) {
      assert LinkAt(t.headers, hashes, i);
    }
  }

  /** Storing the next block's header keeps the index linked and appends the block to its list. */
  lemma IndexGrows(headers: Store, hashes: seq<Hash>, b: Header)
    requires IndexLinked(headers, hashes) && hashes != [] && b.height == |hashes| && b.prev == hashes[|hashes| - 1]
    requires b.hash in headers ==> headers[b.hash] == b
    ensures IndexLinked(headers[b.hash := b], hashes + [b.hash])
    ensures IndexBlocks(headers[b.hash := b], hashes + [b.hash]) == IndexBlocks(headers, hashes) + [b]
  {
    var store, longer := headers[b.hash := b], hashes + [b.hash];
    forall i | 0 <= i < |longer| ensures longer[i] in store && store[longer[i]].height == i {
      assert i < |hashes| ==> longer[i] == hashes[i];
    }
    forall i | 0 < i < |longer| ensures LinkAt(store, longer, i) {
      assert i < |hashes| ==> LinkAt(headers, hashes, i);
    }
  }
}
