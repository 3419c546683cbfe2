// Canonical tx metadata: the rows `db_index.rs` keeps and the batch writes and
// clears `block_migration_service.rs` issues at migration and at a reorg.

module MetadataRows {
  import opened Chain
  import opened Outcome

  /** A stored data-tx row always has an inclusion height. */
  datatype DataRow = DataRow(included: nat, promoted: Option<nat>)

  type DataRows = map<TxId, DataRow>

  /** Commitment tx id to inclusion height. */
  type CommitRows = map<TxId, nat>

  function Ids(ids: seq<TxId>): set<TxId> {
    set t | t in ids
  }

  /** Txs a block lists in Submit, OneYear or ThirtyDay. */
  function TermIds(ledgers: seq<LedgerEntry>): set<TxId> {
    set i, t | 0 <= i < |ledgers| && !ledgers[i].ledger.Publish? && t in ledgers[i].txIds :: t
  }

  /** Txs a block promotes. */
  function PublishIds(ledgers: seq<LedgerEntry>): set<TxId> {
    set i, t | 0 <= i < |ledgers| && ledgers[i].ledger.Publish? && t in ledgers[i].txIds :: t
  }

  /** A non-genesis epoch block re-lists the commitments of its epoch; it never first-includes one. */
  predicate IsNonGenesisEpoch(height: nat, epochLength: nat) {
    height != 0 && epochLength != 0 && height % epochLength == 0
  }

  /** Epoch blocks are the positive multiples of the epoch length, and nothing else. */
  lemma EpochIsMultiple(height: nat, epochLength: nat)
    requires epochLength > 0
    ensures IsNonGenesisEpoch(height, epochLength) <==> exists k: nat :: k > 0 && height == Epochs(k, epochLength)
  {
    if IsNonGenesisEpoch(height, epochLength) {
      var k := height / epochLength;
      assert height == Epochs(k, epochLength) && k > 0;
    }
    if k: nat :| k > 0 && height == Epochs(k, epochLength) {
      MultipleHasNoRest(k, epochLength);
    }
  }

  /** The height after `k` epochs. */
  ghost function Epochs(k: nat, epochLength: nat): nat {
    k * epochLength
  }

  lemma MultipleHasNoRest(k: nat, epochLength: nat)
    requires k > 0 && epochLength > 0
    ensures Epochs(k, epochLength) > 0 && Epochs(k, epochLength) % epochLength == 0
  {
    var height := k * epochLength;
    var q, rest := height / epochLength, height % epochLength;
    assert (k - q) * epochLength == rest < epochLength;
    if k > q {
      ProductGrows(k - q, epochLength);
    } else if k < q {
      ProductGrows(q - k, epochLength);
    }
  }

  lemma ProductGrows(a: nat, b: nat)
    requires a > 0
    ensures a * b >= b
  {
  }

  /** Commitments whose inclusion row the block owns. */
  function OwnedCommitments(header: Header, epochLength: nat): set<TxId> {
    if IsNonGenesisEpoch(header.height, epochLength) then {} else Ids(header.commitments)
  }

  /** Every block but an epoch block owns exactly the commitments it lists; an epoch block owns none. */
  lemma OwnsWhatItLists(header: Header, epochLength: nat, t: TxId)
    requires epochLength > 0
    ensures t in OwnedCommitments(header, epochLength) <==>
      t in header.commitments && !(exists k: nat :: k > 0 && header.height == Epochs(k, epochLength))
  {
    EpochIsMultiple(header.height, epochLength);
  }

  // ---- What a batch leaves in the tables ----

  function SetIncluded(rows: DataRows, ids: set<TxId>, height: nat): DataRows {
    map t | t in rows.Keys + ids ::
      if t in ids then DataRow(height, if t in rows then rows[t].promoted else None) else rows[t]
  }

  function SetPromoted(rows: DataRows, ids: set<TxId>, height: nat): DataRows {
    map t | t in rows.Keys :: if t in ids then rows[t].(promoted := Some(height)) else rows[t]
  }

  /** Setting an inclusion height touches that height only, of the listed txs only; setting a promotion likewise. */
  lemma BatchesTouchOneField(rows: DataRows, ids: set<TxId>, height: nat, t: TxId)
    ensures t in SetIncluded(rows, ids, height) <==> t in rows || t in ids
    ensures t in SetPromoted(rows, ids, height) <==> t in rows
    ensures t in ids ==> SetIncluded(rows, ids, height)[t].included == height
    ensures t in rows ==> SetIncluded(rows, ids, height)[t].promoted == rows[t].promoted
    ensures t in rows ==> SetPromoted(rows, ids, height)[t].included == rows[t].included
    ensures t in rows && t in ids ==> SetPromoted(rows, ids, height)[t].promoted == Some(height)
    ensures t in rows && t !in ids ==>
      SetIncluded(rows, ids, height)[t] == rows[t] && SetPromoted(rows, ids, height)[t] == rows[t]
  {
  }

  /** One block's rows: term ledgers set the inclusion height, Publish the promotion height. */
  function Written(rows: DataRows, term: set<TxId>, publish: set<TxId>, height: nat): DataRows {
    SetPromoted(SetIncluded(rows, term, height), publish, height)
  }

  /** Orphaned blocks: a term listing deletes the row, a Publish listing clears the promotion. */
  function Cleared(rows: DataRows, term: set<TxId>, publish: set<TxId>): DataRows {
    map t | t in rows.Keys - term :: if t in publish then rows[t].(promoted := None) else rows[t]
  }

  function CommitsWritten(rows: CommitRows, ids: set<TxId>, height: nat): CommitRows {
    map t | t in rows.Keys + ids :: if t in ids then height else rows[t]
  }

  // ---- The batch loops ----

  method BatchSetIncluded(rows: DataRows, ids: seq<TxId>, height: nat) returns (r: DataRows)
    ensures r == SetIncluded(rows, Ids(ids), height)
  {
    r := rows;
    for k := 0 to |ids|
      invariant r == SetIncluded(rows, Ids(ids[..k]), height)
    {
      var t := ids[k];
      r := r[t := if t in r then r[t].(included := height) else DataRow(height, None)];
      assert Ids(ids[..k + 1]) == Ids(ids[..k]) + {t};
    }
    assert ids[..|ids|] == ids;
  }

  /** Fails on the first tx without a row; the transaction is then rolled back. */
  method BatchSetPromoted(rows: DataRows, ids: seq<TxId>, height: nat) returns (r: Option<DataRows>)
    ensures r.Some? <==> Ids(ids) <= rows.Keys
    ensures r.Some? ==> r.value == SetPromoted(rows, Ids(ids), height)
  {
    var out := rows;
    for k := 0 to |ids|
      invariant Ids(ids[..k]) <= rows.Keys
      invariant out == SetPromoted(rows, Ids(ids[..k]), height)
    {
      var t := ids[k];
      assert Ids(ids[..k + 1]) == Ids(ids[..k]) + {t};
      assert t in Ids(ids);
      if t !in out {
        return None;
      }
      out := out[t := out[t].(promoted := Some(height))];
    }
    assert ids[..|ids|] == ids;
    return Some(out);
  }

  method BatchClearPromoted(rows: DataRows, ids: seq<TxId>) returns (r: DataRows)
    ensures r == Cleared(rows, {}, Ids(ids))
  {
    r := rows;
    for k := 0 to |ids|
      invariant r == Cleared(rows, {}, Ids(ids[..k]))
    {
      var t := ids[k];
      assert Ids(ids[..k + 1]) == Ids(ids[..k]) + {t};
      if t in r {
        r := r[t := r[t].(promoted := None)];
      }
    }
    assert ids[..|ids|] == ids;
  }

  method BatchDelete<V>(rows: map<TxId, V>, ids: seq<TxId>) returns (r: map<TxId, V>)
    ensures r == rows - Ids(ids)
  {
    r := rows;
    for k := 0 to |ids|
      invariant r == rows - Ids(ids[..k])
    {
      assert Ids(ids[..k + 1]) == Ids(ids[..k]) + {ids[k]};
      r := r - {ids[k]};
    }
    assert ids[..|ids|] == ids;
  }

  method BatchSetCommitIncluded(rows: CommitRows, ids: seq<TxId>, height: nat) returns (r: CommitRows)
    ensures r == CommitsWritten(rows, Ids(ids), height)
  {
    r := rows;
    for k := 0 to |ids|
      invariant r == CommitsWritten(rows, Ids(ids[..k]), height)
    {
      assert Ids(ids[..k + 1]) == Ids(ids[..k]) + {ids[k]};
      r := r[ids[k] := height];
    }
    assert ids[..|ids|] == ids;
  }

  lemma TermIdsSnoc(ledgers: seq<LedgerEntry>, k: nat)
    requires k < |ledgers|
    ensures TermIds(ledgers[..k + 1]) ==
      TermIds(ledgers[..k]) + (if ledgers[k].ledger.Publish? then {} else Ids(ledgers[k].txIds))
    ensures PublishIds(ledgers[..k + 1]) ==
      PublishIds(ledgers[..k]) + (if ledgers[k].ledger.Publish? then Ids(ledgers[k].txIds) else {})
  {
    var longer := ledgers[..k + 1];
    forall t ensures t in TermIds(longer) <==>
        t in TermIds(ledgers[..k]) || (!ledgers[k].ledger.Publish? && t in ledgers[k].txIds)
    {
      assert longer[k] == ledgers[k];
      assert forall i :: 0 <= i < k ==> longer[i] == ledgers[..k][i];
    }
    forall t ensures t in PublishIds(longer) <==>
        t in PublishIds(ledgers[..k]) || (ledgers[k].ledger.Publish? && t in ledgers[k].txIds)
    {
      assert longer[k] == ledgers[k];
      assert forall i :: 0 <= i < k ==> longer[i] == ledgers[..k][i];
    }
  }

  lemma PublishIdsContains(ledgers: seq<LedgerEntry>, k: nat)
    requires k < |ledgers| && ledgers[k].ledger.Publish?
    ensures Ids(ledgers[k].txIds) <= PublishIds(ledgers)
  {
    forall t | t in Ids(ledgers[k].txIds) ensures t in PublishIds(ledgers) {
      assert t in ledgers[k].txIds;
    }
  }

  lemma SetIncludedTwice(rows: DataRows, a: set<TxId>, b: set<TxId>, height: nat)
    ensures SetIncluded(SetIncluded(rows, a, height), b, height) == SetIncluded(rows, a + b, height)
  {
  }

  method WriteTermLedgers(rows: DataRows, ledgers: seq<LedgerEntry>, height: nat) returns (r: DataRows)
    ensures r == SetIncluded(rows, TermIds(ledgers), height)
  {
    r := rows;
    for k := 0 to |ledgers|
      invariant r == SetIncluded(rows, TermIds(ledgers[..k]), height)
    {
      TermIdsSnoc(ledgers, k);
      SetIncludedTwice(rows, TermIds(ledgers[..k]), Ids(ledgers[k].txIds), height);
      assert ledgers[k].txIds == [] ==> TermIds(ledgers[..k + 1]) == TermIds(ledgers[..k]);
      if !ledgers[k].ledger.Publish? && ledgers[k].txIds != [] {
        r := BatchSetIncluded(r, ledgers[k].txIds, height);
      }
    }
    assert ledgers[..|ledgers|] == ledgers;
  }

  method WritePublishLedgers(rows: DataRows, ledgers: seq<LedgerEntry>, height: nat) returns (r: Option<DataRows>)
    ensures r.Some? <==> PublishIds(ledgers) <= rows.Keys
    ensures r.Some? ==> r.value == SetPromoted(rows, PublishIds(ledgers), height)
  {
    var out := rows;
    for k := 0 to |ledgers|
      invariant PublishIds(ledgers[..k]) <= rows.Keys
      invariant out == SetPromoted(rows, PublishIds(ledgers[..k]), height)
    {
      TermIdsSnoc(ledgers, k);
      if ledgers[k].ledger.Publish? && ledgers[k].txIds != [] {
        PublishIdsContains(ledgers, k);
        var step := BatchSetPromoted(out, ledgers[k].txIds, height);
        if step.None? {
          return None;
        }
        out := step.value;
      }
    }
    assert ledgers[..|ledgers|] == ledgers;
    return Some(out);
  }

  /** `write_data_ledger_metadata`: term pass first, so a same-block promotion finds its row. */
  method WriteDataLedgerMetadata(rows: DataRows, ledgers: seq<LedgerEntry>, height: nat) returns (r: Option<DataRows>)
    ensures r.Some? <==> PublishIds(ledgers) <= rows.Keys + TermIds(ledgers)
    ensures r.Some? ==> r.value == Written(rows, TermIds(ledgers), PublishIds(ledgers), height)
  {
    var included := WriteTermLedgers(rows, ledgers, height);
    r := WritePublishLedgers(included, ledgers, height);
  }

  /** The per-block clear of `persist_metadata`, ledger by ledger in header order. */
  method ClearDataLedgers(rows: DataRows, ledgers: seq<LedgerEntry>) returns (r: DataRows)
    ensures r == Cleared(rows, TermIds(ledgers), PublishIds(ledgers))
  {
    r := rows;
    for k := 0 to |ledgers|
      invariant r == Cleared(rows, TermIds(ledgers[..k]), PublishIds(ledgers[..k]))
    {
      TermIdsSnoc(ledgers, k);
      if ledgers[k].txIds != [] {
        if ledgers[k].ledger.Publish? {
          r := BatchClearPromoted(r, ledgers[k].txIds);
        } else {
          r := BatchDelete(r, ledgers[k].txIds);
        }
      }
    }
    assert ledgers[..|ledgers|] == ledgers;
  }

  // ---- Agreement with a list of blocks ----

  /** What a block can do to a tx: include it, promote it, or first-include a commitment. */
  datatype Kind = Include | Promote | Commit(epochLength: nat)

  ghost function Listed(b: Header, kind: Kind): set<TxId> {
    match kind
    case Include => TermIds(b.ledgers)
    case Promote => PublishIds(b.ledgers)
    case Commit(epochLength) => OwnedCommitments(b, epochLength)
  }

  ghost predicate ListedAt(blocks: seq<Header>, kind: Kind, h: int, t: TxId) {
    0 <= h < |blocks| && t in Listed(blocks[h], kind)
  }

  ghost predicate IncludedRow(rows: DataRows, t: TxId, h: int) {
    t in rows && rows[t].included == h
  }

  ghost predicate PromotedRow(rows: DataRows, t: TxId, h: int) {
    t in rows && rows[t].promoted.Some? && rows[t].promoted.value == h
  }

  ghost predicate CommitRow(rows: CommitRows, t: TxId, h: int) {
    t in rows && rows[t] == h
  }

  /**
   * A data row names an inclusion height exactly when the block there lists the
   * tx in a term ledger, and a promotion height exactly when the block there
   * lists it in Publish.
   */
  ghost predicate DataRowsAgree(blocks: seq<Header>, rows: DataRows) {
    && (forall t, h :: IncludedRow(rows, t, h) <==> ListedAt(blocks, Include, h, t))
    && (forall t, h :: PromotedRow(rows, t, h) <==> ListedAt(blocks, Promote, h, t))
  }

  /** A commitment row names exactly the genesis or non-epoch block that lists the commitment. */
  ghost predicate CommitRowsAgree(blocks: seq<Header>, epochLength: nat, rows: CommitRows) {
    forall t, h :: CommitRow(rows, t, h) <==> ListedAt(blocks, Commit(epochLength), h, t)
  }

  /** Every listing has its row; rows that no block backs are allowed. */
  ghost predicate DataRowsCover(blocks: seq<Header>, rows: DataRows) {
    && (forall t, h :: ListedAt(blocks, Include, h, t) ==> IncludedRow(rows, t, h))
    && (forall t, h :: ListedAt(blocks, Promote, h, t) ==> PromotedRow(rows, t, h))
  }

  ghost predicate CommitRowsCover(blocks: seq<Header>, epochLength: nat, rows: CommitRows) {
    forall t, h :: ListedAt(blocks, Commit(epochLength), h, t) ==> CommitRow(rows, t, h)
  }

  /** No tx is listed by two different blocks. */
  ghost predicate Once(blocks: seq<Header>, kind: Kind) {
    forall i, j, t :: ListedAt(blocks, kind, i, t) && ListedAt(blocks, kind, j, t) ==> i == j
  }

  /**
   * What block validation grants along one branch: a tx is included once,
   * promoted once and not before its inclusion, and a commitment is
   * first-included once.
   */
  ghost predicate UniqueBranch(blocks: seq<Header>, epochLength: nat) {
    && Once(blocks, Include) && Once(blocks, Promote) && Once(blocks, Commit(epochLength))
    && (forall i, t :: ListedAt(blocks, Promote, i, t) ==> IncludedBy(blocks, i, t))
  }

  ghost predicate IncludedBy(blocks: seq<Header>, i: int, t: TxId) {
    exists j :: j <= i && ListedAt(blocks, Include, j, t)
  }
}
