// Durable commitment replay check of `commitment_dedup.rs`: a by-hash walk over
// the reorg window and a content-verified row lookup strictly below it.

module CommitmentDedup {
  import opened Chain
  import opened BlockAncestry
  import opened BlockDiscovery
  import opened MetadataRows
  import opened Outcome

  /** The visitor: collect every listed commitment, never stop early. */
  function Collect(ids: set<TxId>, header: Header): Visit<set<TxId>> {
    Continue(ids + Ids(header.commitments))
  }

  ghost function CommitmentsOf(headers: seq<Header>): set<TxId> {
    set k, t | 0 <= k < |headers| && t in headers[k].commitments :: t
  }

  lemma {:induction false} CollectsEverything(headers: seq<Header>, ids: set<TxId>)
    ensures VisitNewestFirst(headers, Collect, ids) == Done(ids + CommitmentsOf(headers))
    decreases |headers|
  {
    if headers == [] {
      assert ids + CommitmentsOf(headers) == ids;
    } else {
      var rest, last := headers[..|headers| - 1], headers[|headers| - 1];
      CollectsEverything(rest, ids + Ids(last.commitments));
      forall t ensures t in CommitmentsOf(headers) <==> t in CommitmentsOf(rest) || t in last.commitments {
        assert headers == rest + [last];
        if t in CommitmentsOf(headers) {
          var k :| 0 <= k < |headers| && t in headers[k].commitments;
          assert k < |rest| ==> rest[k] == headers[k];
        }
        if t in CommitmentsOf(rest) {
          var k :| 0 <= k < |rest| && t in rest[k].commitments;
          assert headers[k] == rest[k];
        }
        if t in last.commitments {
          assert headers[|rest|] == last;
        }
      }
      assert ids + CommitmentsOf(headers) == ids + Ids(last.commitments) + CommitmentsOf(rest);
    }
  }

  /** `ancestor_commitment_tx_ids`. Fails closed on any unreadable in-window ancestor. */
  method AncestorCommitmentIds(tree: Store, db: Store, prev: Hash, minHeight: nat, ghost u: Store)
    returns (r: Option<set<TxId>>)
    requires Closed(u) && Resolves(u, tree) && Resolves(u, db) && prev in u && NoReentry(tree, db)
    ensures r.Some? <==> RangeResolves(u, Merged(tree, db), prev, minHeight)
    ensures r.Some? ==> r.value == CommitmentsOf(Range(u, prev, minHeight))
  {
    ghost var both := Merged(tree, db);
    ResolvedStoresDescend(u, both);
    var outcome := WalkTreeThenDb(tree, db, prev, minHeight, Collect, {});
    if RangeResolves(u, both, prev, minHeight) {
      WalkVisitsAncestry(u, both, prev, minHeight, Collect, {});
      CollectsEverything(Range(u, prev, minHeight), {});
    } else {
      MissingInRangeFails(u, both, prev, minHeight, Collect, {});
    }
    r := if outcome.Done? then Some(outcome.state) else None;
  }

  /**
   * `canonical_commitment_included_height`: a row counts only at or below the
   * cap and only when the canonical block there really lists the commitment.
   */
  function CommitmentHeight(commits: CommitRows, index: seq<Hash>, db: Store, id: TxId, cap: nat)
    : Result<Option<nat>, ()>
  {
    if id !in commits || commits[id] > cap || commits[id] >= |index| then Ok(None)
    else
      var h := commits[id];
      if index[h] !in db || db[index[h]].height != h then Err(())
      else if id in db[index[h]].commitments then Ok(Some(h)) else Ok(None)
  }

  /** The migrated blocks, in height order. */
  ghost function IndexBlocks(u: Store, index: seq<Hash>): seq<Header>
    requires IndexLinked(u, index)
  {
    seq(|index|, i requires 0 <= i < |index| => u[index[i]])
  }

  /** Some ancestor lists the commitment. */
  ghost predicate ListedInAncestry(c: seq<Header>, t: TxId) {
    exists k :: 0 <= k < |c| && t in c[k].commitments
  }

  ghost predicate OwnedBelow(c: seq<Header>, epochLength: nat, k: nat, t: TxId) {
    exists j :: ListedAt(c, Commit(epochLength), j, t) && j <= k
  }

  /** A non-genesis epoch block lists only commitments an earlier block included. */
  ghost predicate EpochsRelist(c: seq<Header>, epochLength: nat) {
    forall k, t :: 0 <= k < |c| && t in c[k].commitments ==> OwnedBelow(c, epochLength, k, t)
  }

  /** Height up to which the row lookup is asked, exclusive; at least genesis. */
  function LookupEnd(height: nat, treeDepth: nat): nat {
    SatSub(SatSub(height, treeDepth), 1) + 1
  }

  /**
   * The store facts under which the two ranges together are the whole ancestry.
   * Rows that no indexed block backs may be present: the lookup checks the
   * block's content, so they are harmless.
   */
  ghost predicate Finalized(u: Store, db: Store, index: seq<Hash>, commits: CommitRows, prev: Hash,
                            treeDepth: nat, epochLength: nat)
    requires Closed(u) && prev in u
  {
    var c := Ancestry(u, prev);
    && FinalizedBelow(u, db, index, prev, LookupEnd(|c|, treeDepth))
    && CommitRowsCover(IndexBlocks(u, index), epochLength, commits)
    && EpochsRelist(c, epochLength)
  }

  /** A row answer below the floor is a true ancestor listing. */
  lemma LookupIsSound(u: Store, db: Store, index: seq<Hash>, commits: CommitRows, prev: Hash, cap: nat, id: TxId)
    requires Closed(u) && Resolves(u, db) && prev in u && FinalizedBelow(u, db, index, prev, cap + 1)
    ensures var r := CommitmentHeight(commits, index, db, id, cap);
      r.Ok? && (r.value.Some? ==> ListedInAncestry(Ancestry(u, prev), id))
  {
    LinkedIndexAgreesBelow(u, index, prev, cap);
    var c := Ancestry(u, prev);
    if id in commits && commits[id] <= cap {
      var h := commits[id];
      assert index[h] == c[h].hash && db[index[h]] == c[h];
    }
  }

  /** Every listing below the floor is found by the row lookup, epoch re-listings included. */
  lemma LookupIsComplete(u: Store, db: Store, index: seq<Hash>, commits: CommitRows, prev: Hash, cap: nat, id: TxId,
                         k: nat, epochLength: nat)
    requires Closed(u) && Resolves(u, db) && prev in u && FinalizedBelow(u, db, index, prev, cap + 1)
    requires CommitRowsCover(IndexBlocks(u, index), epochLength, commits)
    requires EpochsRelist(Ancestry(u, prev), epochLength)
    requires k <= cap && id in Ancestry(u, prev)[k].commitments
    ensures CommitmentHeight(commits, index, db, id, cap).Ok?
    ensures CommitmentHeight(commits, index, db, id, cap).value.Some?
  {
    LinkedIndexAgreesBelow(u, index, prev, cap);
    var c := Ancestry(u, prev);
    assert OwnedBelow(c, epochLength, k, id);
    var j :| ListedAt(c, Commit(epochLength), j, id) && j <= k;
    assert index[j] == c[j].hash && db[index[j]] == c[j];
    assert IndexBlocks(u, index)[j] == c[j];
    assert ListedAt(IndexBlocks(u, index), Commit(epochLength), j, id);
    assert CommitRow(commits, id, j);
  }

  ghost predicate ListedFrom(c: seq<Header>, floor: nat, t: TxId) {
    exists k :: floor <= k < |c| && t in c[k].commitments
  }

  lemma WalkedListing(u: Store, prev: Hash, floor: nat, id: TxId)
    requires Closed(u) && prev in u
    ensures id in CommitmentsOf(Range(u, prev, floor)) <==> ListedFrom(Ancestry(u, prev), floor, id)
  {
    var c := Ancestry(u, prev);
    var range := Range(u, prev, floor);
    if id in CommitmentsOf(range) {
      var k :| 0 <= k < |range| && id in range[k].commitments;
      assert c[floor + k] == range[k];
    }
    if ListedFrom(c, floor, id) {
      var k :| floor <= k < |c| && id in c[k].commitments;
      assert range[k - floor] == c[k];
    }
  }

  /** The two ranges meet at the floor and together cover the whole ancestry. */
  lemma RangesCoverAncestry(u: Store, db: Store, index: seq<Hash>, commits: CommitRows, prev: Hash, treeDepth: nat,
                            epochLength: nat, id: TxId)
    requires Closed(u) && Resolves(u, db) && prev in u && Finalized(u, db, index, commits, prev, treeDepth, epochLength)
    ensures var c := Ancestry(u, prev);
      var floor := SatSub(|c|, treeDepth);
      var lookup := CommitmentHeight(commits, index, db, id, SatSub(floor, 1));
      lookup.Ok? && (id in CommitmentsOf(Range(u, prev, floor)) || lookup.value.Some? <==> ListedInAncestry(c, id))
  {
    var c := Ancestry(u, prev);
    var floor := SatSub(|c|, treeDepth);
    var cap := SatSub(floor, 1);
    LookupIsSound(u, db, index, commits, prev, cap, id);
    WalkedListing(u, prev, floor, id);
    if ListedInAncestry(c, id) && !ListedFrom(c, floor, id) {
      var k :| 0 <= k < |c| && id in c[k].commitments;
      LookupIsComplete(u, db, index, commits, prev, cap, id, k, epochLength);
    }
  }

  /** Two row tables that cover the index give the same answer, whatever stale rows either holds. */
  lemma StaleRowsAreHarmless(u: Store, db: Store, index: seq<Hash>, commits: CommitRows, other: CommitRows, prev: Hash,
                             treeDepth: nat, epochLength: nat, id: TxId)
    requires Closed(u) && Resolves(u, db) && prev in u
    requires Finalized(u, db, index, commits, prev, treeDepth, epochLength)
    requires Finalized(u, db, index, other, prev, treeDepth, epochLength)
    ensures var floor := SatSub(|Ancestry(u, prev)|, treeDepth);
      var walked := id in CommitmentsOf(Range(u, prev, floor));
      var one := CommitmentHeight(commits, index, db, id, SatSub(floor, 1));
      var two := CommitmentHeight(other, index, db, id, SatSub(floor, 1));
      one.Ok? && two.Ok? && (walked || one.value.Some? <==> walked || two.value.Some?)
  {
    RangesCoverAncestry(u, db, index, commits, prev, treeDepth, epochLength, id);
    RangesCoverAncestry(u, db, index, other, prev, treeDepth, epochLength, id);
  }

  /** `txs[i]` repeats an earlier entry of the same block or a listing of any ancestor. */
  ghost predicate IsReplay(c: seq<Header>, txs: seq<TxId>, i: nat)
    requires i < |txs|
  {
    txs[i] in txs[..i] || ListedInAncestry(c, txs[i])
  }

  ghost predicate IsFirstReplay(c: seq<Header>, txs: seq<TxId>, r: Option<TxId>) {
    match r
    case None => forall i :: 0 <= i < |txs| ==> !IsReplay(c, txs, i)
    case Some(t) => exists i :: 0 <= i < |txs| && txs[i] == t && IsReplay(c, txs, i)
                                && forall j :: 0 <= j < i ==> !IsReplay(c, txs, j)
  }

  /** Walked ids and the capped lookup together answer whether an ancestor lists `id`. */
  ghost predicate KnownId(prior: set<TxId>, commits: CommitRows, index: seq<Hash>, db: Store, cap: nat, c: seq<Header>,
                          id: TxId)
  {
    var lookup := CommitmentHeight(commits, index, db, id, cap);
    lookup.Ok? && (id in prior || lookup.value.Some? <==> ListedInAncestry(c, id))
  }

  method FirstReplay(txs: seq<TxId>, prior: set<TxId>, commits: CommitRows, index: seq<Hash>, db: Store, cap: nat,
                     ghost c: seq<Header>) returns (r: Option<TxId>)
    requires forall id :: KnownId(prior, commits, index, db, cap, c, id)
    ensures IsFirstReplay(c, txs, r)
  {
    var seen: set<TxId> := {};
    for i := 0 to |txs|
      invariant seen == Ids(txs[..i])
      invariant forall j :: 0 <= j < i ==> !IsReplay(c, txs, j)
    {
      assert KnownId(prior, commits, index, db, cap, c, txs[i]);
      var lookup := CommitmentHeight(commits, index, db, txs[i], cap);
      if txs[i] in seen || txs[i] in prior || lookup.value.Some? {
        assert IsReplay(c, txs, i);
        return Some(txs[i]);
      }
      assert !IsReplay(c, txs, i);
      seen := seen + {txs[i]};
      assert txs[..i + 1] == txs[..i] + [txs[i]];
    }
    return None;
  }

  /**
   * `find_replayed_commitment`: the first commitment of the block that repeats
   * inside it or anywhere in its ancestry down to genesis. It fails exactly when
   * an in-window ancestor cannot be read and there is something to check.
   */
  method FindReplayedCommitment(tree: Store, db: Store, index: seq<Hash>, commits: CommitRows, block: Header,
                                txs: seq<TxId>, treeDepth: nat, ghost u: Store, ghost epochLength: nat)
    returns (r: Result<Option<TxId>, ()>)
    requires Closed(u) && Resolves(u, tree) && Resolves(u, db) && NoReentry(tree, db)
    requires block.prev in u && block.height == u[block.prev].height + 1
    requires Finalized(u, db, index, commits, block.prev, treeDepth, epochLength)
    ensures r.Err? <==> txs != [] && !RangeResolves(u, Merged(tree, db), block.prev, SatSub(block.height, treeDepth))
    ensures r.Ok? ==> IsFirstReplay(Ancestry(u, block.prev), txs, r.value)
  {
    ghost var c := Ancestry(u, block.prev);
    if txs == [] {
      return Ok(None);
    }
    var floor := SatSub(block.height, treeDepth);
    var prior := AncestorCommitmentIds(tree, db, block.prev, floor, u);
    if prior.None? {
      return Err(());
    }
    forall id ensures KnownId(prior.value, commits, index, db, SatSub(floor, 1), c, id) {
      RangesCoverAncestry(u, db, index, commits, block.prev, treeDepth, epochLength, id);
    }
    var found := FirstReplay(txs, prior.value, commits, index, db, SatSub(floor, 1), c);
    return Ok(found);
  }
}
