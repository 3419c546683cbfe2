// Anchor window and Submit duplicate check of `block_discovery.rs`: a by-hash
// walk over the tx-anchor window, a block-index pass tied to it by one handoff
// check, and an on-demand lookup in the migrated chain below the map.

module BlockDiscovery {
  import opened Chain
  import opened BlockAncestry
  import opened Outcome

  datatype DiscoveryError =
    | InvalidBlockHeight(expected: nat, got: nat)
    | PreviousBlockNotFound(hash: Hash)
    | DuplicateTransaction(tx: TxId)
    | InvalidAnchor(anchor: Hash)
    | MalformedLedgers(hash: Hash)
    | IndexGap(height: nat)
    | IndexHandoffMismatch(height: nat)
    | LookupFailed

  /** No data ledger is listed twice (`get_data_ledger_tx_ids` rejects such a header). */
  predicate DistinctLedgers(header: Header) {
    forall i, j :: 0 <= i < j < |header.ledgers| ==> header.ledgers[i].ledger != header.ledgers[j].ledger
  }

  /** Tx ids of one data ledger; empty when the header does not list it. */
  function LedgerTxIds(entries: seq<LedgerEntry>, ledger: DataLedger): seq<TxId> {
    if entries == [] then []
    else if entries[0].ledger == ledger then entries[0].txIds
    else LedgerTxIds(entries[1..], ledger)
  }

  /** In a well-formed header each entry's list is the list of its ledger. */
  lemma {:induction false} FirstEntryIsOwn(ledgers: seq<LedgerEntry>, k: nat)
    requires k < |ledgers| && forall i, j :: 0 <= i < j < |ledgers| ==> ledgers[i].ledger != ledgers[j].ledger
    ensures LedgerTxIds(ledgers, ledgers[k].ledger) == ledgers[k].txIds
  {
    if k > 0 {
      FirstEntryIsOwn(ledgers[1..], k - 1);
    }
  }

  function SubmitIds(header: Header): seq<TxId> {
    LedgerTxIds(header.ledgers, Submit)
  }

  /** Whether the header has a Submit ledger at all, empty or not. */
  predicate HasSubmit(header: Header) {
    exists i :: 0 <= i < |header.ledgers| && header.ledgers[i].ledger == Submit
  }

  /** `t` is the first id of `incoming`, in list order, that `existing` contains. */
  ghost predicate IsFirstCommon(incoming: seq<TxId>, existing: seq<TxId>, t: TxId) {
    exists k :: 0 <= k < |incoming| && incoming[k] == t && t in existing
                && forall j :: 0 <= j < k ==> incoming[j] !in existing
  }

  ghost predicate Disjoint(incoming: seq<TxId>, existing: seq<TxId>) {
    forall k :: 0 <= k < |incoming| ==> incoming[k] !in existing
  }

  method FirstCommon(incoming: seq<TxId>, existing: seq<TxId>) returns (r: Option<TxId>)
    ensures r.None? ==> Disjoint(incoming, existing)
    ensures r.Some? ==> IsFirstCommon(incoming, existing, r.value)
  {
    for k := 0 to |incoming|
      invariant forall j :: 0 <= j < k ==> incoming[j] !in existing
    {
      if incoming[k] in existing {
        return Some(incoming[k]);
      }
    }
    return None;
  }

  ghost predicate At(m: map<Hash, int>, a: Hash, i: int) {
    a in m && m[a] == i
  }

  /** `m` holds exactly the hashes of `c` at heights `[lo, hi)`, each with its height. */
  ghost predicate MapIs(m: map<Hash, int>, c: seq<Header>, lo: nat, hi: nat)
    requires hi <= |c|
  {
    forall a, i :: At(m, a, i) <==> lo <= i < hi && c[i].hash == a
  }

  /** Lowest height the by-hash walk reads: one below its window, or genesis. */
  function WalkEnd(minTx: nat): (r: nat)
    ensures r <= minTx <= r + 1 && (r == minTx ==> r == 0)
  {
    SatSub(minTx, 1)
  }

  /** Each ancestor the walk must fetch, below the already resolved parent, can be fetched. */
  ghost predicate WindowReadable(tree: Store, db: Store, c: seq<Header>, minTx: nat) {
    forall i :: WalkEnd(minTx) <= i < |c| - 1 ==> c[i].hash in tree || c[i].hash in db
  }

  /** The ancestor can be read as a ledger map and lists none of the incoming Submit txs. */
  ghost predicate Clean(header: Header, incoming: Option<seq<TxId>>) {
    incoming.Some? ==> DistinctLedgers(header) && Disjoint(incoming.value, SubmitIds(header))
  }

  ghost predicate WindowClean(c: seq<Header>, minTx: nat, incoming: Option<seq<TxId>>) {
    forall i :: minTx <= i < |c| ==> Clean(c[i], incoming)
  }

  /** The duplicate check against one ancestor. */
  method CheckAncestor(header: Header, incoming: Option<seq<TxId>>) returns (e: Option<DiscoveryError>)
    ensures e.None? <==> Clean(header, incoming)
    ensures e.Some? ==> Rejects(header, incoming, e.value)
  {
    if incoming.Some? {
      if !DistinctLedgers(header) {
        return Some(MalformedLedgers(header.hash));
      }
      var duplicate := FirstCommon(incoming.value, SubmitIds(header));
      if duplicate.Some? {
        return Some(DuplicateTransaction(duplicate.value));
      }
    }
    return None;
  }

  ghost predicate Rejects(header: Header, incoming: Option<seq<TxId>>, e: DiscoveryError) {
    && incoming.Some?
    && (|| (e == MalformedLedgers(header.hash) && !DistinctLedgers(header))
        || (e.DuplicateTransaction? && IsFirstCommon(incoming.value, SubmitIds(header), e.tx)))
  }

  /** The index covers the pass and meets the by-hash chain at the handoff height. */
  ghost predicate IndexMeets(index: seq<Hash>, c: seq<Header>, reorgFloor: nat, end: nat)
    requires end <= |c|
  {
    reorgFloor < end ==> end <= |index| && index[end - 1] == c[end - 1].hash
  }

  /**
   * The by-hash walk over the tx-anchor window. On success it returns the map
   * of the window and the deepest header it reached.
   */
  method WalkWindow(tree: Store, db: Store, parent: Header, incoming: Option<seq<TxId>>, minTx: nat,
                    ghost c: seq<Header>)
    returns (r: Result<(map<Hash, int>, Header), DiscoveryError>)
    requires Branch(c) && Serves(tree, c) && Serves(db, c)
    requires |c| == parent.height + 1 && c[parent.height] == parent && minTx <= |c|
    ensures r.Ok? ==> WindowReadable(tree, db, c, minTx) && WindowClean(c, minTx, incoming)
                      && MapIs(r.value.0, c, minTx, |c|) && r.value.1 == c[WalkEnd(minTx)]
    ensures r.Err? ==> WalkErrorHasCause(r.error, tree, db, c, incoming, minTx)
  {
    var m: map<Hash, int> := map[];
    var cur := parent;
    while cur.height >= minTx
      invariant cur.height < |c| && cur == c[cur.height] && WalkEnd(minTx) <= cur.height
      invariant MapIs(m, c, cur.height + 1, |c|)
      invariant WindowClean(c, cur.height + 1, incoming)
      invariant forall i :: cur.height <= i < |c| - 1 ==> c[i].hash in tree || c[i].hash in db
      decreases cur.height
    {
      var rejection := CheckAncestor(cur, incoming);
      if rejection.Some? {
        return Err(rejection.value);
      }
      MapExtendDown(m, c, cur.height);
      m := m[cur.hash := cur.height];
      if cur.height == 0 {
        break;
      }
      assert ParentAt(c, cur.height);
      var next := HeaderFromTreeThenDb(tree, db, cur.prev);
      if next.None? {
        return Err(PreviousBlockNotFound(cur.prev));
      }
      cur := next.value;
    }
    return Ok((m, cur));
  }

  lemma MapExtendDown(m: map<Hash, int>, c: seq<Header>, k: nat)
    requires Branch(c) && k < |c| && (MapIs(m, c, k + 1, |c|) || MapIs(m, c, k, |c|))
    ensures MapIs(m[c[k].hash := k], c, k, |c|)
  {
    var m' := m[c[k].hash := k];
    forall a, i ensures At(m', a, i) <==> k <= i < |c| && c[i].hash == a {
      assert At(m', a, i) <==> if a == c[k].hash then i == k else At(m, a, i);
    }
  }

  /** Index entries below `end` are pairwise distinct and not yet in the map. */
  ghost predicate FreshBelow(index: seq<Hash>, base: map<Hash, int>, end: nat) {
    && (forall i :: 0 <= i < |index| && i < end ==> index[i] !in base)
    && (forall i, j :: 0 <= i < j < |index| && j < end ==> index[i] != index[j])
  }

  lemma IndexHashesFresh(u: Store, index: seq<Hash>, c: seq<Header>, base: map<Hash, int>, low: nat, end: nat)
    requires IndexLinked(u, index) && end <= low
    requires forall i :: 0 <= i < |c| ==> c[i].height == i && c[i].hash in u && u[c[i].hash] == c[i]
    requires MapIs(base, c, low, |c|)
    ensures FreshBelow(index, base, end)
  {
    forall a | a in base ensures a in u && u[a].height >= low {
      assert At(base, a, base[a]);
    }
    forall i, j | 0 <= i < j < |index| && j < end ensures index[i] != index[j] {
      assert u[index[i]].height != u[index[j]].height;
    }
  }

  /** A walk error and a clean readable window exclude each other. */
  lemma WalkErrorExcludes(e: DiscoveryError, tree: Store, db: Store, c: seq<Header>, incoming: Option<seq<TxId>>,
                          minTx: nat)
    requires WalkErrorHasCause(e, tree, db, c, incoming, minTx)
    ensures !(WindowReadable(tree, db, c, minTx) && WindowClean(c, minTx, incoming))
  {
    if e.PreviousBlockNotFound? {
    } else {
      var i :| minTx <= i < |c| && Rejects(c[i], incoming, e) && WindowClean(c, i + 1, incoming);
      assert !Clean(c[i], incoming);
    }
  }

  /**
   * The block-index pass: heights `[reorgFloor, last.height)`, each entry taken
   * unverified except the top one, which must be the parent of `last`.
   */
  method ExtendFromIndex(index: seq<Hash>, last: Header, reorgFloor: nat, base: map<Hash, int>)
    returns (r: Result<map<Hash, int>, DiscoveryError>)
    requires FreshBelow(index, base, last.height)
    ensures r.Ok? <==> (reorgFloor < last.height ==> last.height <= |index| && index[last.height - 1] == last.prev)
    ensures r.Ok? ==> MapExtends(r.value, base, index, reorgFloor, last.height)
    ensures r.Err? ==>
      || (r.error.IndexGap? && reorgFloor <= r.error.height < last.height && |index| <= r.error.height)
      || (r.error.IndexHandoffMismatch? && reorgFloor <= r.error.height == last.height - 1 < |index|
          && index[r.error.height] != last.prev)
  {
    var m := base;
    var h := reorgFloor;
    while h < last.height
      invariant h == reorgFloor || reorgFloor < h <= last.height
      invariant MapExtends(m, base, index, reorgFloor, h)
      invariant reorgFloor < h == last.height ==> index[h - 1] == last.prev
    {
      if h >= |index| {
        return Err(IndexGap(h));
      }
      if h == last.height - 1 && index[h] != last.prev {
        return Err(IndexHandoffMismatch(h));
      }
      MapExtendUp(m, base, index, reorgFloor, h, last.height);
      m := m[index[h] := h];
      h := h + 1;
    }
    return Ok(m);
  }

  lemma MapExtendUp(m: map<Hash, int>, base: map<Hash, int>, index: seq<Hash>, lo: nat, h: nat, end: nat)
    requires FreshBelow(index, base, end) && lo <= h < end && h < |index| && MapExtends(m, base, index, lo, h)
    ensures MapExtends(m[index[h] := h], base, index, lo, h + 1)
  {
    var m' := m[index[h] := h];
    forall a, i ensures At(m', a, i) <==> At(base, a, i) || (lo <= i < h + 1 && i < |index| && index[i] == a) {
      assert At(m', a, i) <==> if a == index[h] then i == h else At(m, a, i);
    }
  }

  /**
   * Both passes. They succeed exactly when the window is readable, free of
   * duplicates and meets the index; the map then holds the candidate's own
   * ancestors from the map floor up and nothing else, whatever the two depths
   * are. Every error names its cause.
   */
  method BuildAnchorMap(tree: Store, db: Store, index: seq<Hash>, parent: Header, incoming: Option<seq<TxId>>,
                        txDepth: nat, treeDepth: nat, ghost u: Store)
    returns (r: Result<map<Hash, int>, DiscoveryError>)
    requires Closed(u) && Resolves(u, tree) && Resolves(u, db) && IndexLinked(u, index)
    requires parent.hash in u && u[parent.hash] == parent
    ensures var c := Ancestry(u, parent.hash);
      var minTx, floor := SatSub(|c|, txDepth), SatSub(|c|, treeDepth);
      && (r.Ok? <==> WindowReadable(tree, db, c, minTx) && WindowClean(c, minTx, incoming)
                     && IndexMeets(index, c, floor, WalkEnd(minTx)))
      && (r.Ok? ==> MapIs(r.value, c, MapFloor(|c|, txDepth, treeDepth), |c|))
      && (r.Err? ==> || WalkErrorHasCause(r.error, tree, db, c, incoming, minTx)
                     || IndexErrorHasCause(r.error, index, c, floor, WalkEnd(minTx)))
  {
    ghost var c := Ancestry(u, parent.hash);
    AncestryIsBranch(u, parent.hash);
    var height := parent.height + 1;
    var minTx := SatSub(height, txDepth);
    var walked := WalkWindow(tree, db, parent, incoming, minTx, c);
    if walked.Err? {
      WalkErrorExcludes(walked.error, tree, db, c, incoming, minTx);
      return Err(walked.error);
    }
    r := ExtendWalked(index, walked.value.0, walked.value.1, parent.hash, height, txDepth, treeDepth, u);
  }

  /** The second pass, on what the walk left: the last walked block joins the map when it is above the floor. */
  method ExtendWalked(index: seq<Hash>, walked: map<Hash, int>, last: Header, parent: Hash, height: nat, txDepth: nat,
                      treeDepth: nat, ghost u: Store)
    returns (r: Result<map<Hash, int>, DiscoveryError>)
    requires Closed(u) && IndexLinked(u, index) && parent in u && height == u[parent].height + 1
    requires var c := Ancestry(u, parent);
      && MapIs(walked, c, SatSub(height, txDepth), height) && WalkEnd(SatSub(height, txDepth)) < height
      && last == c[WalkEnd(SatSub(height, txDepth))]
    ensures var c := Ancestry(u, parent);
      var floor, end := SatSub(height, treeDepth), WalkEnd(SatSub(height, txDepth));
      && (r.Ok? <==> IndexMeets(index, c, floor, end))
      && (r.Ok? ==> MapIs(r.value, c, MapFloor(height, txDepth, treeDepth), height))
      && (r.Err? ==> IndexErrorHasCause(r.error, index, c, floor, end))
  {
    ghost var c := Ancestry(u, parent);
    AncestryIsBranch(u, parent);
    var m := walked;
    var reorgFloor := SatSub(height, treeDepth);
    if last.height >= reorgFloor {
      m := m[last.hash := last.height];
    }
    ghost var low := ByHashLow(height, txDepth, treeDepth);
    if last.height >= reorgFloor {
      MapExtendDown(walked, c, last.height);
    }
    assert last.height > 0 ==> ParentAt(c, last.height);
    IndexHashesFresh(u, index, c, m, low, last.height);
    r := ExtendFromIndex(index, last, reorgFloor, m);
    if r.Ok? {
      IndexPassIsAncestry(u, index, parent, r.value, m, low, reorgFloor, last.height);
    }
  }

  /**
   * Below which height the map ends and the on-demand lookup takes over: it covers
   * the anchor window and the reorg window, and no more.
   */
  function MapFloor(height: nat, txDepth: nat, treeDepth: nat): (r: nat)
    ensures r <= height && r <= SatSub(height, txDepth) && r <= SatSub(height, treeDepth)
    ensures r == SatSub(height, txDepth) || r == SatSub(height, treeDepth)
  {
    if treeDepth < txDepth then SatSub(height, txDepth) else SatSub(height, treeDepth)
  }

  /** Where the by-hash part of the map ends, once the deepest header is added. */
  function ByHashLow(height: nat, txDepth: nat, treeDepth: nat): nat {
    var minTx := SatSub(height, txDepth);
    if WalkEnd(minTx) >= SatSub(height, treeDepth) then WalkEnd(minTx) else minTx
  }

  /** Index entries that are branch hashes extend the map downward. */
  lemma ExtendedMapIs(c: seq<Header>, index: seq<Hash>, m: map<Hash, int>, base: map<Hash, int>, floor: nat, end: nat)
    requires floor < end <= |index| && end <= |c|
    requires forall j :: 0 <= j < end ==> index[j] == c[j].hash
    requires MapIs(base, c, end, |c|) && MapExtends(m, base, index, floor, end)
    ensures MapIs(m, c, floor, |c|)
  {
  }

  /** The handoff check turns the unverified index entries into ancestors. */
  lemma IndexPassIsAncestry(u: Store, index: seq<Hash>, prev: Hash, m: map<Hash, int>, base: map<Hash, int>,
                            low: nat, floor: nat, end: nat)
    requires Closed(u) && IndexLinked(u, index) && prev in u
    requires end <= u[prev].height && low <= u[prev].height + 1 && (floor < end ==> low == end)
    requires IndexMeets(index, Ancestry(u, prev), floor, end)
    requires MapIs(base, Ancestry(u, prev), low, u[prev].height + 1) && MapExtends(m, base, index, floor, end)
    ensures MapIs(m, Ancestry(u, prev), if floor < end then floor else low, u[prev].height + 1)
  {
    if floor < end {
      LinkedIndexAgreesBelow(u, index, prev, end - 1);
      ExtendedMapIs(Ancestry(u, prev), index, m, base, floor, end);
    }
  }

  /** `m` is `base` plus the index entries of heights `[lo, hi)`. */
  ghost predicate MapExtends(m: map<Hash, int>, base: map<Hash, int>, index: seq<Hash>, lo: nat, hi: nat) {
    && (lo < hi ==> hi <= |index|)
    && forall a, i :: At(m, a, i) <==> At(base, a, i) || (lo <= i < hi && index[i] == a)
  }

  ghost predicate WalkErrorHasCause(e: DiscoveryError, tree: Store, db: Store, c: seq<Header>,
                                    incoming: Option<seq<TxId>>, minTx: nat)
  {
    if e.PreviousBlockNotFound? then
      e.hash !in tree && e.hash !in db && exists i :: WalkEnd(minTx) <= i < |c| - 1 && c[i].hash == e.hash
    else
      // The newest offending ancestor decides.
      exists i :: minTx <= i < |c| && Rejects(c[i], incoming, e) && WindowClean(c, i + 1, incoming)
  }

  ghost predicate IndexErrorHasCause(e: DiscoveryError, index: seq<Hash>, c: seq<Header>, floor: nat, end: nat) {
    match e
    case IndexGap(h) => floor <= h < end && |index| <= h
    case IndexHandoffMismatch(h) => floor <= h == end - 1 && h < |index| && h < |c| && index[h] != c[h].hash
    case _ => false
  }

  /** `canonical_block_height_by_hash`: the stored height, when the index names that hash there. */
  function CanonicalHeight(db: Store, index: seq<Hash>, hash: Hash): Option<nat> {
    if hash in db && db[hash].height < |index| && index[db[hash].height] == hash
    then Some(db[hash].height) else None
  }

  /** `anchor_valid_for`. */
  predicate AnchorValidFor(m: map<Hash, int>, db: Store, index: seq<Hash>, mapFloor: nat, anchor: Hash, min: nat) {
    if anchor in m then m[anchor] >= min
    else
      var resolved := CanonicalHeight(db, index, anchor);
      resolved.Some? && resolved.value >= min && resolved.value < mapFloor
  }

  /**
   * Below `floor` no fork survives: the migrated chain reaches the floor, is
   * the candidate's ancestry there, and its headers are stored.
   */
  ghost predicate FinalizedBelow(u: Store, db: Store, index: seq<Hash>, prev: Hash, floor: nat)
    requires Closed(u) && prev in u
  {
    && IndexLinked(u, index)
    && floor <= |index|
    && floor <= u[prev].height + 1
    && (floor > 0 ==> index[floor - 1] == Ancestry(u, prev)[floor - 1].hash)
    && forall i :: 0 <= i < floor ==> index[i] in db
  }

  /** A map key is the ancestor at the height it is stored with. */
  lemma KeyIsAncestor(u: Store, m: map<Hash, int>, prev: Hash, floor: nat, a: Hash)
    requires Closed(u) && prev in u && MapIs(m, Ancestry(u, prev), floor, u[prev].height + 1) && a in m
    ensures floor <= m[a] <= u[prev].height && Ancestry(u, prev)[m[a]].hash == a
  {
    assert At(m, a, m[a]);
  }

  /** An index entry below the floor is the ancestor at its height, and stored. */
  lemma EntryIsAncestor(u: Store, db: Store, index: seq<Hash>, prev: Hash, floor: nat, i: nat)
    requires Closed(u) && prev in u && FinalizedBelow(u, db, index, prev, floor) && i < floor
    ensures index[i] == Ancestry(u, prev)[i].hash && index[i] in db
  {
    LinkedIndexAgreesBelow(u, index, prev, floor - 1);
  }

  lemma ValidAnchorIsAncestor(u: Store, m: map<Hash, int>, db: Store, index: seq<Hash>, prev: Hash, mapFloor: nat,
                              anchor: Hash, min: nat)
    requires Closed(u) && prev in u && MapIs(m, Ancestry(u, prev), mapFloor, u[prev].height + 1)
    requires FinalizedBelow(u, db, index, prev, mapFloor) && AnchorValidFor(m, db, index, mapFloor, anchor, min)
    ensures IsAncestorFrom(u, prev, anchor, min)
  {
    if anchor in m {
      KeyIsAncestor(u, m, prev, mapFloor, anchor);
    } else {
      EntryIsAncestor(u, db, index, prev, mapFloor, db[anchor].height);
    }
  }

  lemma AncestorIsValidAnchor(u: Store, m: map<Hash, int>, db: Store, index: seq<Hash>, prev: Hash, mapFloor: nat,
                              anchor: Hash, min: nat)
    requires Closed(u) && prev in u && MapIs(m, Ancestry(u, prev), mapFloor, u[prev].height + 1)
    requires Resolves(u, db) && FinalizedBelow(u, db, index, prev, mapFloor) && IsAncestorFrom(u, prev, anchor, min)
    ensures AnchorValidFor(m, db, index, mapFloor, anchor, min)
  {
    var c := Ancestry(u, prev);
    var i :| min <= i <= u[prev].height && c[i].hash == anchor;
    if mapFloor <= i {
      assert At(m, anchor, i);
    } else {
      EntryIsAncestor(u, db, index, prev, mapFloor, i);
      assert u[anchor] == c[i] && db[anchor] == u[anchor];
      if anchor in m {
        KeyIsAncestor(u, m, prev, mapFloor, anchor);
        assert u[anchor] == c[m[anchor]];
      }
    }
  }

  /** The map plus the on-demand lookup answer as a scan of the whole ancestry would. */
  lemma AnchorCheckIsAncestry(u: Store, m: map<Hash, int>, db: Store, index: seq<Hash>, prev: Hash, mapFloor: nat,
                              anchor: Hash, min: nat)
    requires Closed(u) && prev in u && MapIs(m, Ancestry(u, prev), mapFloor, u[prev].height + 1)
    requires Resolves(u, db) && FinalizedBelow(u, db, index, prev, mapFloor)
    ensures AnchorValidFor(m, db, index, mapFloor, anchor, min) <==> IsAncestorFrom(u, prev, anchor, min)
  {
    if AnchorValidFor(m, db, index, mapFloor, anchor, min) {
      ValidAnchorIsAncestor(u, m, db, index, prev, mapFloor, anchor, min);
    }
    if IsAncestorFrom(u, prev, anchor, min) {
      AncestorIsValidAnchor(u, m, db, index, prev, mapFloor, anchor, min);
    }
  }
}
