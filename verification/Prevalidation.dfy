// The anchor and replay part of `block_discovered` as one decision, and what
// it buys over whole chains: no Submit tx and no commitment is ever included
// twice, although only windows of the ancestry are read.

module Prevalidation {
  import opened Chain
  import opened BlockAncestry
  import opened BlockDiscovery
  import opened MetadataRows
  import opened CommitmentDedup
  import opened Outcome

  datatype AnchoredTx = AnchoredTx(id: TxId, anchor: Hash)

  /** A block under validation with the anchors its body carries. */
  datatype Candidate = Candidate(
    header: Header,
    submit: seq<AnchoredTx>,
    oneYear: seq<AnchoredTx>,
    thirtyDay: seq<AnchoredTx>,
    commitments: seq<AnchoredTx>,
    proofAnchors: seq<Hash>
  )

  datatype Depths = Depths(tx: nat, commitment: nat, proof: nat, tree: nat, epochLength: nat)

  /** What the node reads: block tree, header table, block index, commitment rows. */
  datatype View = View(tree: Store, db: Store, index: seq<Hash>, commits: CommitRows)

  function AnchorsOf(txs: seq<AnchoredTx>): (r: seq<Hash>)
    ensures |r| == |txs| && forall i :: 0 <= i < |r| ==> r[i] == txs[i].anchor
  {
    seq(|txs|, i requires 0 <= i < |txs| => txs[i].anchor)
  }

  function IdsOf(txs: seq<AnchoredTx>): (r: seq<TxId>)
    ensures |r| == |txs| && forall i :: 0 <= i < |r| ==> r[i] == txs[i].id
  {
    seq(|txs|, i requires 0 <= i < |txs| => txs[i].id)
  }

  function Incoming(header: Header): Option<seq<TxId>> {
    if HasSubmit(header) then Some(SubmitIds(header)) else None
  }

  // ---- The rules, stated on the whole ancestry ----

  ghost predicate AllAncestors(u: Store, prev: Hash, anchors: seq<Hash>, min: nat)
    requires Closed(u) && prev in u
  {
    forall k :: 0 <= k < |anchors| ==> IsAncestorFrom(u, prev, anchors[k], min)
  }

  ghost predicate ExtendsParent(u: Store, header: Header) {
    header.prev in u && header.height == u[header.prev].height + 1
  }

  /** Each tx of the list is anchored to an ancestor at or above `min`. */
  ghost predicate Anchored(u: Store, prev: Hash, txs: seq<AnchoredTx>, min: nat)
    requires Closed(u) && prev in u
  {
    forall k :: 0 <= k < |txs| ==> IsAncestorFrom(u, prev, txs[k].anchor, min)
  }

  /** Entry `k` repeats no earlier entry of the list and no listing of the ancestry. */
  ghost predicate NewAt(c: seq<Header>, txs: seq<AnchoredTx>, k: nat)
    requires k < |txs|
  {
    && (forall j :: 0 <= j < k ==> txs[j].id != txs[k].id)
    && (forall i :: 0 <= i < |c| ==> txs[k].id !in c[i].commitments)
  }

  ghost predicate NoneReplayed(c: seq<Header>, txs: seq<AnchoredTx>) {
    forall k :: 0 <= k < |txs| ==> NewAt(c, txs, k)
  }

  /** Anchors and novelty of a non-epoch block's commitments. */
  ghost predicate CommitmentRule(u: Store, cand: Candidate, d: Depths)
    requires Closed(u) && ExtendsParent(u, cand.header)
  {
    && Anchored(u, cand.header.prev, cand.commitments, SatSub(cand.header.height, d.commitment))
    && NoneReplayed(Ancestry(u, cand.header.prev), cand.commitments)
  }

  lemma AnchoredIsPointwise(u: Store, prev: Hash, txs: seq<AnchoredTx>, min: nat)
    requires Closed(u) && prev in u
    ensures Anchored(u, prev, txs, min) <==> AllAncestors(u, prev, AnchorsOf(txs), min)
  {
    var anchors := AnchorsOf(txs);
    if AllAncestors(u, prev, anchors, min) {
      forall k | 0 <= k < |txs| ensures IsAncestorFrom(u, prev, txs[k].anchor, min) {
        assert anchors[k] == txs[k].anchor;
      }
    }
  }

  /** What the replay check answers for a list of ids, said of the txs themselves. */
  lemma ReplayIsPointwise(c: seq<Header>, txs: seq<AnchoredTx>)
    ensures NoneReplayed(c, txs) <==> IsFirstReplay(c, IdsOf(txs), None)
  {
    var ids := IdsOf(txs);
    forall k | 0 <= k < |txs| ensures NewAt(c, txs, k) <==> !IsReplay(c, ids, k) {
      assert ids[k] == txs[k].id;
      assert (exists j :: 0 <= j < k && txs[j].id == txs[k].id) <==> ids[k] in ids[..k] by {
        assert forall j :: 0 <= j < k ==> ids[..k][j] == txs[j].id;
      }
    }
  }

  /** Every rule of the check holds of the candidate and its true ancestry. */
  ghost predicate Accepted(u: Store, cand: Candidate, d: Depths)
    requires Closed(u)
  {
    ExtendsParent(u, cand.header) && DistinctLedgers(cand.header) && SubmitRule(u, cand, d) && MapRules(u, cand, d)
  }

  /** No Submit tx of the candidate repeats in the window below it. */
  ghost predicate SubmitRule(u: Store, cand: Candidate, d: Depths)
    requires Closed(u) && ExtendsParent(u, cand.header)
  {
    HasSubmit(cand.header) ==>
      NoSubmitRepeats(Ancestry(u, cand.header.prev), SatSub(cand.header.height, d.tx), SubmitIds(cand.header))
  }

  /**
   * Said of the ledger entries: no tx of the candidate's Submit entry is in the
   * Submit entry of an ancestor in the window.
   */
  lemma AcceptedSubmitsAreNew(u: Store, cand: Candidate, d: Depths, k: nat, i: nat, l: nat, t: TxId)
    requires Closed(u) && Accepted(u, cand, d) && k < |cand.header.ledgers| && i < |Ancestry(u, cand.header.prev)|
    requires SatSub(cand.header.height, d.tx) <= i && DistinctLedgers(Ancestry(u, cand.header.prev)[i])
    requires l < |Ancestry(u, cand.header.prev)[i].ledgers|
    requires cand.header.ledgers[k].ledger == Submit && t in cand.header.ledgers[k].txIds
    requires Ancestry(u, cand.header.prev)[i].ledgers[l].ledger == Submit
    ensures t !in Ancestry(u, cand.header.prev)[i].ledgers[l].txIds
  {
    var above := Ancestry(u, cand.header.prev)[i];
    FirstEntryIsOwn(cand.header.ledgers, k);
    FirstEntryIsOwn(above.ledgers, l);
    assert Disjoint(SubmitIds(cand.header), SubmitIds(above));
  }

  /** The anchor rules and the commitment replay rule. */
  ghost predicate MapRules(u: Store, cand: Candidate, d: Depths)
    requires Closed(u) && ExtendsParent(u, cand.header)
  {
    var prev, height := cand.header.prev, cand.header.height;
    var minTx := SatSub(height, d.tx);
    && Anchored(u, prev, cand.submit, minTx)
    && Anchored(u, prev, cand.oneYear, minTx)
    && Anchored(u, prev, cand.thirtyDay, minTx)
    && (!IsNonGenesisEpoch(height, d.epochLength) ==> CommitmentRule(u, cand, d))
    && AllAncestors(u, prev, cand.proofAnchors, SatSub(height, d.proof))
  }

  ghost predicate NoSubmitRepeats(c: seq<Header>, minTx: nat, ids: seq<TxId>) {
    forall i :: minTx <= i < |c| ==> Disjoint(ids, SubmitIds(c[i]))
  }

  /** Standing facts of the node's stores, for a candidate on top of `prev`. */
  ghost predicate ViewFits(u: Store, v: View, prev: Hash, d: Depths)
    requires Closed(u) && prev in u
  {
    && FinalizedBelow(u, v.db, v.index, prev, MapFloor(u[prev].height + 1, d.tx, d.tree))
    && Finalized(u, v.db, v.index, v.commits, prev, d.tree, d.epochLength)
  }

  ghost predicate StoresSound(u: Store, v: View) {
    Closed(u) && Resolves(u, v.tree) && Resolves(u, v.db) && NoReentry(v.tree, v.db) && IndexLinked(u, v.index)
  }

  /** Nothing the check has to read is missing, malformed or disagreeing at the handoff. */
  ghost predicate ViewComplete(u: Store, v: View, cand: Candidate, d: Depths)
    requires Closed(u) && ExtendsParent(u, cand.header)
  {
    var prev, height := cand.header.prev, cand.header.height;
    var c := Ancestry(u, prev);
    var minTx := SatSub(height, d.tx);
    && (prev in v.tree || prev in v.db)
    && WindowReadable(v.tree, v.db, c, minTx)
    && (forall k, i :: 0 <= k < |cand.header.ledgers| && cand.header.ledgers[k].ledger == Submit && minTx <= i < |c| ==>
          DistinctLedgers(c[i]))
    && IndexMeets(v.index, c, SatSub(height, d.tree), WalkEnd(minTx))
    && RangeResolves(u, Merged(v.tree, v.db), prev, SatSub(height, d.tree))
  }

  // ---- The check ----

  /** One pass of anchor checks; reports the first anchor that is not valid. */
  method FirstInvalidAnchor(m: map<Hash, int>, v: View, mapFloor: nat, anchors: seq<Hash>, min: nat,
                            ghost u: Store, ghost prev: Hash)
    returns (r: Option<Hash>)
    requires StoresSound(u, v) && prev in u && FinalizedBelow(u, v.db, v.index, prev, mapFloor)
    requires MapIs(m, Ancestry(u, prev), mapFloor, u[prev].height + 1)
    ensures r.None? <==> AllAncestors(u, prev, anchors, min)
    ensures r.Some? ==> exists k :: 0 <= k < |anchors| && anchors[k] == r.value
                                    && !IsAncestorFrom(u, prev, r.value, min)
                                    && AllAncestors(u, prev, anchors[..k], min)
  {
    for k := 0 to |anchors|
      invariant AllAncestors(u, prev, anchors[..k], min)
    {
      AnchorCheckIsAncestry(u, m, v.db, v.index, prev, mapFloor, anchors[k], min);
      if !AnchorValidFor(m, v.db, v.index, mapFloor, anchors[k], min) {
        return Some(anchors[k]);
      }
      assert anchors[..k + 1] == anchors[..k] + [anchors[k]];
    }
    assert anchors[..|anchors|] == anchors;
    return None;
  }

  /** Anchor and replay rules of a non-epoch block's commitments. */
  method CheckCommitments(m: map<Hash, int>, v: View, mapFloor: nat, cand: Candidate, d: Depths, ghost u: Store)
    returns (r: Option<DiscoveryError>)
    requires StoresSound(u, v) && ExtendsParent(u, cand.header) && ViewFits(u, v, cand.header.prev, d)
    requires mapFloor == MapFloor(cand.header.height, d.tx, d.tree)
    requires MapIs(m, Ancestry(u, cand.header.prev), mapFloor, u[cand.header.prev].height + 1)
    ensures r.None? ==> CommitmentRule(u, cand, d)
    ensures r.Some? ==> r.value.InvalidAnchor? || r.value.DuplicateTransaction? || r.value.LookupFailed?
    ensures r.Some? && r.value != LookupFailed ==> !CommitmentRule(u, cand, d)
    ensures r == Some(LookupFailed) ==>
      !RangeResolves(u, Merged(v.tree, v.db), cand.header.prev, SatSub(cand.header.height, d.tree))
  {
    var anchors := AnchorsOf(cand.commitments);
    AnchoredIsPointwise(u, cand.header.prev, cand.commitments, SatSub(cand.header.height, d.commitment));
    ReplayIsPointwise(Ancestry(u, cand.header.prev), cand.commitments);
    var bad := FirstInvalidAnchor(m, v, mapFloor, anchors, SatSub(cand.header.height, d.commitment), u,
                                  cand.header.prev);
    if bad.Some? {
      return Some(InvalidAnchor(bad.value));
    }
    var replay := FindReplayedCommitment(v.tree, v.db, v.index, v.commits, cand.header, IdsOf(cand.commitments),
                                         d.tree, u, d.epochLength);
    if replay.Err? {
      return Some(LookupFailed);
    }
    return if replay.value.Some? then Some(DuplicateTransaction(replay.value.value)) else None;
  }

  /**
   * `block_discovered`, header height check through ingress-proof anchors.
   * What it accepts obeys every rule on its whole ancestry; and when the view
   * is complete it accepts every block that does.
   */
  method BlockDiscovered(v: View, cand: Candidate, d: Depths, ghost u: Store) returns (r: Option<DiscoveryError>)
    requires StoresSound(u, v)
    requires cand.header.prev in u ==> ViewFits(u, v, cand.header.prev, d)
    ensures r.None? ==> Accepted(u, cand, d)
    ensures Accepted(u, cand, d) && ViewComplete(u, v, cand, d) ==> r.None?
    ensures r.Some? && r.value.InvalidBlockHeight? ==>
      && cand.header.prev in u && r.value.expected == u[cand.header.prev].height + 1
      && r.value.got == cand.header.height != r.value.expected
  {
    var parent := HeaderFromTreeThenDb(v.tree, v.db, cand.header.prev);
    if parent.None? {
      return Some(PreviousBlockNotFound(cand.header.prev));
    }
    if !DistinctLedgers(cand.header) {
      return Some(MalformedLedgers(cand.header.hash));
    }
    if cand.header.height != parent.value.height + 1 {
      return Some(InvalidBlockHeight(parent.value.height + 1, cand.header.height));
    }
    r := CheckOnParent(v, cand, parent.value, d, u);
  }

  /** The walk, the index pass and every rule, once the parent is resolved and the height checked. */
  method CheckOnParent(v: View, cand: Candidate, parent: Header, d: Depths, ghost u: Store)
    returns (r: Option<DiscoveryError>)
    requires StoresSound(u, v) && ExtendsParent(u, cand.header) && ViewFits(u, v, cand.header.prev, d)
    requires DistinctLedgers(cand.header) && u[cand.header.prev] == parent && parent.hash == cand.header.prev
    ensures r.Some? ==> !r.value.InvalidBlockHeight?
    ensures r.None? ==> Accepted(u, cand, d)
    ensures Accepted(u, cand, d) && ViewComplete(u, v, cand, d) ==> r.None?
  {
    var built := BuildFor(v, cand, parent, d, u);
    if built.Err? {
      return Some(built.error);
    }
    r := CheckRules(built.value, v, cand, d, u);
  }

  /** The anchor map for a candidate: with it the Submit rule holds, and a complete view that obeys the rule has one. */
  method BuildFor(v: View, cand: Candidate, parent: Header, d: Depths, ghost u: Store)
    returns (r: Result<map<Hash, int>, DiscoveryError>)
    requires StoresSound(u, v) && ExtendsParent(u, cand.header)
    requires u[cand.header.prev] == parent && parent.hash == cand.header.prev
    ensures r.Ok? ==> SubmitRule(u, cand, d)
    ensures r.Ok? ==> MapIs(r.value, Ancestry(u, cand.header.prev), MapFloor(cand.header.height, d.tx, d.tree),
                            u[cand.header.prev].height + 1)
    ensures r.Err? ==> !r.error.InvalidBlockHeight? && (!SubmitRule(u, cand, d) || !ViewComplete(u, v, cand, d))
  {
    r := BuildAnchorMap(v.tree, v.db, v.index, parent, Incoming(cand.header), d.tx, d.tree, u);
    CleanIsSubmitRule(u, v, cand, d);
  }

  /** A clean window is the Submit rule; over well-formed ancestors the converse holds too. */
  lemma CleanIsSubmitRule(u: Store, v: View, cand: Candidate, d: Depths)
    requires Closed(u) && ExtendsParent(u, cand.header)
    ensures var c, minTx := Ancestry(u, cand.header.prev), SatSub(cand.header.height, d.tx);
      var clean := WindowClean(c, minTx, Incoming(cand.header));
      && (clean ==> SubmitRule(u, cand, d))
      && (SubmitRule(u, cand, d) && ViewComplete(u, v, cand, d) ==> clean)
  {
    var c := Ancestry(u, cand.header.prev);
    var minTx := SatSub(cand.header.height, d.tx);
    if WindowClean(c, minTx, Incoming(cand.header)) && HasSubmit(cand.header) {
      forall i | minTx <= i < |c| ensures Disjoint(SubmitIds(cand.header), SubmitIds(c[i])) {
        assert Clean(c[i], Incoming(cand.header));
      }
    }
  }

  /** The checks that use the finished anchor map, in source order. */
  method CheckRules(m: map<Hash, int>, v: View, cand: Candidate, d: Depths, ghost u: Store)
    returns (r: Option<DiscoveryError>)
    requires StoresSound(u, v) && ExtendsParent(u, cand.header) && ViewFits(u, v, cand.header.prev, d)
    requires MapIs(m, Ancestry(u, cand.header.prev), MapFloor(cand.header.height, d.tx, d.tree),
                   u[cand.header.prev].height + 1)
    ensures r.None? ==> MapRules(u, cand, d)
    ensures r.Some? ==> !r.value.InvalidBlockHeight?
    ensures r.Some? && MapRules(u, cand, d) ==>
      !RangeResolves(u, Merged(v.tree, v.db), cand.header.prev, SatSub(cand.header.height, d.tree))
  {
    var height := cand.header.height;
    var mapFloor := MapFloor(height, d.tx, d.tree);
    var minTx := SatSub(height, d.tx);
    ghost var prev := cand.header.prev;
    AnchoredIsPointwise(u, prev, cand.submit, minTx);
    var bad := FirstInvalidAnchor(m, v, mapFloor, AnchorsOf(cand.submit), minTx, u, prev);
    if bad.Some? {
      return Some(InvalidAnchor(bad.value));
    }
    AnchoredIsPointwise(u, prev, cand.oneYear, minTx);
    bad := FirstInvalidAnchor(m, v, mapFloor, AnchorsOf(cand.oneYear), minTx, u, prev);
    if bad.Some? {
      return Some(InvalidAnchor(bad.value));
    }
    AnchoredIsPointwise(u, prev, cand.thirtyDay, minTx);
    bad := FirstInvalidAnchor(m, v, mapFloor, AnchorsOf(cand.thirtyDay), minTx, u, prev);
    if bad.Some? {
      return Some(InvalidAnchor(bad.value));
    }
    if !IsNonGenesisEpoch(height, d.epochLength) {
      var rejected := CheckCommitments(m, v, mapFloor, cand, d, u);
      if rejected.Some? {
        return rejected;
      }
    }
    bad := FirstInvalidAnchor(m, v, mapFloor, cand.proofAnchors, SatSub(height, d.proof), u, prev);
    return if bad.Some? then Some(InvalidAnchor(bad.value)) else None;
  }

  // ---- Whole chains ----

  /**
   * A chain whose non-genesis blocks all passed the check, with the bodies they
   * passed with. The tx id fixes the anchor, and genesis carries no Submit tx.
   */
  ghost predicate AcceptedChain(u: Store, tip: Hash, bodies: seq<Candidate>, d: Depths) {
    && Closed(u) && tip in u && |bodies| == u[tip].height + 1
    && (forall i :: 0 <= i < |bodies| ==> BodyMatches(bodies[i], Ancestry(u, tip)[i]))
    && (forall i :: 0 < i < |bodies| ==> Accepted(u, bodies[i], d))
    && SubmitIds(Ancestry(u, tip)[0]) == []
    && (forall i, j, k, l :: 0 <= i < |bodies| && 0 <= j < |bodies| && 0 <= k < |bodies[i].submit|
                             && 0 <= l < |bodies[j].submit| && bodies[i].submit[k].id == bodies[j].submit[l].id ==>
          bodies[i].submit[k].anchor == bodies[j].submit[l].anchor)
  }

  ghost predicate BodyMatches(cand: Candidate, header: Header) {
    && cand.header == header
    && IdsOf(cand.submit) == SubmitIds(header)
    && IdsOf(cand.commitments) == header.commitments
  }

  /** The ancestry of a chain block's parent is the chain below it. */
  lemma ParentAncestry(u: Store, tip: Hash, j: nat)
    requires Closed(u) && tip in u && 0 < j <= u[tip].height
    ensures var c := Ancestry(u, tip); c[j].prev in u && Ancestry(u, c[j].prev) == c[..j]
  {
    assert ParentAt(Ancestry(u, tip), j);
    AncestryPrefix(u, tip, j - 1);
  }

  /** A Submit tx of a chain block is anchored to a chain block strictly below and inside the window. */
  lemma SubmitAnchorHeight(u: Store, tip: Hash, bodies: seq<Candidate>, d: Depths, j: nat, t: TxId)
    returns (k: nat, l: nat)
    requires AcceptedChain(u, tip, bodies, d) && 0 < j < |bodies| && t in SubmitIds(Ancestry(u, tip)[j])
    ensures l < |bodies[j].submit| && bodies[j].submit[l].id == t
    ensures SatSub(j, d.tx) <= k < j && Ancestry(u, tip)[k].hash == bodies[j].submit[l].anchor
  {
    var c := Ancestry(u, tip);
    ParentAncestry(u, tip, j);
    assert BodyMatches(bodies[j], c[j]);
    l :| 0 <= l < |SubmitIds(c[j])| && SubmitIds(c[j])[l] == t;
    assert IdsOf(bodies[j].submit)[l] == t;
    assert AnchorsOf(bodies[j].submit)[l] == bodies[j].submit[l].anchor;
    assert IsAncestorFrom(u, c[j].prev, bodies[j].submit[l].anchor, SatSub(j, d.tx));
    k :| SatSub(j, d.tx) <= k <= u[c[j].prev].height && Ancestry(u, c[j].prev)[k].hash == bodies[j].submit[l].anchor;
  }

  /**
   * No Submit tx appears in two different blocks of an accepted chain: the
   * earlier inclusion lies above the tx's anchor, the anchor inside the later
   * block's window, so the window of the later block saw it.
   */
  lemma SubmitTxIncludedOnce(u: Store, tip: Hash, bodies: seq<Candidate>, d: Depths, i: nat, j: nat, t: TxId)
    requires AcceptedChain(u, tip, bodies, d) && i < j < |bodies|
    requires t in SubmitIds(Ancestry(u, tip)[j])
    ensures t !in SubmitIds(Ancestry(u, tip)[i])
  {
    if t in SubmitIds(Ancestry(u, tip)[i]) {
      var ki, li := SubmitAnchorHeight(u, tip, bodies, d, i, t);
      var kj, lj := SubmitAnchorHeight(u, tip, bodies, d, j, t);
      AncestorsDistinct(u, tip, ki, kj);
    }
    if SatSub(j, d.tx) <= i {
      WindowExcludes(u, tip, bodies, d, i, j, t);
    }
  }

  lemma WindowExcludes(u: Store, tip: Hash, bodies: seq<Candidate>, d: Depths, i: nat, j: nat, t: TxId)
    requires AcceptedChain(u, tip, bodies, d) && SatSub(j, d.tx) <= i < j < |bodies|
    requires t in SubmitIds(Ancestry(u, tip)[j])
    ensures t !in SubmitIds(Ancestry(u, tip)[i])
  {
    var c := Ancestry(u, tip);
    SubmitListed(c[j], t);
    ParentAncestry(u, tip, j);
    assert BodyMatches(bodies[j], c[j]) && Accepted(u, bodies[j], d);
    assert c[..j][i] == c[i];
    assert Disjoint(SubmitIds(c[j]), SubmitIds(c[i]));
  }

  lemma AncestorsDistinct(u: Store, tip: Hash, i: nat, j: nat)
    requires Closed(u) && tip in u && i <= u[tip].height && j <= u[tip].height
    requires Ancestry(u, tip)[i].hash == Ancestry(u, tip)[j].hash
    ensures i == j
  {
    AncestryIsBranch(u, tip);
  }

  /** A listed Submit tx means a Submit ledger entry. */
  lemma SubmitListed(header: Header, t: TxId)
    requires t in SubmitIds(header)
    ensures HasSubmit(header)
  {
    LedgerListed(header.ledgers, t);
  }

  lemma {:induction false} LedgerListed(entries: seq<LedgerEntry>, t: TxId)
    requires t in LedgerTxIds(entries, Submit)
    ensures exists i :: 0 <= i < |entries| && entries[i].ledger == Submit
  {
    if entries[0].ledger != Submit {
      LedgerListed(entries[1..], t);
      var i :| 0 <= i < |entries[1..]| && entries[1..][i].ledger == Submit;
      assert entries[i + 1].ledger == Submit;
    }
  }

  /**
   * No commitment is first-included twice on an accepted chain, at any distance:
   * the uniqueness that keeps the metadata rows exact.
   */
  lemma CommitmentIncludedOnce(u: Store, tip: Hash, bodies: seq<Candidate>, d: Depths)
    requires AcceptedChain(u, tip, bodies, d)
    ensures Once(Ancestry(u, tip), Commit(d.epochLength))
  {
    var c := Ancestry(u, tip);
    var kind := Commit(d.epochLength);
    forall i, j, t | ListedAt(c, kind, i, t) && ListedAt(c, kind, j, t) ensures i == j {
      if i < j {
        CommitmentNotAbove(u, tip, bodies, d, i, j, t);
      } else if j < i {
        CommitmentNotAbove(u, tip, bodies, d, j, i, t);
      }
    }
  }

  lemma CommitmentNotAbove(u: Store, tip: Hash, bodies: seq<Candidate>, d: Depths, i: nat, j: nat, t: TxId)
    requires AcceptedChain(u, tip, bodies, d) && i < j < |bodies|
    requires t in Ancestry(u, tip)[i].commitments
    ensures t !in OwnedCommitments(Ancestry(u, tip)[j], d.epochLength)
  {
    var c := Ancestry(u, tip);
    var ids := IdsOf(bodies[j].commitments);
    ParentAncestry(u, tip, j);
    assert BodyMatches(bodies[j], c[j]) && Accepted(u, bodies[j], d);
    assert c[..j][i] == c[i];
    if !IsNonGenesisEpoch(j, d.epochLength) {
      forall k | 0 <= k < |ids| ensures ids[k] != t {
        assert NewAt(c[..j], bodies[j].commitments, k);
      }
    }
  }

  // ---- What the rows need of a branch ----

  /** The ledgers of a block before Cascade: Publish and Submit, in this order. */
  ghost predicate TwoLedgers(b: Header) {
    |b.ledgers| == 2 && b.ledgers[0].ledger == Publish && b.ledgers[1].ledger == Submit
  }

  lemma TermIsSubmit(b: Header, t: TxId)
    requires TwoLedgers(b)
    ensures t in TermIds(b.ledgers) <==> t in SubmitIds(b)
  {
    assert LedgerTxIds(b.ledgers[1..], Submit) == b.ledgers[1..][0].txIds;
    assert SubmitIds(b) == b.ledgers[1].txIds;
  }

  /** No data tx is included twice on an accepted chain of such blocks. */
  lemma TxIncludedOnce(u: Store, tip: Hash, bodies: seq<Candidate>, d: Depths)
    requires AcceptedChain(u, tip, bodies, d)
    requires forall i :: 0 <= i < |bodies| ==> TwoLedgers(Ancestry(u, tip)[i])
    ensures Once(Ancestry(u, tip), Include)
  {
    var c := Ancestry(u, tip);
    forall i, j, t | ListedAt(c, Include, i, t) && ListedAt(c, Include, j, t) ensures i == j {
      TermIsSubmit(c[i], t);
      TermIsSubmit(c[j], t);
      if i < j {
        SubmitTxIncludedOnce(u, tip, bodies, d, i, j, t);
      } else if j < i {
        SubmitTxIncludedOnce(u, tip, bodies, d, j, i, t);
      }
    }
  }

  /**
   * So the windowed checks grant what the metadata rows need of a branch, up to
   * the rule for promotions.
   */
  lemma AcceptedChainIsUnique(u: Store, tip: Hash, bodies: seq<Candidate>, d: Depths)
    requires AcceptedChain(u, tip, bodies, d)
    requires forall i :: 0 <= i < |bodies| ==> TwoLedgers(Ancestry(u, tip)[i])
    ensures UniqueBranch(Ancestry(u, tip), d.epochLength) <==>
      && Once(Ancestry(u, tip), Promote)
      && forall i, t :: ListedAt(Ancestry(u, tip), Promote, i, t) ==> IncludedBy(Ancestry(u, tip), i, t)
  {
    TxIncludedOnce(u, tip, bodies, d);
    CommitmentIncludedOnce(u, tip, bodies, d);
  }
}
