// Block headers, header stores and ancestry: the simple reference that every
// windowed or cached view of the node is compared with.

module Chain {
  type Hash = int
  type TxId = int

  datatype DataLedger = Publish | Submit | OneYear | ThirtyDay

  datatype LedgerEntry = LedgerEntry(ledger: DataLedger, txIds: seq<TxId>)

  datatype Header = Header(
    hash: Hash,
    prev: Hash,
    height: nat,
    ledgers: seq<LedgerEntry>,
    commitments: seq<TxId>
  )

  /** Headers by block hash: the block tree, the header table, or all blocks. */
  type Store = map<Hash, Header>

  /** Saturating subtraction on unsigned heights. */
  function SatSub(a: nat, b: nat): (r: nat)
    ensures r <= a
    ensures b <= a ==> r + b == a
    ensures a < b ==> r == 0
  {
    if b <= a then a - b else 0
  }

  function Max(a: nat, b: nat): (r: nat)
    ensures a <= r && b <= r && (r == a || r == b)
  {
    if a < b then b else a
  }

  function Min(a: nat, b: nat): (r: nat)
    ensures r <= a && r <= b && (r == a || r == b)
  {
    if a < b then a else b
  }

  /**
   * All valid blocks: keyed by their own hash, and each one above genesis has
   * its parent present at exactly one height below.
   */
  ghost predicate Closed(u: Store) {
    && (forall h :: h in u ==> u[h].hash == h)
    && (forall h {:trigger ParentStored(u, h)} :: h in u ==> ParentStored(u, h))
  }

  ghost predicate ParentStored(u: Store, h: Hash)
    requires h in u
  {
    u[h].height > 0 ==> u[h].prev in u && u[u[h].prev].height == u[h].height - 1
  }

  /** Every header the store holds is the block of that hash. */
  ghost predicate Resolves(u: Store, store: Store) {
    forall h :: h in store ==> h in u && store[h] == u[h]
  }

  /** A view that answers from `tree` first and from `db` otherwise. */
  function Merged(tree: Store, db: Store): (m: Store)
    ensures m.Keys == tree.Keys + db.Keys
    ensures forall h :: h in m ==> m[h] == if h in tree then tree[h] else db[h]
  {
    db + tree
  }

  /** The block at `i` names the one below as its parent. */
  ghost predicate ParentAt(c: seq<Header>, i: nat)
    requires 0 < i < |c|
  {
    c[i].prev == c[i - 1].hash
  }

  /** The blocks from genesis up to and including `h`, oldest first. */
  ghost function Ancestry(u: Store, h: Hash): (c: seq<Header>)
    requires Closed(u) && h in u
    ensures |c| == u[h].height + 1 && c[u[h].height] == u[h]
    ensures forall i :: 0 <= i < |c| ==> c[i].height == i && c[i].hash in u && u[c[i].hash] == c[i]
    ensures forall i :: 0 < i < |c| ==> ParentAt(c, i)
    decreases u[h].height
  {
    assert ParentStored(u, h);
    if u[h].height == 0 then [u[h]]
    else
      var below := Ancestry(u, u[h].prev);
      var c := below + [u[h]];
      assert forall i :: 0 < i < |below| ==> ParentAt(below, i) ==> ParentAt(c, i);
      c
  }

  /** The ancestry of an ancestor is a prefix of the ancestry. */
  lemma {:induction false} AncestryPrefix(u: Store, h: Hash, k: nat)
    requires Closed(u) && h in u && k <= u[h].height
    ensures Ancestry(u, Ancestry(u, h)[k].hash) == Ancestry(u, h)[..k + 1]
    decreases u[h].height
  {
    var c := Ancestry(u, h);
    if k == u[h].height {
      assert c[..k + 1] == c;
    } else {
      assert ParentStored(u, h);
      AncestryPrefix(u, u[h].prev, k);
      assert c[..k + 1] == Ancestry(u, u[h].prev)[..k + 1];
    }
  }

  ghost predicate LinkAt(u: Store, index: seq<Hash>, i: nat)
    requires 0 < i < |index|
  {
    index[i] in u && u[index[i]].prev == index[i - 1]
  }

  /** A gap-free list of hashes, by height, each naming the one below as its parent. */
  ghost predicate IndexLinked(u: Store, index: seq<Hash>) {
    && (forall i :: 0 <= i < |index| ==> index[i] in u && u[index[i]].height == i)
    && (forall i :: 0 < i < |index| ==> LinkAt(u, index, i))
  }

  /**
   * One agreeing entry makes the whole index below it the block's ancestry:
   * this is what a single handoff check buys.
   */
  lemma {:induction false} LinkedIndexAgreesBelow(u: Store, index: seq<Hash>, h: Hash, k: nat)
    requires Closed(u) && IndexLinked(u, index) && h in u
    requires k < |index| && k <= u[h].height
    requires index[k] == Ancestry(u, h)[k].hash
    ensures forall j :: 0 <= j <= k ==> index[j] == Ancestry(u, h)[j].hash
  {
    if k > 0 {
      assert ParentAt(Ancestry(u, h), k) && LinkAt(u, index, k);
      LinkedIndexAgreesBelow(u, index, h, k - 1);
    }
  }

  /** A whole branch from genesis: one block per height, linked by hash, no hash twice. */
  ghost predicate Branch(c: seq<Header>) {
    && (forall i :: 0 <= i < |c| ==> c[i].height == i)
    && (forall i :: 0 < i < |c| ==> ParentAt(c, i))
    && (forall i, j :: 0 <= i < j < |c| ==> c[i].hash != c[j].hash)
  }

  /** A store never answers a branch hash with another block. */
  ghost predicate Serves(store: Store, c: seq<Header>) {
    forall i :: 0 <= i < |c| && c[i].hash in store ==> store[c[i].hash] == c[i]
  }

  lemma AncestryIsBranch(u: Store, h: Hash)
    requires Closed(u) && h in u
    ensures Branch(Ancestry(u, h))
  {
    var c := Ancestry(u, h);
    forall i, j | 0 <= i < j < |c| ensures c[i].hash != c[j].hash {
      assert u[c[i].hash] == c[i] && u[c[j].hash] == c[j];
    }
  }

  /** `a` is the hash of an ancestor-or-self of `h` no older than `lo`. */
  ghost predicate IsAncestorFrom(u: Store, h: Hash, a: Hash, lo: nat)
    requires Closed(u) && h in u
  {
    exists i :: lo <= i <= u[h].height && Ancestry(u, h)[i].hash == a
  }
}
