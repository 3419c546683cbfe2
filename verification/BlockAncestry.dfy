// The ancestor walk of `block_ancestry.rs`: block tree first, then the header
// table, never back.

module BlockAncestry {
  import opened Chain
  import opened Outcome

  /** What a visitor answers for one header; it may also update its own state. */
  datatype Visit<S> = Continue(state: S) | Break(state: S) | Fail(state: S)

  datatype WalkOutcome<S> =
    | Done(state: S)
    | VisitFailed(state: S)
    | MissingAncestor(hash: Hash, state: S)

  /** Following `prev` inside the store goes down exactly one height. */
  ghost predicate Descending(store: Store) {
    forall h {:trigger DescendsAt(store, h)} :: h in store ==> DescendsAt(store, h)
  }

  ghost predicate DescendsAt(store: Store, h: Hash)
    requires h in store
  {
    store[h].height > 0 && store[h].prev in store ==> store[store[h].prev].height == store[h].height - 1
  }

  /** Both sources hold the same header for a hash they share. */
  ghost predicate Agree(tree: Store, db: Store) {
    forall h :: h in tree && h in db ==> tree[h] == db[h]
  }

  /**
   * The header table keeps everything below what it holds: a tree block that is
   * the parent of a stored block is stored as well, so a walk that left the
   * tree has no reason to come back.
   */
  ghost predicate NoReentry(tree: Store, db: Store) {
    forall h :: h in db && db[h].prev in tree ==> db[h].prev in db
  }

  /** Resolve one header, tree first. */
  function HeaderFromTreeThenDb(tree: Store, db: Store, hash: Hash): (r: Option<Header>)
    ensures r.Some? <==> hash in tree || hash in db
    ensures r.Some? ==> r.value == Merged(tree, db)[hash]
  {
    if hash in tree then Some(tree[hash]) else if hash in db then Some(db[hash]) else None
  }

  /** The walk with a single lookup at every step. */
  ghost function WalkBy<S>(lookup: Store, cursor: Hash, minHeight: nat, visit: (S, Header) -> Visit<S>, s: S)
    : WalkOutcome<S>
    requires Descending(lookup)
    decreases if cursor in lookup then lookup[cursor].height + 1 else 0
  {
    if cursor !in lookup then MissingAncestor(cursor, s)
    else if lookup[cursor].height < minHeight then Done(s)
    else
      assert DescendsAt(lookup, cursor);
      match visit(s, lookup[cursor])
      case Fail(s') => VisitFailed(s')
      case Break(s') => Done(s')
      case Continue(s') =>
        if lookup[cursor].height == 0 || lookup[cursor].height == minHeight then Done(s')
        else WalkBy(lookup, lookup[cursor].prev, minHeight, visit, s')
  }

  /** Visit a list from its last element to its first, cut at the first `Break`. */
  ghost function VisitNewestFirst<S>(headers: seq<Header>, visit: (S, Header) -> Visit<S>, s: S): WalkOutcome<S> {
    if headers == [] then Done(s)
    else
      match visit(s, headers[|headers| - 1])
      case Fail(s') => VisitFailed(s')
      case Break(s') => Done(s')
      case Continue(s') => VisitNewestFirst(headers[..|headers| - 1], visit, s')
  }

  /**
   * `walk_ancestors_tree_then_db`. The outcome is that of the one-lookup walk,
   * or, when the sources allow re-entry, at worst a missing-ancestor error:
   * never a different success.
   */
  method WalkTreeThenDb<S>(tree: Store, db: Store, start: Hash, minHeight: nat, visit: (S, Header) -> Visit<S>, s0: S)
    returns (r: WalkOutcome<S>)
    requires Descending(Merged(tree, db)) && Agree(tree, db)
    ensures r == WalkBy(Merged(tree, db), start, minHeight, visit, s0)
         || (r.MissingAncestor? && !NoReentry(tree, db) && r.hash !in db)
  {
    ghost var both := Merged(tree, db);
    MergedDescends(tree, db);
    ghost var whole := WalkBy(both, start, minHeight, visit, s0);
    var cursor, s := start, s0;
    while cursor in tree
      invariant WalkBy(both, cursor, minHeight, visit, s) == whole
      decreases if cursor in tree then tree[cursor].height + 1 else 0
    {
      assert DescendsAt(both, cursor);
      var header := tree[cursor];
      if header.height < minHeight {
        return Done(s);
      }
      match visit(s, header) {
        case Fail(s') => return VisitFailed(s');
        case Break(s') => return Done(s');
        case Continue(s') =>
          s := s';
          if header.height == 0 || header.height == minHeight {
            return Done(s);
          }
      }
      cursor := header.prev;
    }
    ghost var below := WalkBy(db, cursor, minHeight, visit, s);
    DbWalkFailsClosed(tree, db, cursor, minHeight, visit, s);
    if NoReentry(tree, db) {
      DbWalkIsWholeWalk(tree, db, cursor, minHeight, visit, s);
    }
    while true
      invariant WalkBy(db, cursor, minHeight, visit, s) == below
      decreases if cursor in db then db[cursor].height + 1 else 0
    {
      if cursor !in db {
        return MissingAncestor(cursor, s);
      }
      assert DescendsAt(db, cursor);
      var header := db[cursor];
      if header.height < minHeight {
        return Done(s);
      }
      match visit(s, header) {
        case Fail(s') => return VisitFailed(s');
        case Break(s') => return Done(s');
        case Continue(s') =>
          s := s';
          if header.height == 0 || header.height == minHeight {
            return Done(s);
          }
      }
      cursor := header.prev;
    }
  }

  lemma MergedDescends(tree: Store, db: Store)
    requires Descending(Merged(tree, db)) && Agree(tree, db)
    ensures Descending(db)
  {
    forall h | h in db ensures DescendsAt(db, h) {
      assert DescendsAt(Merged(tree, db), h);
    }
  }

  /** Without re-entry the header table alone finishes the walk the merged view would. */
  lemma {:induction false} DbWalkIsWholeWalk<S>(
    tree: Store, db: Store, cursor: Hash, minHeight: nat, visit: (S, Header) -> Visit<S>, s: S)
    requires Descending(db) && Descending(Merged(tree, db)) && Agree(tree, db) && NoReentry(tree, db)
    requires cursor in tree ==> cursor in db
    ensures WalkBy(db, cursor, minHeight, visit, s) == WalkBy(Merged(tree, db), cursor, minHeight, visit, s)
    decreases if cursor in db then db[cursor].height + 1 else 0
  {
    if cursor in db && db[cursor].height >= minHeight {
      assert DescendsAt(db, cursor) && DescendsAt(Merged(tree, db), cursor);
      match visit(s, db[cursor])
      case Fail(_) =>
      case Break(_) =>
      case Continue(s') =>
        if db[cursor].height != 0 && db[cursor].height != minHeight {
          DbWalkIsWholeWalk(tree, db, db[cursor].prev, minHeight, visit, s');
        }
    }
  }

  /** Whatever the tree still holds, the header-table walk only ever falls short loudly. */
  lemma {:induction false} DbWalkFailsClosed<S>(
    tree: Store, db: Store, cursor: Hash, minHeight: nat, visit: (S, Header) -> Visit<S>, s: S)
    requires Descending(db) && Descending(Merged(tree, db)) && Agree(tree, db)
    ensures var r := WalkBy(db, cursor, minHeight, visit, s);
      r == WalkBy(Merged(tree, db), cursor, minHeight, visit, s) || (r.MissingAncestor? && r.hash !in db)
    decreases if cursor in db then db[cursor].height + 1 else 0
  {
    if cursor in db && db[cursor].height >= minHeight {
      assert DescendsAt(db, cursor) && DescendsAt(Merged(tree, db), cursor);
      match visit(s, db[cursor])
      case Fail(_) =>
      case Break(_) =>
      case Continue(s') =>
        if db[cursor].height != 0 && db[cursor].height != minHeight {
          DbWalkFailsClosed(tree, db, db[cursor].prev, minHeight, visit, s');
        }
    }
  }

  /** The ancestors of `start` from `minHeight` up that the walk must read. */
  ghost predicate RangeResolves(u: Store, lookup: Store, start: Hash, minHeight: nat)
    requires Closed(u) && start in u
  {
    start in lookup && forall i :: minHeight <= i <= u[start].height ==> Ancestry(u, start)[i].hash in lookup
  }

  /** In-range ancestors, oldest first. */
  ghost function Range(u: Store, start: Hash, minHeight: nat): seq<Header>
    requires Closed(u) && start in u
  {
    if u[start].height < minHeight then [] else Ancestry(u, start)[minHeight..]
  }

  lemma ResolvedStoresDescend(u: Store, lookup: Store)
    requires Closed(u) && Resolves(u, lookup)
    ensures Descending(lookup)
  {
    forall h | h in lookup ensures DescendsAt(lookup, h) {
      assert ParentStored(u, h);
    }
  }

  /** The range below the newest block is the parent's range. */
  lemma RangeStep(u: Store, start: Hash, minHeight: nat)
    requires Closed(u) && start in u && u[start].height >= minHeight && ParentStored(u, start)
    ensures var range := Range(u, start, minHeight);
      && range != []
      && range[|range| - 1] == u[start]
      && range[..|range| - 1] == if u[start].height == minHeight then [] else Range(u, u[start].prev, minHeight)
  {
    if u[start].height != minHeight {
      assert Ancestry(u, start) == Ancestry(u, u[start].prev) + [u[start]];
    }
  }

  lemma RangeResolvesStep(u: Store, lookup: Store, start: Hash, minHeight: nat)
    requires Closed(u) && start in u && u[start].height > minHeight && ParentStored(u, start)
    requires RangeResolves(u, lookup, start, minHeight)
    ensures RangeResolves(u, lookup, u[start].prev, minHeight)
  {
    var prev := u[start].prev;
    var c := Ancestry(u, start);
    assert forall i :: 0 <= i <= u[prev].height ==> Ancestry(u, prev)[i] == c[i];
    assert c[u[prev].height].hash == prev;
  }

  /**
   * The one-lookup walk is a scan of the true ancestry: each ancestor from
   * `minHeight` up, once, newest first.
   */
  lemma {:induction false} WalkVisitsAncestry<S>(
    u: Store, lookup: Store, start: Hash, minHeight: nat, visit: (S, Header) -> Visit<S>, s: S)
    requires Closed(u) && Resolves(u, lookup) && start in u && RangeResolves(u, lookup, start, minHeight)
    requires Descending(lookup)
    ensures WalkBy(lookup, start, minHeight, visit, s) == VisitNewestFirst(Range(u, start, minHeight), visit, s)
    decreases u[start].height
  {
    if u[start].height >= minHeight {
      assert ParentStored(u, start) && DescendsAt(lookup, start);
      RangeStep(u, start, minHeight);
      match visit(s, u[start])
      case Fail(_) =>
      case Break(_) =>
      case Continue(s') =>
        if u[start].height != minHeight {
          RangeResolvesStep(u, lookup, start, minHeight);
          WalkVisitsAncestry(u, lookup, u[start].prev, minHeight, visit, s');
        }
    }
  }

  /**
   * An in-range gap is never a short success: a walk that visits to the end
   * fails when some in-range ancestor is missing.
   */
  lemma {:induction false} MissingInRangeFails<S>(
    u: Store, lookup: Store, start: Hash, minHeight: nat, visit: (S, Header) -> Visit<S>, s: S)
    requires Closed(u) && Resolves(u, lookup) && start in u && !RangeResolves(u, lookup, start, minHeight)
    requires Descending(lookup)
    requires forall s', h :: visit(s', h).Continue?
    ensures WalkBy(lookup, start, minHeight, visit, s).MissingAncestor?
    decreases u[start].height
  {
    if start in lookup {
      var c := Ancestry(u, start);
      var i :| minHeight <= i <= u[start].height && c[i].hash !in lookup;
      assert i < u[start].height;
      assert ParentStored(u, start) && DescendsAt(lookup, start);
      var prev := u[start].prev;
      assert Ancestry(u, prev)[i] == c[i];
      MissingInRangeFails(u, lookup, prev, minHeight, visit, visit(s, u[start]).state);
    }
  }
}
