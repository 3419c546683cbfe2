// What the writer's caches guarantee about the durable log over whole runs
// with restarts: duplicate `finalized` and `observed` frames are far apart or
// justified by a reorg.

module StreamDedupRuns {
  import opened Chain
  import opened Lru
  import opened StreamLog
  import opened StreamDedup

  // ---- Facts of the history ----

  /** The writer appended `finalized` for `h` as frame `p`. */
  ghost predicate FinalizedBy(history: seq<Entry>, p: int, h: Hash) {
    0 <= p < |history| && history[p] == Entry(Finalized(h), true)
  }

  /** A `reorged` frame in `(p, q)` orphans `h`. */
  ghost predicate OrphanedBetween(history: seq<Entry>, p: int, q: int, h: Hash) {
    exists k :: p < k < q && 0 <= k < |history| && history[k].event.Reorged? && h in history[k].event.orphaned
  }

  /** Two writer-appended `finalized` frames for one block are far apart or a reorg lies between. */
  ghost predicate FinalizedSpaced(history: seq<Entry>) {
    forall p, q, h :: FinalizedBy(history, p, h) && FinalizedBy(history, q, h) && p < q <= p + DEDUP_CAPACITY ==>
      OrphanedBetween(history, p, q, h)
  }

  /** The frame announces `h`: it is its `observed` frame or carries it in a new fork. */
  ghost predicate Marks(e: Event, h: Hash) {
    e == Observed(h) || (e.Reorged? && h in e.newFork)
  }

  /** How many blocks the frame announces. */
  ghost function MarkCount(e: Event): nat {
    match e
    case Observed(_) => 1
    case Finalized(_) => 0
    case Reorged(_, newFork) => |newFork|
  }

  ghost predicate MarksAt(history: seq<Entry>, p: int, h: Hash) {
    0 <= p < |history| && Marks(history[p].event, h)
  }

  /** Emitted marks made by the frames `[p, q)`. */
  ghost function MarksIn(history: seq<Entry>, p: int, q: int): nat {
    if 0 <= p < q <= |history| then MarksIn(history, p, q - 1) + MarkCount(history[q - 1].event) else 0
  }

  /** The mark of frame `p` has left the cache window or the restart tail by frame `q`. */
  ghost predicate Faded(history: seq<Entry>, p: int, q: int) {
    MarksIn(history, p, q) > DEDUP_CAPACITY || q - p > DEDUP_CAPACITY + 1
  }

  /** No `observed` frame repeats a mark that is still inside both windows. */
  ghost predicate ObservedSpaced(history: seq<Entry>) {
    forall p, q, h :: MarksAt(history, p, h) && p < q < |history| && history[q].event == Observed(h) ==>
      Faded(history, p, q)
  }

  // ---- What the caches still know ----

  /** The caches remember each un-orphaned `finalized` frame from `from` on, within the capacity. */
  ghost predicate FinalizedKnown(s: Sys, from: nat) {
    forall p, h :: FinalizedBy(s.history, p, h) && from <= p && |s.history| - p <= DEDUP_CAPACITY
                   && !OrphanedBetween(s.history, p, |s.history|, h) ==>
      Within(s.dedup.finalized, h, |s.history| - p - 1)
  }

  /** And each emitted mark from `from` on, until the cache window has passed over it. */
  ghost predicate MarksKnown(s: Sys, from: nat) {
    forall p, h :: MarksAt(s.history, p, h) && from <= p && MarksIn(s.history, p, |s.history|) <= DEDUP_CAPACITY ==>
      Within(s.dedup.emitted, h, MarksIn(s.history, p, |s.history|) - 1)
  }

  /** Everything a restart would still read is remembered. */
  ghost predicate Remembers(s: Sys) {
    FinalizedKnown(s, SatSub(SatSub(|s.history|, 1), DEDUP_CAPACITY))
    && MarksKnown(s, SatSub(SatSub(|s.history|, 1), DEDUP_CAPACITY))
  }

  ghost predicate Inv(s: Sys) {
    Retained(s) && Core(s)
  }

  // ---- Small steps over the history ----

  lemma {:induction false} MarksInPrefix(a: seq<Entry>, b: seq<Entry>, p: int, q: int)
    requires a <= b && q <= |a|
    ensures MarksIn(a, p, q) == MarksIn(b, p, q)
    decreases q - p
  {
    if 0 <= p < q {
      MarksInPrefix(a, b, p, q - 1);
    }
  }

  lemma {:induction false} MarksInGrows(history: seq<Entry>, p: int, q: int, r: int)
    requires 0 <= p <= q <= r <= |history|
    ensures MarksIn(history, p, q) <= MarksIn(history, p, r)
    decreases r - q
  {
    if q < r {
      MarksInGrows(history, p, q, r - 1);
    }
  }

  lemma FadedGrows(history: seq<Entry>, p: int, q: int, r: int)
    requires 0 <= p <= q <= r <= |history| && Faded(history, p, q)
    ensures Faded(history, p, r)
  {
    MarksInGrows(history, p, q, r);
  }

  lemma OrphanedGrows(a: seq<Entry>, b: seq<Entry>, p: int, q: int, h: Hash)
    requires a <= b && q <= |a|
    ensures OrphanedBetween(a, p, q, h) <==> OrphanedBetween(b, p, q, h)
  {
  }

  lemma WithinWeaken(c: seq<Hash>, h: Hash, r: int, r': int)
    requires Within(c, h, r) && r <= r'
    ensures Within(c, h, r') && h in c
  {
  }

  lemma {:induction false} PutsOfOps(e: Event)
    ensures Puts(Ops(e, EmittedCache)) == |Ops(e, EmittedCache)| == MarkCount(e)
    ensures forall h :: Marks(e, h) <==> Put(h) in Ops(e, EmittedCache)
    ensures Puts(Ops(e, FinalizedCache)) <= 1
    ensures forall h :: NeverPopped(Ops(e, EmittedCache), h)
  {
    if e.Reorged? {
      AllPuts(PutAll(e.newFork));
      NoPuts(PopAll(e.orphaned));
      forall h ensures h in e.newFork <==> Put(h) in PutAll(e.newFork) {
        if h in e.newFork {
          var k :| 0 <= k < |e.newFork| && e.newFork[k] == h;
          assert PutAll(e.newFork)[k] == Put(h);
        }
      }
    }
  }

  lemma {:induction false} AllPuts(ops: seq<Op>)
    requires forall k :: 0 <= k < |ops| ==> ops[k].Put?
    ensures Puts(ops) == |ops|
  {
    if ops != [] {
      AllPuts(ops[..|ops| - 1]);
    }
  }

  lemma {:induction false} NoPuts(ops: seq<Op>)
    requires forall k :: 0 <= k < |ops| ==> ops[k].Pop?
    ensures Puts(ops) == 0
  {
    if ops != [] {
      NoPuts(ops[..|ops| - 1]);
    }
  }

  // ---- One appended frame ----

  /** A frame is appended and noted in the caches. */
  ghost function AppendNoted(s: Sys, entry: Entry): Sys {
    s.(history := s.history + [entry], dedup := Note(s.dedup, entry.event))
  }

  lemma AppendKeepsFinalizedKnown(s: Sys, entry: Entry, from: nat)
    requires FinalizedKnown(s, from)
    ensures FinalizedKnown(AppendNoted(s, entry), from)
  {
    var s' := AppendNoted(s, entry);
    var n := |s.history|;
    var ops := Ops(entry.event, FinalizedCache);
    PutsOfOps(entry.event);
    forall p, h | FinalizedBy(s'.history, p, h) && from <= p && n + 1 - p <= DEDUP_CAPACITY
                  && !OrphanedBetween(s'.history, p, n + 1, h)
      ensures Within(s'.dedup.finalized, h, n - p)
    {
      if p == n {
        PutIsRemembered(s.dedup.finalized, ops, 0, h, DEDUP_CAPACITY);
        WithinWeaken(s'.dedup.finalized, h, Puts(ops[0..]) - 1, n - p);
      } else {
        assert FinalizedBy(s.history, p, h);
        assert !OrphanedBetween(s.history, p, n, h) by {
          OrphanedGrows(s.history, s'.history, p, n, h);
        }
        assert s'.history[n].event == entry.event;
        assert NeverPopped(ops, h);
        ApplyWithin(s.dedup.finalized, ops, h, n - p - 1, DEDUP_CAPACITY);
        WithinWeaken(s'.dedup.finalized, h, n - p - 1 + Puts(ops), n - p);
      }
    }
  }

  lemma AppendKeepsMarksKnown(s: Sys, entry: Entry, from: nat)
    requires MarksKnown(s, from)
    ensures MarksKnown(AppendNoted(s, entry), from)
  {
    var s' := AppendNoted(s, entry);
    var n := |s.history|;
    var ops := Ops(entry.event, EmittedCache);
    PutsOfOps(entry.event);
    forall p, h | MarksAt(s'.history, p, h) && from <= p && MarksIn(s'.history, p, n + 1) <= DEDUP_CAPACITY
      ensures Within(s'.dedup.emitted, h, MarksIn(s'.history, p, n + 1) - 1)
    {
      MarksInPrefix(s.history, s'.history, p, n);
      if p == n {
        var k :| 0 <= k < |ops| && ops[k] == Put(h);
        AllPuts(ops[k..]);
        PutIsRemembered(s.dedup.emitted, ops, k, h, DEDUP_CAPACITY);
        WithinWeaken(s'.dedup.emitted, h, Puts(ops[k..]) - 1, |ops| - 1);
      } else {
        assert MarksAt(s.history, p, h);
        assert MarksIn(s'.history, p, n + 1) == MarksIn(s.history, p, n) + |ops|;
        ApplyWithin(s.dedup.emitted, ops, h, MarksIn(s.history, p, n) - 1, DEDUP_CAPACITY);
      }
    }
  }

  /** Nothing still in the windows marks `h`. */
  ghost predicate FreshObserved(history: seq<Entry>, h: Hash) {
    forall p :: MarksAt(history, p, h) ==> Faded(history, p, |history|)
  }

  /** No un-orphaned `finalized` of `h` is within the capacity. */
  ghost predicate FreshFinalized(history: seq<Entry>, h: Hash) {
    forall p :: FinalizedBy(history, p, h) && |history| - p <= DEDUP_CAPACITY ==>
      OrphanedBetween(history, p, |history|, h)
  }

  /** What the caches do not hold is fresh. */
  lemma CacheMissIsFresh(s: Sys, h: Hash)
    requires Remembers(s)
    ensures h !in s.dedup.emitted ==> FreshObserved(s.history, h)
    ensures h !in s.dedup.finalized ==> FreshFinalized(s.history, h)
  {
    if h !in s.dedup.emitted {
      forall p | MarksAt(s.history, p, h) ensures Faded(s.history, p, |s.history|) {}
    }
  }

  /** A fresh frame, or one that is neither, keeps the spacing. */
  lemma AppendKeepsSpacing(history: seq<Entry>, entry: Entry)
    requires FinalizedSpaced(history) && ObservedSpaced(history)
    requires entry.event.Observed? ==> FreshObserved(history, entry.event.hash)
    requires entry.event.Finalized? && entry.byWriter ==> FreshFinalized(history, entry.event.hash)
    ensures FinalizedSpaced(history + [entry]) && ObservedSpaced(history + [entry])
  {
    var longer := history + [entry];
    var n := |history|;
    forall p, q, h | FinalizedBy(longer, p, h) && FinalizedBy(longer, q, h) && p < q <= p + DEDUP_CAPACITY
      ensures OrphanedBetween(longer, p, q, h)
    {
      assert FinalizedBy(history, p, h);
      if q == n {
        OrphanedGrows(history, longer, p, n, h);
      } else {
        assert FinalizedBy(history, q, h);
        OrphanedGrows(history, longer, p, q, h);
      }
    }
    forall p, q, h | MarksAt(longer, p, h) && p < q < |longer| && longer[q].event == Observed(h)
      ensures Faded(longer, p, q)
    {
      assert MarksAt(history, p, h);
      MarksInPrefix(history, longer, p, q);
      if q < n {
        assert Faded(history, p, q);
      }
    }
  }

  /** Freshness of another block survives an append that does not mark it. */
  lemma FreshSurvives(history: seq<Entry>, entry: Entry, h: Hash)
    requires FreshObserved(history, h) && !Marks(entry.event, h)
    ensures FreshObserved(history + [entry], h)
  {
    var longer := history + [entry];
    forall p | MarksAt(longer, p, h) ensures Faded(longer, p, |longer|) {
      assert MarksAt(history, p, h);
      MarksInPrefix(history, longer, p, |history|);
      assert Faded(longer, p, |history|);
      FadedGrows(longer, p, |history|, |longer|);
    }
  }

  // ---- A committed batch ----

  ghost predicate Core(s: Sys) {
    Remembers(s) && FinalizedSpaced(s.history) && ObservedSpaced(s.history)
  }

  lemma AppendKeepsRemembering(s: Sys, entry: Entry)
    requires Remembers(s)
    ensures Remembers(AppendNoted(s, entry))
  {
    var from := SatSub(SatSub(|s.history|, 1), DEDUP_CAPACITY);
    AppendKeepsFinalizedKnown(s, entry, from);
    AppendKeepsMarksKnown(s, entry, from);
  }

  ghost function AppendAllNoted(s: Sys, events: seq<Event>): Sys {
    if events == [] then s
    else AppendNoted(AppendAllNoted(s, events[..|events| - 1]), Entry(events[|events| - 1], true))
  }

  lemma {:induction false} CommitIsAppends(s: Sys, events: seq<Event>)
    ensures AppendAllNoted(s, events).history == s.history + ByWriter(events)
    ensures AppendAllNoted(s, events).dedup == NoteAll(s.dedup, events)
    decreases |events|
  {
    if events != [] {
      CommitIsAppends(s, events[..|events| - 1]);
    }
  }

  lemma AppendKeepsCore(s: Sys, e: Event)
    requires Core(s)
    requires e.Observed? ==> FreshObserved(s.history, e.hash)
    requires e.Finalized? ==> FreshFinalized(s.history, e.hash)
    ensures Core(AppendNoted(s, Entry(e, true)))
  {
    AppendKeepsRemembering(s, Entry(e, true));
    AppendKeepsSpacing(s.history, Entry(e, true));
  }

  lemma CommitOneKeepsCore(s: Sys, e: Event)
    requires Core(s)
    requires e.Observed? ==> FreshObserved(s.history, e.hash)
    requires e.Finalized? ==> FreshFinalized(s.history, e.hash)
    ensures Core(Commit(s, [e]))
  {
    AppendKeepsCore(s, e);
    CommitIsAppends(s, [e]);
    assert [e][..0] == [];
  }

  ghost predicate AllFresh(history: seq<Entry>, hashes: seq<Hash>) {
    forall k :: 0 <= k < |hashes| ==> FreshObserved(history, hashes[k])
  }

  /** A batch of distinct fresh blocks; each append leaves the others fresh. */
  lemma {:induction false} ObserveBatchKeepsCore(s: Sys, hashes: seq<Hash>)
    requires Core(s) && Distinct(hashes) && AllFresh(s.history, hashes)
    ensures Core(AppendAllNoted(s, ObserveAll(hashes)))
    ensures forall h :: h !in hashes && FreshObserved(s.history, h) ==>
              FreshObserved(AppendAllNoted(s, ObserveAll(hashes)).history, h)
    decreases |hashes|
  {
    if hashes != [] {
      var rest, last := hashes[..|hashes| - 1], hashes[|hashes| - 1];
      var events := ObserveAll(hashes);
      assert events[..|events| - 1] == ObserveAll(rest);
      ObserveBatchKeepsCore(s, rest);
      var mid := AppendAllNoted(s, ObserveAll(rest));
      assert last !in rest;
      assert FreshObserved(s.history, hashes[|hashes| - 1]);
      AppendKeepsCore(mid, Observed(last));
      forall h | h !in hashes && FreshObserved(s.history, h)
        ensures FreshObserved(AppendAllNoted(s, events).history, h)
      {
        assert h !in rest;
        FreshSurvives(mid.history, Entry(Observed(last), true), h);
      }
    }
  }

  lemma {:induction false} UnmarkedIsFresh(hashes: seq<Hash>, emitted: seq<Hash>)
    requires Distinct(hashes)
    ensures Distinct(Unmarked(hashes, emitted))
    ensures forall h :: h in Unmarked(hashes, emitted) ==> h in hashes && h !in emitted
    decreases |hashes|
  {
    if hashes != [] {
      UnmarkedIsFresh(hashes[..|hashes| - 1], emitted);
    }
  }

  lemma ObserveKeepsCore(s: Sys, hashes: seq<Hash>)
    requires Core(s) && Distinct(hashes)
    ensures Core(Next(s, Observe(hashes)))
  {
    var unmarked := Unmarked(hashes, s.dedup.emitted);
    UnmarkedIsFresh(hashes, s.dedup.emitted);
    forall k | 0 <= k < |unmarked| ensures FreshObserved(s.history, unmarked[k]) {
      CacheMissIsFresh(s, unmarked[k]);
    }
    ObserveBatchKeepsCore(s, unmarked);
    CommitIsAppends(s, ObserveAll(unmarked));
  }

  lemma ReconcileKeepsCore(s: Sys, h: Hash)
    requires Core(s)
    ensures Core(Next(s, Reconcile(h)))
  {
    var entry := Entry(Finalized(h), false);
    var s' := Next(s, Reconcile(h));
    var n := |s.history|;
    AppendKeepsSpacing(s.history, entry);
    forall p, x | FinalizedBy(s'.history, p, x) && n + 1 - p <= DEDUP_CAPACITY
      && !OrphanedBetween(s'.history, p, n + 1, x)
      ensures Within(s'.dedup.finalized, x, n - p)
    {
      assert FinalizedBy(s.history, p, x);
      OrphanedGrows(s.history, s'.history, p, n, x);
      WithinWeaken(s.dedup.finalized, x, n - p - 1, n - p);
    }
    forall p, x | MarksAt(s'.history, p, x) && SatSub(n, DEDUP_CAPACITY) <= p
      && MarksIn(s'.history, p, n + 1) <= DEDUP_CAPACITY
      ensures Within(s'.dedup.emitted, x, MarksIn(s'.history, p, n + 1) - 1)
    {
      assert MarksAt(s.history, p, x);
      MarksInPrefix(s.history, s'.history, p, n);
    }
  }

  // ---- Restart ----

  /** The caches rebuilt by reading frames `[t, n)`. */
  ghost function Rebuilt(history: seq<Entry>, t: nat, n: nat): Sys
    requires t <= n <= |history|
  {
    Sys(history[..n], 0, NoteAll(EMPTY, Events(history)[t..n]), 0)
  }

  lemma RebuiltNext(history: seq<Entry>, t: nat, n: nat)
    requires t < n <= |history|
    ensures Rebuilt(history, t, n) == AppendNoted(Rebuilt(history, t, n - 1), history[n - 1])
  {
    var tail, last := Events(history)[t..n], history[n - 1];
    assert tail[..|tail| - 1] == Events(history)[t..n - 1];
    assert tail[|tail| - 1] == last.event;
    assert history[..n] == history[..n - 1] + [last];
  }

  /** Folding the tail is appending its frames one by one to empty caches. */
  lemma {:induction false} RebuildRemembers(history: seq<Entry>, t: nat, n: nat)
    requires t <= n <= |history|
    ensures FinalizedKnown(Rebuilt(history, t, n), t) && MarksKnown(Rebuilt(history, t, n), t)
    decreases n
  {
    if t < n {
      RebuildRemembers(history, t, n - 1);
      var before := Rebuilt(history, t, n - 1);
      RebuiltNext(history, t, n);
      AppendKeepsFinalizedKnown(before, history[n - 1], t);
      AppendKeepsMarksKnown(before, history[n - 1], t);
    }
  }

  lemma RestartKeepsCore(s: Sys)
    requires Retained(s) && Core(s)
    ensures Core(Next(s, Restart))
  {
    TailIsRetained(s);
    var n := |s.history|;
    RebuildRemembers(s.history, TailStart(s), n);
    assert s.history[..n] == s.history;
    assert Events(s.history)[TailStart(s)..n] == Events(s.history)[TailStart(s)..];
  }

  // ---- Whole runs ----

  /** Confirmation batches carry distinct blocks. */
  predicate LegalStep(step: Step) {
    step.Observe? ==> forall i, j :: 0 <= i < j < |step.hashes| ==> step.hashes[i] != step.hashes[j]
  }

  lemma StepKeepsInv(s: Sys, step: Step)
    requires Inv(s) && LegalStep(step)
    ensures Inv(Next(s, step))
  {
    StepRetains(s, step);
    match step
    case Observe(hashes) => ObserveKeepsCore(s, hashes);
    case Finalize(h) =>
      if h !in s.dedup.finalized {
        CacheMissIsFresh(s, h);
        CommitOneKeepsCore(s, Finalized(h));
      }
    case Reorganize(orphaned, newFork) => CommitOneKeepsCore(s, Reorged(orphaned, newFork));
    case Aborted =>
    case Reconcile(h) => ReconcileKeepsCore(s, h);
    case ProducerPrune(_) =>
    case Restart => RestartKeepsCore(s);
  }

  /**
   * Over every run of commits, aborts, reconciliation, prunes and restarts from
   * an empty log: two writer-appended `finalized` frames of one block at most
   * `DEDUP_CAPACITY` apart have a `reorged` frame orphaning it between them, and
   * no `observed` frame repeats a mark still inside the cache and tail windows.
   */
  lemma {:induction false} DuplicatesAreSpaced(steps: seq<Step>)
    requires forall k :: 0 <= k < |steps| ==> LegalStep(steps[k])
    ensures Inv(Run(Sys([], 0, EMPTY, 0), steps))
    decreases |steps|
  {
    if steps != [] {
      DuplicatesAreSpaced(steps[..|steps| - 1]);
      StepKeepsInv(Run(Sys([], 0, EMPTY, 0), steps[..|steps| - 1]), steps[|steps| - 1]);
    }
  }
}
