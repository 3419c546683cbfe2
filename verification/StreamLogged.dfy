// What the de-dup must not suppress: over every run, what the caches hold is in
// the log, so a block that is confirmed or migrated is always announced, and one
// that a reorg orphaned is announced again when it returns.

module StreamLogged {
  import opened Chain
  import opened Lru
  import opened StreamLog
  import opened StreamDedup
  import opened StreamDedupRuns

  /** Frame `p` announces `h` as finalized, whoever appended it. */
  ghost predicate FinalizedAt(history: seq<Entry>, p: int, h: Hash) {
    0 <= p < |history| && history[p].event == Finalized(h)
  }

  /** The log says that `h` is finalized: some frame does and no later one orphans it. */
  ghost predicate LoggedFinal(history: seq<Entry>, h: Hash) {
    exists p :: FinalizedAt(history, p, h) && !OrphanedBetween(history, p, |history|, h)
  }

  /** The log has announced `h`. */
  ghost predicate LoggedMark(history: seq<Entry>, h: Hash) {
    exists p :: MarksAt(history, p, h)
  }

  /** The caches hold only what the log says. */
  ghost predicate CacheSound(s: Sys) {
    && Caches(s.dedup)
    && (forall h :: h in s.dedup.emitted ==> LoggedMark(s.history, h))
    && (forall h :: h in s.dedup.finalized ==> LoggedFinal(s.history, h))
  }

  // ---- What the operations of one frame leave in a cache ----

  lemma {:induction false} PutAllAdds(c: seq<Hash>, hashes: seq<Hash>, x: Hash)
    requires x in Apply(c, PutAll(hashes), DEDUP_CAPACITY)
    ensures x in c || x in hashes
    decreases |hashes|
  {
    if hashes != [] {
      var rest, last := hashes[..|hashes| - 1], hashes[|hashes| - 1];
      assert PutAll(hashes)[..|hashes| - 1] == PutAll(rest);
      if x != last {
        PutAllAdds(c, rest, x);
      }
    }
  }

  lemma {:induction false} PopAllRemoves(c: seq<Hash>, hashes: seq<Hash>, x: Hash)
    requires IsCache(c, DEDUP_CAPACITY) && x in Apply(c, PopAll(hashes), DEDUP_CAPACITY)
    ensures x in c && x !in hashes
    decreases |hashes|
  {
    if hashes != [] {
      var rest, last := hashes[..|hashes| - 1], hashes[|hashes| - 1];
      assert PopAll(hashes)[..|hashes| - 1] == PopAll(rest);
      var before := Apply(c, PopAll(rest), DEDUP_CAPACITY);
      ApplyIsCache(c, PopAll(rest), DEDUP_CAPACITY);
      RemoveDistinct(before, last);
      PopAllRemoves(c, rest, x);
    }
  }

  /** One frame: what it adds to the caches it announces, and what it orphans it takes out. */
  lemma NoteHoldsOnly(d: Dedup, e: Event, x: Hash)
    requires Caches(d)
    ensures x in Note(d, e).emitted ==> x in d.emitted || Marks(e, x)
    ensures x in Note(d, e).finalized ==>
      e == Finalized(x) || (x in d.finalized && !(e.Reorged? && x in e.orphaned))
  {
    match e
    case Observed(h) =>
      if x in Note(d, e).emitted {
        assert PutAll([h]) == [Put(h)];
        PutAllAdds(d.emitted, [h], x);
      }
    case Finalized(h) => NoteFinalized(d, h);
    case Reorged(orphaned, newFork) =>
      if x in Note(d, e).emitted {
        PutAllAdds(d.emitted, newFork, x);
      }
      if x in Note(d, e).finalized {
        PopAllRemoves(d.finalized, orphaned, x);
      }
  }

  lemma NoteKeepsCaches(d: Dedup, e: Event)
    requires Caches(d)
    ensures Caches(Note(d, e))
  {
    ApplyIsCache(d.emitted, Ops(e, EmittedCache), DEDUP_CAPACITY);
    ApplyIsCache(d.finalized, Ops(e, FinalizedCache), DEDUP_CAPACITY);
  }

  // ---- Every step keeps the caches sound ----

  lemma LoggedStays(history: seq<Entry>, entry: Entry, h: Hash)
    ensures LoggedMark(history, h) ==> LoggedMark(history + [entry], h)
    ensures LoggedFinal(history, h) && !(entry.event.Reorged? && h in entry.event.orphaned) ==>
      LoggedFinal(history + [entry], h)
  {
    var longer := history + [entry];
    if LoggedMark(history, h) {
      var p :| MarksAt(history, p, h);
      assert MarksAt(longer, p, h);
    }
    if LoggedFinal(history, h) && !(entry.event.Reorged? && h in entry.event.orphaned) {
      var p :| FinalizedAt(history, p, h) && !OrphanedBetween(history, p, |history|, h);
      assert FinalizedAt(longer, p, h);
      NotOrphanedLater(history, entry, p, h);
    }
  }

  lemma NotOrphanedLater(history: seq<Entry>, entry: Entry, p: int, h: Hash)
    requires !OrphanedBetween(history, p, |history|, h) && !(entry.event.Reorged? && h in entry.event.orphaned)
    ensures !OrphanedBetween(history + [entry], p, |history| + 1, h)
  {
    var longer := history + [entry];
    assert forall k :: 0 <= k < |history| ==> longer[k] == history[k];
  }

  /** A new last frame says so itself. */
  lemma LastIsLogged(history: seq<Entry>, entry: Entry, h: Hash)
    ensures Marks(entry.event, h) ==> LoggedMark(history + [entry], h)
    ensures entry.event == Finalized(h) ==> LoggedFinal(history + [entry], h)
  {
    var longer := history + [entry];
    assert Marks(entry.event, h) ==> MarksAt(longer, |history|, h);
    assert entry.event == Finalized(h) ==>
      FinalizedAt(longer, |history|, h) && !OrphanedBetween(longer, |history|, |longer|, h);
  }

  lemma AppendKeepsSound(s: Sys, entry: Entry)
    requires CacheSound(s)
    ensures CacheSound(AppendNoted(s, entry))
  {
    var after := AppendNoted(s, entry);
    NoteKeepsCaches(s.dedup, entry.event);
    forall h | h in after.dedup.emitted ensures LoggedMark(after.history, h) {
      NoteHoldsOnly(s.dedup, entry.event, h);
      LoggedStays(s.history, entry, h);
      LastIsLogged(s.history, entry, h);
    }
    forall h | h in after.dedup.finalized ensures LoggedFinal(after.history, h) {
      NoteHoldsOnly(s.dedup, entry.event, h);
      LoggedStays(s.history, entry, h);
      LastIsLogged(s.history, entry, h);
    }
  }

  lemma {:induction false} AppendsKeepSound(s: Sys, events: seq<Event>)
    requires CacheSound(s)
    ensures CacheSound(AppendAllNoted(s, events))
    decreases |events|
  {
    if events != [] {
      AppendsKeepSound(s, events[..|events| - 1]);
      AppendKeepsSound(AppendAllNoted(s, events[..|events| - 1]), Entry(events[|events| - 1], true));
    }
  }

  lemma SameCaches(a: Sys, b: Sys)
    requires CacheSound(a) && a.history == b.history && a.dedup == b.dedup
    ensures CacheSound(b)
  {
  }

  lemma CommitKeepsSound(s: Sys, events: seq<Event>)
    requires CacheSound(s)
    ensures CacheSound(Commit(s, events))
  {
    if events != [] {
      CommitIsAppends(s, events);
      AppendsKeepSound(s, events);
      SameCaches(AppendAllNoted(s, events), Commit(s, events));
    }
  }

  /** A reconciliation frame says nothing against what the caches hold. */
  lemma ReconcileKeepsSound(s: Sys, h: Hash)
    requires CacheSound(s)
    ensures CacheSound(Next(s, Reconcile(h)))
  {
    var entry := Entry(Finalized(h), false);
    forall x ensures x in s.dedup.emitted ==> LoggedMark(s.history + [entry], x) {
      LoggedStays(s.history, entry, x);
    }
    forall x ensures x in s.dedup.finalized ==> LoggedFinal(s.history + [entry], x) {
      LoggedStays(s.history, entry, x);
    }
  }

  lemma {:induction false} RebuildIsSound(history: seq<Entry>, t: nat, n: nat)
    requires t <= n <= |history|
    ensures CacheSound(Rebuilt(history, t, n))
    decreases n
  {
    if t < n {
      RebuildIsSound(history, t, n - 1);
      RebuiltNext(history, t, n);
      AppendKeepsSound(Rebuilt(history, t, n - 1), history[n - 1]);
    }
  }

  lemma RestartIsSound(s: Sys)
    requires Retained(s)
    ensures CacheSound(Next(s, Restart))
  {
    TailIsRetained(s);
    var n := |s.history|;
    RebuildIsSound(s.history, TailStart(s), n);
    assert s.history[..n] == s.history;
    assert Events(s.history)[TailStart(s)..n] == Events(s.history)[TailStart(s)..];
    SameCaches(Rebuilt(s.history, TailStart(s), n), Next(s, Restart));
  }

  lemma StepKeepsSound(s: Sys, step: Step)
    requires CacheSound(s) && Retained(s)
    ensures CacheSound(Next(s, step))
  {
    match step
    case Observe(hashes) => CommitKeepsSound(s, ObserveAll(Unmarked(hashes, s.dedup.emitted)));
    case Finalize(h) => CommitKeepsSound(s, [Finalized(h)]);
    case Reorganize(orphaned, newFork) => CommitKeepsSound(s, [Reorged(orphaned, newFork)]);
    case Aborted =>
    case Reconcile(h) => ReconcileKeepsSound(s, h);
    case ProducerPrune(_) => SameCaches(s, Next(s, step));
    case Restart => RestartIsSound(s);
  }

  /**
   * Over every run, with restarts, aborts, prunes and reconciliation anywhere in
   * it, the caches hold only what the log says.
   */
  lemma {:induction false} CachesHoldOnlyLogged(steps: seq<Step>)
    ensures CacheSound(Run(Sys([], 0, EMPTY, 0), steps)) && Retained(Run(Sys([], 0, EMPTY, 0), steps))
    decreases |steps|
  {
    if steps != [] {
      var before := Run(Sys([], 0, EMPTY, 0), steps[..|steps| - 1]);
      CachesHoldOnlyLogged(steps[..|steps| - 1]);
      StepRetains(before, steps[|steps| - 1]);
      StepKeepsSound(before, steps[|steps| - 1]);
    }
  }

  // ---- Nothing is suppressed ----

  /** A block confirmed by a committed transaction is announced in the log, then and ever after. */
  lemma ConfirmedIsLogged(steps: seq<Step>, hashes: seq<Hash>, k: nat)
    requires k < |hashes|
    ensures LoggedMark(Next(Run(Sys([], 0, EMPTY, 0), steps), Observe(hashes)).history, hashes[k])
  {
    var s, h := Run(Sys([], 0, EMPTY, 0), steps), hashes[k];
    CachesHoldOnlyLogged(steps);
    var unmarked := Unmarked(hashes, s.dedup.emitted);
    var after := Next(s, Observe(hashes));
    if h in s.dedup.emitted {
      var p :| MarksAt(s.history, p, h);
      assert after.history[p] == s.history[p];
      assert MarksAt(after.history, p, h);
    } else {
      UnmarkedHolds(hashes, s.dedup.emitted, k);
      var i :| 0 <= i < |unmarked| && unmarked[i] == h;
      assert after.history[|s.history| + i].event == Observed(h);
      assert MarksAt(after.history, |s.history| + i, h);
    }
  }

  lemma {:induction false} UnmarkedHolds(hashes: seq<Hash>, emitted: seq<Hash>, k: nat)
    requires k < |hashes| && hashes[k] !in emitted
    ensures hashes[k] in Unmarked(hashes, emitted)
    decreases |hashes|
  {
    if k < |hashes| - 1 {
      UnmarkedHolds(hashes[..|hashes| - 1], emitted, k);
    }
  }

  /** A migrated block is finalized in the log: some frame says so and no later one orphans the block. */
  lemma MigratedIsLogged(steps: seq<Step>, h: Hash)
    ensures LoggedFinal(Next(Run(Sys([], 0, EMPTY, 0), steps), Finalize(h)).history, h)
  {
    var s := Run(Sys([], 0, EMPTY, 0), steps);
    CachesHoldOnlyLogged(steps);
    if h !in s.dedup.finalized {
      LastIsLogged(s.history, Entry(Finalized(h), true), h);
      assert s.history + ByWriter([Finalized(h)]) == s.history + [Entry(Finalized(h), true)];
    }
  }

  /** A frame that orphans `h`, and no `finalized` frame of `h` after it. */
  ghost predicate OrphanedSince(history: seq<Entry>, k: int, h: Hash) {
    && 0 <= k < |history| && history[k].event.Reorged? && h in history[k].event.orphaned
    && forall p :: k < p ==> !FinalizedAt(history, p, h)
  }

  lemma OrphanIsNotFinal(history: seq<Entry>, k: nat, h: Hash)
    requires OrphanedSince(history, k, h)
    ensures !LoggedFinal(history, h)
  {
    forall p | FinalizedAt(history, p, h) ensures OrphanedBetween(history, p, |history|, h) {
      assert p < k;
    }
  }

  /**
   * A block that a reorg orphaned is not remembered as finalized, whatever
   * happened since, until a frame finalizes it again: the next migration of it
   * appends that frame.
   */
  lemma ReadoptedIsFinalizedAgain(steps: seq<Step>, k: nat, h: Hash)
    requires OrphanedSince(Run(Sys([], 0, EMPTY, 0), steps).history, k, h)
    ensures var s := Run(Sys([], 0, EMPTY, 0), steps);
      h !in s.dedup.finalized && Next(s, Finalize(h)).history == s.history + [Entry(Finalized(h), true)]
  {
    var s := Run(Sys([], 0, EMPTY, 0), steps);
    CachesHoldOnlyLogged(steps);
    OrphanIsNotFinal(s.history, k, h);
    assert s.history + ByWriter([Finalized(h)]) == s.history + [Entry(Finalized(h), true)];
  }

  /** What the last frame announces is remembered. */
  lemma LastMarkIsKnown(s: Sys, h: Hash)
    requires Core(s) && s.history != [] && Marks(s.history[|s.history| - 1].event, h)
    requires MarkCount(s.history[|s.history| - 1].event) <= DEDUP_CAPACITY
    ensures h in s.dedup.emitted
  {
    var n := |s.history| - 1;
    assert MarksAt(s.history, n, h) && MarksIn(s.history, n, n) == 0;
    assert MarksIn(s.history, n, n + 1) == MarkCount(s.history[n].event);
    WithinWeaken(s.dedup.emitted, h, MarksIn(s.history, n, n + 1) - 1, MarksIn(s.history, n, n + 1) - 1);
  }

  lemma RememberedIsNotRepeated(s: Sys, h: Hash)
    requires h in s.dedup.emitted
    ensures Next(s, Observe([h])) == s
  {
    assert [h][..0] == [] && Unmarked([h], s.dedup.emitted) == [];
  }

  /** The blocks of a committed new fork are remembered as announced: confirming them repeats nothing. */
  lemma NewForkIsRemembered(steps: seq<Step>, orphaned: seq<Hash>, newFork: seq<Hash>, h: Hash)
    requires (forall k :: 0 <= k < |steps| ==> LegalStep(steps[k])) && h in newFork && |newFork| <= DEDUP_CAPACITY
    ensures var after := Next(Run(Sys([], 0, EMPTY, 0), steps), Reorganize(orphaned, newFork));
      h in after.dedup.emitted && Next(after, Observe([h])) == after
  {
    var s, e := Run(Sys([], 0, EMPTY, 0), steps), Reorged(orphaned, newFork);
    DuplicatesAreSpaced(steps);
    CommitOneKeepsCore(s, e);
    var after := Commit(s, [e]);
    assert after.history[|after.history| - 1].event == e;
    LastMarkIsKnown(after, h);
    RememberedIsNotRepeated(after, h);
  }
}
