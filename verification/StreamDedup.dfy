// Writer-side de-duplication of the block stream: the two LRU caches, the
// restart rebuild, and what they guarantee about the durable log over runs of
// appends, aborted transactions, reconciliation, pruning and restarts.

module StreamDedup {
  import opened Chain
  import opened Lru
  import opened StreamLog

  datatype Dedup = Dedup(emitted: seq<Hash>, finalized: seq<Hash>)

  const EMPTY := Dedup([], [])

  // ---- Folding events into the caches ----

  function PutAll(hashes: seq<Hash>): seq<Op> {
    seq(|hashes|, i requires 0 <= i < |hashes| => Put(hashes[i]))
  }

  function PopAll(hashes: seq<Hash>): seq<Op> {
    seq(|hashes|, i requires 0 <= i < |hashes| => Pop(hashes[i]))
  }

  datatype Cache = EmittedCache | FinalizedCache

  /**
   * Operations one event makes on a cache. A new fork marks its blocks emitted
   * and orphans stay marked; orphans leave the finalized cache, so that they can
   * be finalized again.
   */
  function Ops(e: Event, cache: Cache): seq<Op> {
    match cache
    case EmittedCache =>
      if e.Observed? then [Put(e.hash)] else if e.Reorged? then PutAll(e.newFork) else []
    case FinalizedCache =>
      if e.Finalized? then [Put(e.hash)] else if e.Reorged? then PopAll(e.orphaned) else []
  }

  function AllOps(events: seq<Event>, cache: Cache): seq<Op> {
    if events == [] then [] else AllOps(events[..|events| - 1], cache) + Ops(events[|events| - 1], cache)
  }

  function Note(d: Dedup, e: Event): Dedup {
    Dedup(Apply(d.emitted, Ops(e, EmittedCache), DEDUP_CAPACITY),
          Apply(d.finalized, Ops(e, FinalizedCache), DEDUP_CAPACITY))
  }

  function NoteAll(d: Dedup, events: seq<Event>): Dedup {
    if events == [] then d else Note(NoteAll(d, events[..|events| - 1]), events[|events| - 1])
  }

  lemma {:induction false} NoteAllEmitted(d: Dedup, events: seq<Event>)
    ensures NoteAll(d, events).emitted == Apply(d.emitted, AllOps(events, EmittedCache), DEDUP_CAPACITY)
    decreases |events|
  {
    if events != [] {
      var rest, last := events[..|events| - 1], events[|events| - 1];
      NoteAllEmitted(d, rest);
      ApplyConcat(d.emitted, AllOps(rest, EmittedCache), Ops(last, EmittedCache), DEDUP_CAPACITY);
    }
  }

  lemma {:induction false} NoteAllFinalized(d: Dedup, events: seq<Event>)
    ensures NoteAll(d, events).finalized == Apply(d.finalized, AllOps(events, FinalizedCache), DEDUP_CAPACITY)
    decreases |events|
  {
    if events != [] {
      var rest, last := events[..|events| - 1], events[|events| - 1];
      NoteAllFinalized(d, rest);
      ApplyConcat(d.finalized, AllOps(rest, FinalizedCache), Ops(last, FinalizedCache), DEDUP_CAPACITY);
    }
  }

  lemma Assoc(a: seq<Op>, b: seq<Op>, c: seq<Op>)
    ensures (a + b) + c == a + (b + c)
  {
  }

  lemma {:induction false} OpsConcat(a: seq<Event>, b: seq<Event>, cache: Cache)
    ensures AllOps(a + b, cache) == AllOps(a, cache) + AllOps(b, cache)
    decreases |b|
  {
    if b == [] {
      assert a + b == a;
    } else {
      var rest, last := b[..|b| - 1], b[|b| - 1];
      assert (a + b)[..|a + b| - 1] == a + rest && (a + b)[|a + b| - 1] == last;
      OpsConcat(a, rest, cache);
      Assoc(AllOps(a, cache), AllOps(rest, cache), Ops(last, cache));
    }
  }

  lemma FoldSuffix(events: seq<Event>, k: nat, cache: Cache)
    requires k <= |events|
    ensures Apply([], AllOps(events[k..], cache), DEDUP_CAPACITY) <= Apply([], AllOps(events, cache), DEDUP_CAPACITY)
  {
    assert events == events[..k] + events[k..];
    OpsConcat(events[..k], events[k..], cache);
    var ops, n := AllOps(events, cache), |AllOps(events[..k], cache)|;
    assert ops[n..] == AllOps(events[k..], cache);
    SuffixRemembersLess(ops, n, DEDUP_CAPACITY);
  }

  /**
   * A rebuild from any suffix of the events remembers a recency prefix of what
   * the fold of all of them does: it suppresses only what the live caches would.
   */
  lemma RebuildRemembersLess(events: seq<Event>, k: nat)
    requires k <= |events|
    ensures NoteAll(EMPTY, events[k..]).emitted <= NoteAll(EMPTY, events).emitted
    ensures NoteAll(EMPTY, events[k..]).finalized <= NoteAll(EMPTY, events).finalized
  {
    FoldSuffix(events, k, EmittedCache);
    FoldSuffix(events, k, FinalizedCache);
    NoteAllEmitted(EMPTY, events);
    NoteAllFinalized(EMPTY, events);
    NoteAllEmitted(EMPTY, events[k..]);
    NoteAllFinalized(EMPTY, events[k..]);
  }

  lemma {:induction false} NoteAllConcat(d: Dedup, a: seq<Event>, b: seq<Event>)
    ensures NoteAll(d, a + b) == NoteAll(NoteAll(d, a), b)
    decreases |b|
  {
    if b == [] {
      assert a + b == a;
    } else {
      assert (a + b)[..|a + b| - 1] == a + b[..|b| - 1];
      NoteAllConcat(d, a, b[..|b| - 1]);
    }
  }

  ghost predicate Caches(d: Dedup) {
    IsCache(d.emitted, DEDUP_CAPACITY) && IsCache(d.finalized, DEDUP_CAPACITY)
  }

  /** `a` remembers a recency prefix of what `b` does. */
  ghost predicate RemembersLess(a: Dedup, b: Dedup) {
    a.emitted <= b.emitted && a.finalized <= b.finalized
  }

  lemma NoteAllKeepsOrder(a: Dedup, b: Dedup, events: seq<Event>)
    requires RemembersLess(a, b) && Caches(b)
    ensures RemembersLess(NoteAll(a, events), NoteAll(b, events)) && Caches(NoteAll(b, events))
  {
    NoteAllEmitted(a, events);
    NoteAllFinalized(a, events);
    NoteAllEmitted(b, events);
    NoteAllFinalized(b, events);
    ApplyPrefix(a.emitted, b.emitted, AllOps(events, EmittedCache), DEDUP_CAPACITY);
    ApplyPrefix(a.finalized, b.finalized, AllOps(events, FinalizedCache), DEDUP_CAPACITY);
    ApplyIsCache(b.emitted, AllOps(events, EmittedCache), DEDUP_CAPACITY);
    ApplyIsCache(b.finalized, AllOps(events, FinalizedCache), DEDUP_CAPACITY);
  }

  // ---- The system: all frames ever appended, what is retained, and the writer ----

  /** Reconciliation frames are appended by the producer, past the writer's caches. */
  datatype Entry = Entry(event: Event, byWriter: bool)

  datatype Sys = Sys(history: seq<Entry>, first: nat, dedup: Dedup, appends: nat)

  function Events(history: seq<Entry>): (r: seq<Event>)
    ensures |r| == |history|
    ensures forall i :: 0 <= i < |history| ==> r[i] == history[i].event
  {
    seq(|history|, i requires 0 <= i < |history| => history[i].event)
  }

  function ByWriter(events: seq<Event>): (r: seq<Entry>)
    ensures |r| == |events|
    ensures forall i :: 0 <= i < |events| ==> r[i] == Entry(events[i], true)
  {
    seq(|events|, i requires 0 <= i < |events| => Entry(events[i], true))
  }

  /** Blocks of a batch not yet marked emitted, in order. */
  function Unmarked(hashes: seq<Hash>, emitted: seq<Hash>): seq<Hash> {
    if hashes == [] then []
    else
      var rest := Unmarked(hashes[..|hashes| - 1], emitted);
      if hashes[|hashes| - 1] in emitted then rest else rest + [hashes[|hashes| - 1]]
  }

  function ObserveAll(hashes: seq<Hash>): (r: seq<Event>)
    ensures |r| == |hashes|
    ensures forall i :: 0 <= i < |hashes| ==> r[i] == Observed(hashes[i])
  {
    seq(|hashes|, i requires 0 <= i < |hashes| => Observed(hashes[i]))
  }

  /** Where a prune after an append of frame `latest` cuts. */
  function KeepFrom(latest: nat): nat {
    SatSub(latest + 1, RETENTION_EVENTS)
  }

  /** A committed writer transaction: append, prune once per interval, note, count. */
  function Commit(s: Sys, events: seq<Event>): Sys {
    if events == [] then s
    else
      var history := s.history + ByWriter(events);
      var reached := s.appends + |events| >= PRUNE_INTERVAL;
      Sys(history,
          if reached then Max(s.first, KeepFrom(|history| - 1)) else s.first,
          NoteAll(s.dedup, events),
          if reached then 0 else s.appends + |events|)
  }

  /** First retained number the restart reads: the newest frame and `DEDUP_CAPACITY` before it. */
  function TailStart(s: Sys): nat {
    Max(s.first, SatSub(SatSub(|s.history|, 1), DEDUP_CAPACITY))
  }

  datatype Step =
    | Observe(hashes: seq<Hash>)
    | Finalize(hash: Hash)
    | Reorganize(orphaned: seq<Hash>, newFork: seq<Hash>)
    | Aborted
    | Reconcile(missing: Hash)
    | ProducerPrune(fanned: nat)
    | Restart

  function Next(s: Sys, step: Step): Sys {
    match step
    case Observe(hashes) => Commit(s, ObserveAll(Unmarked(hashes, s.dedup.emitted)))
    case Finalize(h) => if h in s.dedup.finalized then s else Commit(s, [Finalized(h)])
    case Reorganize(orphaned, newFork) => Commit(s, [Reorged(orphaned, newFork)])
    case Aborted => s
    case Reconcile(h) => s.(history := s.history + [Entry(Finalized(h), false)])
    case ProducerPrune(fanned) =>
      if fanned < |s.history| then s.(first := Max(s.first, KeepFrom(fanned))) else s
    case Restart =>
      if TailStart(s) <= |s.history| then s.(dedup := NoteAll(EMPTY, Events(s.history)[TailStart(s)..]), appends := 0)
      else s
  }

  /** A process that could not read the tail. */
  function ColdStart(s: Sys): Sys {
    s.(dedup := EMPTY, appends := 0)
  }

  // ---- Retention ----

  /** Only frames older than the newest `RETENTION_EVENTS` are ever deleted. */
  ghost predicate Retained(s: Sys) {
    s.first == 0 || s.first + RETENTION_EVENTS <= |s.history|
  }

  lemma StepRetains(s: Sys, step: Step)
    requires Retained(s)
    ensures Retained(Next(s, step))
  {
  }

  /** Hence a restart always reads the full tail it asks for. */
  lemma TailIsRetained(s: Sys)
    requires Retained(s)
    ensures TailStart(s) == SatSub(SatSub(|s.history|, 1), DEDUP_CAPACITY) <= |s.history|
  {
  }

  function IsReconcile(step: Step): nat {
    if step.Reconcile? then 1 else 0
  }

  /** Length bound within one process: the starting length or the retention, plus what is uncounted since. */
  ghost predicate Bounded(s: Sys, base: nat, reconciled: nat) {
    s.appends < PRUNE_INTERVAL && |s.history| - s.first <= base + s.appends + reconciled
  }

  lemma StepBounded(s: Sys, step: Step, base: nat, reconciled: nat)
    requires Retained(s) && Bounded(s, base, reconciled) && base >= RETENTION_EVENTS && !step.Restart?
    ensures Bounded(Next(s, step), base, reconciled + IsReconcile(step))
  {
  }

  ghost function Run(s: Sys, steps: seq<Step>): Sys {
    if steps == [] then s else Next(Run(s, steps[..|steps| - 1]), steps[|steps| - 1])
  }

  ghost function Reconciled(steps: seq<Step>): nat {
    if steps == [] then 0 else Reconciled(steps[..|steps| - 1]) + IsReconcile(steps[|steps| - 1])
  }

  /**
   * Within one process the log never grows past its starting length or the
   * retention, whichever is larger, by more than the frames of the current
   * prune interval and the reconciled ones, and the newest
   * `RETENTION_EVENTS` frames survive every step.
   */
  lemma {:induction false} LogStaysBounded(s: Sys, steps: seq<Step>)
    requires Retained(s) && s.appends == 0 && s.first <= |s.history|
    requires forall k :: 0 <= k < |steps| ==> !steps[k].Restart?
    ensures Retained(Run(s, steps))
    ensures Bounded(Run(s, steps), Max(|s.history| - s.first, RETENTION_EVENTS), Reconciled(steps))
    decreases |steps|
  {
    if steps != [] {
      var rest := steps[..|steps| - 1];
      LogStaysBounded(s, rest);
      StepRetains(Run(s, rest), steps[|steps| - 1]);
      StepBounded(Run(s, rest), steps[|steps| - 1], Max(|s.history| - s.first, RETENTION_EVENTS), Reconciled(rest));
    }
  }

  /** A committed append that reaches the interval brings the log back to the retention at once. */
  lemma IntervalPrunes(s: Sys, events: seq<Event>)
    requires s.first <= |s.history| && events != [] && s.appends + |events| >= PRUNE_INTERVAL
    ensures |Commit(s, events).history| - Commit(s, events).first <= RETENTION_EVENTS
    ensures Commit(s, events).appends == 0
  {
  }

  // ---- Restarts only forget ----

  /** The caches are a recency prefix of the fold of `noted`. */
  ghost predicate ForgetsOnly(s: Sys, noted: seq<Event>) {
    RemembersLess(s.dedup, NoteAll(EMPTY, noted)) && Caches(NoteAll(EMPTY, noted))
  }

  /**
   * What the caches have been shown after a step: the frames the writer commits,
   * and at a restart the whole log. A reconciliation frame goes past them until
   * the next restart.
   */
  ghost function NotedNext(s: Sys, noted: seq<Event>, step: Step): seq<Event> {
    match step
    case Observe(hashes) => noted + ObserveAll(Unmarked(hashes, s.dedup.emitted))
    case Finalize(h) => if h in s.dedup.finalized then noted else noted + [Finalized(h)]
    case Reorganize(orphaned, newFork) => noted + [Reorged(orphaned, newFork)]
    case Restart => Events(s.history)
    case _ => noted
  }

  ghost function Noted(steps: seq<Step>): seq<Event> {
    if steps == [] then []
    else
      var rest := steps[..|steps| - 1];
      NotedNext(Run(Sys([], 0, EMPTY, 0), rest), Noted(rest), steps[|steps| - 1])
  }

  lemma CommitForgetsOnly(s: Sys, noted: seq<Event>, events: seq<Event>)
    requires ForgetsOnly(s, noted)
    ensures ForgetsOnly(Commit(s, events), noted + events)
  {
    if events == [] {
      assert noted + events == noted;
    } else {
      NoteAllConcat(EMPTY, noted, events);
      NoteAllKeepsOrder(s.dedup, NoteAll(EMPTY, noted), events);
    }
  }

  lemma RestartForgetsOnly(s: Sys)
    requires Retained(s)
    ensures ForgetsOnly(Next(s, Restart), Events(s.history))
  {
    TailIsRetained(s);
    RebuildRemembersLess(Events(s.history), TailStart(s));
    NoteAllKeepsOrder(EMPTY, EMPTY, Events(s.history));
  }

  lemma StepForgetsOnly(s: Sys, noted: seq<Event>, step: Step)
    requires ForgetsOnly(s, noted) && Retained(s)
    ensures ForgetsOnly(Next(s, step), NotedNext(s, noted, step))
  {
    match step
    case Observe(hashes) => CommitForgetsOnly(s, noted, ObserveAll(Unmarked(hashes, s.dedup.emitted)));
    case Finalize(h) => CommitForgetsOnly(s, noted, [Finalized(h)]);
    case Reorganize(orphaned, newFork) => CommitForgetsOnly(s, noted, [Reorged(orphaned, newFork)]);
    case Restart => RestartForgetsOnly(s);
    case _ =>
  }

  /**
   * After every run with any number of restarts, the caches are a recency prefix
   * of the fold of everything they were shown: a restart only forgets.
   */
  lemma {:induction false} RestartsOnlyForget(steps: seq<Step>)
    ensures Retained(Run(Sys([], 0, EMPTY, 0), steps)) && ForgetsOnly(Run(Sys([], 0, EMPTY, 0), steps), Noted(steps))
    decreases |steps|
  {
    if steps != [] {
      var rest, step := steps[..|steps| - 1], steps[|steps| - 1];
      RestartsOnlyForget(rest);
      StepRetains(Run(Sys([], 0, EMPTY, 0), rest), step);
      StepForgetsOnly(Run(Sys([], 0, EMPTY, 0), rest), Noted(rest), step);
    }
  }

  /** A cold start only forgets, too, and keeps what is retained: it can cost a duplicate, never a frame. */
  lemma ColdStartForgetsOnly(s: Sys, noted: seq<Event>)
    requires ForgetsOnly(s, noted) && Retained(s)
    ensures ForgetsOnly(ColdStart(s), noted) && Retained(ColdStart(s))
    ensures RemembersLess(ColdStart(s).dedup, Next(s, Restart).dedup)
  {
  }

  /** In a run without reconciliation frames they were shown the whole history. */
  lemma {:induction false} NotedIsHistory(steps: seq<Step>)
    requires forall k :: 0 <= k < |steps| ==> !steps[k].Reconcile?
    ensures Noted(steps) == Events(Run(Sys([], 0, EMPTY, 0), steps).history)
    decreases |steps|
  {
    if steps != [] {
      var rest, step := steps[..|steps| - 1], steps[|steps| - 1];
      NotedIsHistory(rest);
      NextNotesHistory(Run(Sys([], 0, EMPTY, 0), rest), step);
    }
  }

  lemma NextNotesHistory(s: Sys, step: Step)
    requires !step.Reconcile?
    ensures NotedNext(s, Events(s.history), step) == Events(Next(s, step).history)
  {
    match step
    case Observe(hashes) => CommitAppends(s, ObserveAll(Unmarked(hashes, s.dedup.emitted)));
    case Finalize(h) => CommitAppends(s, [Finalized(h)]);
    case Reorganize(orphaned, newFork) => CommitAppends(s, [Reorged(orphaned, newFork)]);
    case _ =>
  }

  lemma CommitAppends(s: Sys, events: seq<Event>)
    ensures Events(Commit(s, events).history) == Events(s.history) + events
  {
    assert Events(s.history + ByWriter(events)) == Events(s.history) + events;
  }

  /**
   * One reconciliation frame against the fold of the whole log: the caches stay a
   * recency prefix of it exactly when they hold no finalized block or that block
   * first.
   */
  lemma ReconcileForgetsOnlyIff(s: Sys, h: Hash)
    requires ForgetsOnly(s, Events(s.history))
    ensures var after := Next(s, Reconcile(h));
      ForgetsOnly(after, Events(after.history)) <==> s.dedup.finalized == [] || s.dedup.finalized[0] == h
  {
    var after, fold := Next(s, Reconcile(h)), NoteAll(EMPTY, Events(s.history));
    assert Events(after.history) == Events(s.history) + [Finalized(h)];
    assert Events(after.history)[..|s.history|] == Events(s.history);
    assert NoteAll(EMPTY, Events(after.history)) == Note(fold, Finalized(h));
    NoteFinalized(fold, h);
    Apply1IsCache(fold.finalized, Put(h), DEDUP_CAPACITY);
  }

  lemma NoteFinalized(d: Dedup, h: Hash)
    ensures Note(d, Finalized(h)) == Dedup(d.emitted, Apply1(d.finalized, Put(h), DEDUP_CAPACITY))
  {
    var put := [Put(h)];
    assert put[..0] == [] && Apply(d.finalized, put[..0], DEDUP_CAPACITY) == d.finalized;
  }

  /** When the whole log fits in the tail read, a restart rebuilds exactly the fold of the history. */
  lemma ShortLogRebuildsExactly(s: Sys)
    requires Retained(s) && |s.history| <= DEDUP_CAPACITY + 1
    ensures Next(s, Restart).dedup == NoteAll(EMPTY, Events(s.history))
  {
    TailIsRetained(s);
    assert Events(s.history)[0..] == Events(s.history);
  }
}
