// The writer object of the block stream: `BlockMigrationService`'s log appends,
// its de-dup caches and its prune counter, updated in place.

module StreamWriting {
  import opened Chain
  import opened Lru
  import opened StreamLog
  import opened StreamDedup
  import opened Outcome

  method PutEach(c: seq<Hash>, hashes: seq<Hash>) returns (r: seq<Hash>)
    ensures r == Apply(c, PutAll(hashes), DEDUP_CAPACITY)
  {
    r := c;
    for k := 0 to |hashes|
      invariant r == Apply(c, PutAll(hashes)[..k], DEDUP_CAPACITY)
    {
      assert PutAll(hashes)[..k + 1][..k] == PutAll(hashes)[..k];
      r := Apply1(r, Put(hashes[k]), DEDUP_CAPACITY);
    }
    assert PutAll(hashes)[..|hashes|] == PutAll(hashes);
  }

  method PopEach(c: seq<Hash>, hashes: seq<Hash>) returns (r: seq<Hash>)
    ensures r == Apply(c, PopAll(hashes), DEDUP_CAPACITY)
  {
    r := c;
    for k := 0 to |hashes|
      invariant r == Apply(c, PopAll(hashes)[..k], DEDUP_CAPACITY)
    {
      assert PopAll(hashes)[..k + 1][..k] == PopAll(hashes)[..k];
      r := Apply1(r, Pop(hashes[k]), DEDUP_CAPACITY);
    }
    assert PopAll(hashes)[..|hashes|] == PopAll(hashes);
  }

  /** One frame of `note_stream_frames_locked`. */
  method NoteOne(d: Dedup, e: Event) returns (r: Dedup)
    ensures r == Note(d, e)
  {
    match e
    case Observed(h) =>
      var emitted := PutEach(d.emitted, [h]);
      assert PutAll([h]) == [Put(h)];
      r := d.(emitted := emitted);
    case Finalized(h) =>
      var finalized := PutEach(d.finalized, [h]);
      assert PutAll([h]) == [Put(h)];
      r := d.(finalized := finalized);
    case Reorged(orphaned, newFork) =>
      var emitted := PutEach(d.emitted, newFork);
      var finalized := PopEach(d.finalized, orphaned);
      r := Dedup(emitted, finalized);
  }

  /** The appends of one transaction, each at the next free number. */
  method StageFrames(log: Log, events: seq<Event>) returns (staged: Log, frames: seq<Frame>)
    requires log.Valid()
    ensures staged == Log(log.first, log.events + events) && |frames| == |events|
    ensures forall i :: 0 <= i < |events| ==> frames[i] == Frame(log.End() + i, events[i])
  {
    staged, frames := log, [];
    for k := 0 to |events|
      invariant staged == Log(log.first, log.events + events[..k]) && |frames| == k
      invariant forall i :: 0 <= i < k ==> frames[i] == Frame(log.End() + i, events[i])
    {
      frames := frames + [Frame(staged.End(), events[k])];
      staged := staged.Append(events[k]);
    }
    assert events[..|events|] == events;
  }

  /** `note_stream_frames_locked`. */
  method NoteFrames(dedup: Dedup, events: seq<Event>) returns (d: Dedup)
    ensures d == NoteAll(dedup, events)
  {
    d := dedup;
    for k := 0 to |events|
      invariant d == NoteAll(dedup, events[..k])
    {
      assert events[..k + 1][..k] == events[..k];
      d := NoteOne(d, events[k]);
    }
    assert events[..|events|] == events;
  }

  /** `rebuild_state_in`: fold the newest retained events into fresh caches. */
  method RebuildState(log: Log) returns (d: Dedup)
    requires log.Valid()
    ensures d == NoteAll(EMPTY, log.events[SatSub(SatSub(|log.events|, 1), DEDUP_CAPACITY)..])
  {
    d := NoteFrames(EMPTY, log.events[SatSub(SatSub(|log.events|, 1), DEDUP_CAPACITY)..]);
  }

  /** The frames handed to fan-out are the ones a commit added to the history, numbered as there. */
  ghost predicate NewFrames(before: seq<Entry>, after: seq<Entry>, frames: seq<Frame>) {
    && |after| == |before| + |frames|
    && forall i :: 0 <= i < |frames| ==> frames[i] == Frame(|before| + i, after[|before| + i].event)
  }

  class StreamWriter {
    var log: Log
    var dedup: Dedup
    var appendsSincePrune: nat

    /** The fields are the writer part of the system and the retained part of its history. */
    ghost predicate Represents(s: Sys)
      reads this
    {
      && s.first <= |s.history|
      && log == Log(s.first, Events(s.history)[s.first..]) && log.Valid()
      && dedup == s.dedup && appendsSincePrune == s.appends
    }

    /**
     * Construction seeds the caches from the log tail: the restart step. With
     * seeding off or a tail that cannot be read it starts with empty caches.
     */
    constructor (log: Log, seeds: bool, ghost s: Sys)
      requires log.Valid() && Retained(s) && s.first <= |s.history| && log == Log(s.first, Events(s.history)[s.first..])
      ensures Represents(if seeds then Next(s, Restart) else ColdStart(s))
    {
      var seeded := EMPTY;
      if seeds {
        seeded := RebuildState(log);
      }
      this.log := log;
      this.dedup := seeded;
      this.appendsSincePrune := 0;
      TailIsRetained(s);
      assert log.events[SatSub(SatSub(|log.events|, 1), DEDUP_CAPACITY)..] == Events(s.history)[TailStart(s)..];
    }

    /**
     * Append, prune once per interval, and on commit note and count. A
     * transaction that does not commit leaves log, caches and counter alone.
     */
    method AppendFrames(events: seq<Event>, commits: bool, ghost s: Sys) returns (frames: seq<Frame>)
      requires Represents(s)
      modifies this
      ensures !commits ==> unchanged(this) && frames == []
      ensures commits ==> Represents(Commit(s, events))
      ensures commits ==>
        |frames| == |events| && forall i :: 0 <= i < |events| ==> frames[i] == Frame(|s.history| + i, events[i])
    {
      var staged;
      staged, frames := StageFrames(log, events);
      ghost var history := s.history + ByWriter(events);
      assert Events(history)[s.first..] == Events(s.history)[s.first..] + events;
      if !commits {
        return [];
      }
      if events == [] {
        return;
      }
      var reached := appendsSincePrune + |events| >= PRUNE_INTERVAL;
      if reached {
        var keep := KeepFrom(staged.End() - 1);
        if keep != 0 {
          staged := staged.PruneBelow(keep);
        }
      }
      log := staged;
      dedup := NoteFrames(dedup, events);
      appendsSincePrune := if reached then 0 else appendsSincePrune + |events|;
    }

    /** `persist_metadata` with `Observed`: skip blocks already marked emitted. */
    method PersistObserved(hashes: seq<Hash>, commits: bool, ghost s: Sys) returns (frames: seq<Frame>)
      requires Represents(s)
      modifies this
      ensures !commits ==> unchanged(this) && frames == []
      ensures commits ==>
        Represents(Next(s, Observe(hashes))) && NewFrames(s.history, Next(s, Observe(hashes)).history, frames)
    {
      var events: seq<Event> := [];
      for k := 0 to |hashes|
        invariant events == ObserveAll(Unmarked(hashes[..k], dedup.emitted))
      {
        assert hashes[..k + 1][..k] == hashes[..k];
        if hashes[k] !in dedup.emitted {
          events := events + [Observed(hashes[k])];
        }
      }
      assert hashes[..|hashes|] == hashes;
      frames := AppendFrames(events, commits, s);
    }

    /** `persist_metadata` with `Reorged`: one frame carries the whole switch. */
    method PersistReorged(orphaned: seq<Hash>, newFork: seq<Hash>, commits: bool, ghost s: Sys)
      returns (frames: seq<Frame>)
      requires Represents(s)
      modifies this
      ensures !commits ==> unchanged(this) && frames == []
      ensures commits ==> Represents(Next(s, Reorganize(orphaned, newFork)))
      ensures commits ==> NewFrames(s.history, Next(s, Reorganize(orphaned, newFork)).history, frames)
    {
      frames := AppendFrames([Reorged(orphaned, newFork)], commits, s);
    }

    /** The stream part of `persist_block`. */
    method PersistFinalized(hash: Hash, commits: bool, ghost s: Sys) returns (frame: Option<Frame>)
      requires Represents(s)
      modifies this
      ensures !commits ==> unchanged(this)
      ensures commits ==> Represents(Next(s, Finalize(hash)))
      ensures frame == if commits && hash !in s.dedup.finalized then Some(Frame(|s.history|, Finalized(hash))) else None
    {
      if hash in dedup.finalized {
        return None;
      }
      var frames := AppendFrames([Finalized(hash)], commits, s);
      frame := if commits then Some(frames[0]) else None;
    }
  }
}
