// The producer: startup reconciliation of `finalized` frames against the block
// index, and its own share of the log retention.

module Reconciliation {
  import opened Chain
  import opened Lru
  import opened StreamLog
  import opened StreamDedup
  import opened StreamWriting
  import opened StreamFanout
  import opened Outcome

  /** Longest top segment of the index with no hash already finalized, oldest first. */
  function TopGap(index: seq<Hash>, finalized: seq<Hash>): seq<Hash> {
    if index == [] || index[|index| - 1] in finalized then []
    else TopGap(index[..|index| - 1], finalized) + [index[|index| - 1]]
  }

  /** What reconciliation appends: nothing on a young log or when the tails do not meet in time. */
  function Missing(index: seq<Hash>, finalized: seq<Hash>): seq<Hash> {
    var gap := TopGap(index, finalized);
    if finalized == [] || |gap| >= RECONCILE_SCAN_CAP then [] else gap
  }

  /** The gap is a suffix of the index, free of finalized hashes, and cannot be longer. */
  lemma {:induction false} TopGapIsMaximal(index: seq<Hash>, finalized: seq<Hash>)
    ensures var gap := TopGap(index, finalized);
      && |gap| <= |index| && gap == index[|index| - |gap|..]
      && (forall i :: 0 <= i < |gap| ==> gap[i] !in finalized)
      && (|gap| < |index| ==> index[|index| - |gap| - 1] in finalized)
    decreases |index|
  {
    if index != [] && index[|index| - 1] !in finalized {
      TopGapIsMaximal(index[..|index| - 1], finalized);
    }
  }

  ghost predicate FreeFrom(index: seq<Hash>, low: nat, finalized: seq<Hash>) {
    forall i :: low <= i < |index| ==> index[i] !in finalized
  }

  /** Above the last finalized entry of the index, or from genesis if it has none. */
  ghost predicate GapStartsAt(index: seq<Hash>, finalized: seq<Hash>, k: nat) {
    k <= |index| && (k > 0 ==> index[k - 1] in finalized) && FreeFrom(index, k, finalized)
  }

  /** The gap is everything above the last finalized entry. */
  lemma {:induction false} TopGapIs(index: seq<Hash>, finalized: seq<Hash>, k: nat)
    requires GapStartsAt(index, finalized, k)
    ensures TopGap(index, finalized) == index[k..]
    decreases |index|
  {
    if k < |index| {
      var rest, last := index[..|index| - 1], index[|index| - 1];
      TopGapIs(rest, finalized, k);
      assert rest[k..] + [last] == index[k..];
    }
  }

  /** The gap as a part of the index. */
  lemma GapPosition(index: seq<Hash>, finalized: seq<Hash>) returns (low: nat)
    ensures GapStartsAt(index, finalized, low) && TopGap(index, finalized) == index[low..]
  {
    var gap := TopGap(index, finalized);
    TopGapIsMaximal(index, finalized);
    low := |index| - |gap|;
    forall i | low <= i < |index| ensures index[i] !in finalized {
      assert gap[i - low] == index[i];
    }
  }

  /** The part above the last finalized entry, if there is a finalized hash and the part is shorter than the cap. */
  ghost predicate IsMissing(index: seq<Hash>, finalized: seq<Hash>, k: nat, missing: seq<Hash>) {
    && GapStartsAt(index, finalized, k)
    && missing == if finalized == [] || |index| - k >= RECONCILE_SCAN_CAP then [] else index[k..]
  }

  lemma MissingIsGap(index: seq<Hash>, finalized: seq<Hash>) returns (k: nat)
    ensures IsMissing(index, finalized, k, Missing(index, finalized))
  {
    k := GapPosition(index, finalized);
  }

  /** The backward scan. It collects newest first and gives up at the cap. */
  method ScanBack(index: seq<Hash>, finalized: seq<Hash>) returns (missing: seq<Hash>)
    ensures missing == Missing(index, finalized)
  {
    missing := [];
    if finalized == [] {
      return;
    }
    var height := |index|;
    assert index[..height] == index;
    while height > 0
      invariant 0 <= height <= |index| && |missing| < RECONCILE_SCAN_CAP
      invariant TopGap(index[..height], finalized) + missing == TopGap(index, finalized)
    {
      var below := index[..height];
      assert below[..height - 1] == index[..height - 1];
      if index[height - 1] in finalized {
        break;
      }
      missing := [index[height - 1]] + missing;
      height := height - 1;
      if |missing| >= RECONCILE_SCAN_CAP {
        return [];
      }
    }
  }

  /** The scan of `reconcile_finalized_tail`, said of the index. */
  method ScanMissing(index: seq<Hash>, finalized: seq<Hash>) returns (missing: seq<Hash>)
    ensures missing == Missing(index, finalized)
    ensures exists k: nat :: IsMissing(index, finalized, k, missing)
  {
    missing := ScanBack(index, finalized);
    ghost var k := MissingIsGap(index, finalized);
  }

  function FinalizeAll(hashes: seq<Hash>): (r: seq<Event>)
    ensures |r| == |hashes|
    ensures forall i :: 0 <= i < |hashes| ==> r[i] == Finalized(hashes[i])
  {
    seq(|hashes|, i requires 0 <= i < |hashes| => Finalized(hashes[i]))
  }

  /** The finalized hashes a rebuild from this log finds. */
  function FinalizedIn(log: Log): seq<Hash> {
    NoteAll(EMPTY, log.events[SatSub(SatSub(|log.events|, 1), DEDUP_CAPACITY)..]).finalized
  }

  /** The registry after `count` frames from number `n` on were fanned out in turn. */
  ghost function RetainEach(subs: seq<Subscriber>, n: nat, count: nat): seq<Subscriber> {
    if count == 0 then subs else Retain(RetainEach(subs, n, count - 1), n + count - 1)
  }

  /** The numbers `[n, n + count)` in order. */
  function Numbered(n: nat, count: nat): (r: seq<nat>)
    ensures |r| == count && forall i :: 0 <= i < count ==> r[i] == n + i
  {
    seq(count, i requires 0 <= i < count => n + i)
  }

  /** A live subscriber with room for them receives all reconciled frames in order and stays. */
  lemma {:induction false} ReconciledReachSubscriber(sub: Subscriber, n: nat, count: nat)
    requires sub.end <= n && sub.open && sub.buffered + count <= SUBSCRIBER_BUFFER
    ensures RetainEach([sub], n, count) ==
      [sub.(live := sub.live + Numbered(n, count), buffered := sub.buffered + count)]
    decreases count
  {
    if count == 0 {
      assert sub.live + Numbered(n, 0) == sub.live;
    } else {
      ReconciledReachSubscriber(sub, n, count - 1);
      var before := sub.(live := sub.live + Numbered(n, count - 1), buffered := sub.buffered + count - 1);
      var last := n + count - 1;
      assert [before][..0] == [] && Retain([before][..0], last) == [];
      assert Retain([before], last) == [before.(live := before.live + [last], buffered := before.buffered + 1)];
      assert Numbered(n, count) == Numbered(n, count - 1) + [last];
      assert before.live + [last] == sub.live + Numbered(n, count);
    }
  }

  ghost predicate IsSuffix(long: seq<Event>, short: seq<Event>) {
    |short| <= |long| && long[|long| - |short|..] == short
  }

  /** `after` is `before` with `events` appended and possibly some old events pruned, none of the new. */
  ghost predicate Appended(before: Log, after: Log, events: seq<Event>) {
    && after.Valid() && after.End() == before.End() + |events|
    && |events| <= |after.events| && IsSuffix(before.events + events, after.events)
  }

  /** All of it was appended, or everything before the first block that cannot be read. */
  ghost predicate Stops(missing: seq<Hash>, readable: Hash -> bool, r: Result<(), Hash>, done: nat) {
    && done <= |missing| && (forall k :: 0 <= k < done ==> readable(missing[k]))
    && (r.Ok? <==> done == |missing|) && (r.Err? ==> r.error == missing[done] && !readable(missing[done]))
  }

  /** The log after the first `done` missing blocks were appended. */
  ghost predicate CaughtUp(before: Log, after: Log, index: seq<Hash>, done: nat) {
    var missing := Missing(index, FinalizedIn(before));
    && done <= |missing| && Appended(before, after, FinalizeAll(missing[..done])) && (done == 0 ==> after == before)
  }

  class Producer {
    const handle: BlockStreamHandle
    var appendsSincePrune: nat

    constructor (handle: BlockStreamHandle)
      ensures this.handle == handle && appendsSincePrune == 0
    {
      this.handle := handle;
      this.appendsSincePrune := 0;
    }

    /** `maybe_prune`: once per interval, cut to the retention below frame `n`. */
    method MaybePrune(n: nat)
      requires handle.log.Valid() && n < handle.log.End() && appendsSincePrune < PRUNE_INTERVAL
      modifies this, handle`log
      ensures handle.log.Valid() && handle.log.End() == old(handle.log.End())
      ensures old(appendsSincePrune) + 1 < PRUNE_INTERVAL ==>
        appendsSincePrune == old(appendsSincePrune) + 1 && handle.log == old(handle.log)
      ensures old(appendsSincePrune) + 1 == PRUNE_INTERVAL ==>
        appendsSincePrune == 0 && handle.log == old(handle.log).PruneBelow(KeepFrom(n))
    {
      appendsSincePrune := appendsSincePrune + 1;
      if appendsSincePrune >= PRUNE_INTERVAL {
        appendsSincePrune := 0;
        handle.log := handle.log.PruneBelow(KeepFrom(n));
      }
    }

    /** `append`: durable append, fan-out, and the prune check. */
    method Append(e: Event)
      requires handle.log.Valid() && appendsSincePrune < PRUNE_INTERVAL
      modifies this, handle
      ensures handle.log.Valid() && appendsSincePrune < PRUNE_INTERVAL
      ensures old(appendsSincePrune) + 1 < PRUNE_INTERVAL ==>
        appendsSincePrune == old(appendsSincePrune) + 1 && handle.log == old(handle.log).Append(e)
      ensures old(appendsSincePrune) + 1 == PRUNE_INTERVAL ==>
        appendsSincePrune == 0 && handle.log == old(handle.log).Append(e).PruneBelow(KeepFrom(old(handle.log).End()))
      ensures handle.senders == Retain(old(handle.senders), old(handle.log.End()))
      ensures handle.closed == old(handle.closed)
    {
      var n := handle.AppendAndFanout(e);
      MaybePrune(n);
    }

    /**
     * `reconcile_finalized_tail`: append the missing top segment of the index, in
     * ascending height, up to the first block whose header or txs cannot be read.
     */
    method ReconcileFinalizedTail(index: seq<Hash>, readable: Hash -> bool)
      returns (r: Result<(), Hash>, ghost done: nat)
      requires handle.log.Valid() && appendsSincePrune < PRUNE_INTERVAL
      modifies this, handle
      ensures Stops(Missing(index, FinalizedIn(old(handle.log))), readable, r, done)
      ensures handle.senders == RetainEach(old(handle.senders), old(handle.log.End()), done)
      ensures CaughtUp(old(handle.log), handle.log, index, done) && appendsSincePrune < PRUNE_INTERVAL
    {
      var state := RebuildState(handle.log);
      var missing := ScanMissing(index, state.finalized);
      r, done := AppendAll(missing, readable);
    }

    method AppendAll(missing: seq<Hash>, readable: Hash -> bool) returns (r: Result<(), Hash>, ghost done: nat)
      requires handle.log.Valid() && appendsSincePrune < PRUNE_INTERVAL && |missing| < RECONCILE_SCAN_CAP
      modifies this, handle
      ensures Stops(missing, readable, r, done)
      ensures Appended(old(handle.log), handle.log, FinalizeAll(missing[..done])) && appendsSincePrune < PRUNE_INTERVAL
      ensures done == 0 ==> handle.log == old(handle.log)
      ensures handle.senders == RetainEach(old(handle.senders), old(handle.log.End()), done)
    {
      for k := 0 to |missing|
        invariant handle.log.Valid() && appendsSincePrune < PRUNE_INTERVAL
        invariant forall j :: 0 <= j < k ==> readable(missing[j])
        invariant Appended(old(handle.log), handle.log, FinalizeAll(missing[..k]))
        invariant k == 0 ==> handle.log == old(handle.log)
        invariant handle.senders == RetainEach(old(handle.senders), old(handle.log.End()), k)
      {
        if !readable(missing[k]) {
          return Err(missing[k]), k;
        }
        AppendNext(missing, k, old(handle.log), old(handle.senders));
      }
      return Ok(()), |missing|;
    }

    method AppendNext(missing: seq<Hash>, k: nat, ghost before: Log, ghost subs: seq<Subscriber>)
      requires k < |missing| < RECONCILE_SCAN_CAP && handle.log.Valid() && appendsSincePrune < PRUNE_INTERVAL
      requires Appended(before, handle.log, FinalizeAll(missing[..k]))
      requires handle.senders == RetainEach(subs, before.End(), k)
      modifies this, handle
      ensures handle.log.Valid() && appendsSincePrune < PRUNE_INTERVAL
      ensures handle.senders == RetainEach(subs, before.End(), k + 1)
      ensures Appended(before, handle.log, FinalizeAll(missing[..k + 1]))
    {
      ghost var mid := handle.log;
      Append(Finalized(missing[k]));
      AppendOne(before, mid, handle.log, FinalizeAll(missing[..k]), Finalized(missing[k]));
      assert FinalizeAll(missing[..k + 1]) == FinalizeAll(missing[..k]) + [Finalized(missing[k])];
    }
  }

  /** One more append, with or without the prune that follows it. */
  lemma AppendOne(before: Log, mid: Log, after: Log, events: seq<Event>, e: Event)
    requires Appended(before, mid, events) && |events| < RECONCILE_SCAN_CAP
    requires after == mid.Append(e) || after == mid.Append(e).PruneBelow(KeepFrom(mid.End()))
    ensures Appended(before, after, events + [e])
  {
    var all, longer := before.events + events, before.events + (events + [e]);
    assert longer == all + [e];
    assert IsSuffix(mid.events + [e], after.events);
    assert IsSuffix(longer, mid.events + [e]);
  }

  /** The last finalized frame of a log is always found by the rebuild. */
  lemma LastFinalizedIsFound(log: Log, h: Hash)
    requires log.events != [] && log.events[|log.events| - 1] == Finalized(h)
    ensures h in FinalizedIn(log)
  {
    var tail := log.events[SatSub(SatSub(|log.events|, 1), DEDUP_CAPACITY)..];
    assert tail[|tail| - 1] == Finalized(h);
    var before := NoteAll(EMPTY, tail[..|tail| - 1]);
    NoteFinalized(before, h);
    PutIsFirst(before.finalized, h, DEDUP_CAPACITY);
  }

  /** The log after appends that were not all pruned ends with the last of them. */
  lemma AppendedEnd(before: Log, after: Log, events: seq<Event>)
    requires Appended(before, after, events) && events != []
    ensures after.events != [] && after.events[|after.events| - 1] == events[|events| - 1]
  {
    var all := before.events + events;
    assert all[|all| - |after.events|..][|after.events| - 1] == all[|all| - 1];
  }

  // ---- What a second reconciliation finds ----

  /** A missing segment ends at the index tip. */
  lemma MissingEndsAtTip(index: seq<Hash>, finalized: seq<Hash>)
    requires Missing(index, finalized) != []
    ensures index != [] && Missing(index, finalized)[|Missing(index, finalized)| - 1] == index[|index| - 1]
  {
    TopGapIsMaximal(index, finalized);
  }

  /** A second reconciliation against the same index appends nothing. */
  lemma ReconcileIsIdempotent(before: Log, after: Log, index: seq<Hash>)
    requires var missing := Missing(index, FinalizedIn(before));
      Appended(before, after, FinalizeAll(missing)) && (missing == [] ==> after == before)
    ensures Missing(index, FinalizedIn(after)) == []
  {
    var missing := Missing(index, FinalizedIn(before));
    if missing != [] {
      MissingEndsAtTip(index, FinalizedIn(before));
      AppendedEnd(before, after, FinalizeAll(missing));
      LastFinalizedIsFound(after, index[|index| - 1]);
    }
  }

  lemma {:induction false} NoteAddsOnly(d: Dedup, hashes: seq<Hash>, x: Hash)
    requires x in NoteAll(d, FinalizeAll(hashes)).finalized
    ensures x in d.finalized || x in hashes
    decreases |hashes|
  {
    if hashes != [] {
      var rest, last := hashes[..|hashes| - 1], hashes[|hashes| - 1];
      var events := FinalizeAll(hashes);
      assert events[..|events| - 1] == FinalizeAll(rest) && events[|events| - 1] == Finalized(last);
      NoteFinalized(NoteAll(d, FinalizeAll(rest)), last);
      if x != last {
        NoteAddsOnly(d, rest, x);
      }
    }
  }

  /** The tail of the longer log is a tail of the old one, no longer than it, and the new events. */
  lemma AppendedTail(before: Log, after: Log, events: seq<Event>) returns (k: nat)
    requires Appended(before, after, events) && |events| < RECONCILE_SCAN_CAP
    ensures var old' := before.events[SatSub(SatSub(|before.events|, 1), DEDUP_CAPACITY)..];
      && k <= |old'|
      && after.events[SatSub(SatSub(|after.events|, 1), DEDUP_CAPACITY)..] == old'[k..] + events
  {
    var all := before.events + events;
    var start := SatSub(SatSub(|before.events|, 1), DEDUP_CAPACITY);
    var tail := after.events[SatSub(SatSub(|after.events|, 1), DEDUP_CAPACITY)..];
    var from := |all| - |tail|;
    SuffixOfSuffix(all, after.events, |after.events| - |tail|);
    k := from - start;
    assert before.events[start..][k..] == before.events[from..];
    assert all[from..] == before.events[from..] + events;
  }

  lemma SuffixOfSuffix(long: seq<Event>, short: seq<Event>, k: nat)
    requires IsSuffix(long, short) && k <= |short|
    ensures short[k..] == long[|long| - |short| + k..]
  {
  }

  /** A rebuild of the longer log finds no finalized hash besides the old ones and the new. */
  lemma AppendedFinds(before: Log, after: Log, hashes: seq<Hash>, x: Hash)
    requires Appended(before, after, FinalizeAll(hashes)) && |hashes| < RECONCILE_SCAN_CAP && x in FinalizedIn(after)
    ensures x in FinalizedIn(before) || x in hashes
  {
    var k := AppendedTail(before, after, FinalizeAll(hashes));
    var tail := before.events[SatSub(SatSub(|before.events|, 1), DEDUP_CAPACITY)..];
    NoteAllConcat(EMPTY, tail[k..], FinalizeAll(hashes));
    NoteAddsOnly(NoteAll(EMPTY, tail[k..]), hashes, x);
    RebuildRemembersLess(tail, k);
  }

  ghost predicate AddsOnly(finalized: seq<Hash>, later: seq<Hash>, added: seq<Hash>) {
    forall x :: x in later ==> x in finalized || x in added
  }

  /** The part of the index above `k` is the gap, if nothing of it got finalized with the entries below it. */
  lemma GapAbove(index: seq<Hash>, finalized: seq<Hash>, later: seq<Hash>, low: nat, k: nat)
    requires Distinct(index) && low < k <= |index| && index[k - 1] in later
    requires FreeFrom(index, low, finalized) && AddsOnly(finalized, later, index[low..k])
    ensures TopGap(index, later) == index[k..]
  {
    forall i | k <= i < |index| ensures index[i] !in later {
      assert index[i] !in index[low..k];
    }
    TopGapIs(index, later, k);
  }

  /** Once the first `done` entries of the gap are finalized, and nothing else, the gap is the rest of it. */
  lemma GapShrinks(index: seq<Hash>, finalized: seq<Hash>, later: seq<Hash>, gap: seq<Hash>, done: nat)
    requires Distinct(index) && gap == TopGap(index, finalized) && 0 < done <= |gap| && gap[done - 1] in later
    requires AddsOnly(finalized, later, gap[..done])
    ensures TopGap(index, later) == gap[done..]
  {
    var low := GapPosition(index, finalized);
    assert gap[..done] == index[low..low + done] && gap[done..] == index[low + done..];
    GapAbove(index, finalized, later, low, low + done);
  }

  lemma LastAppendedIsFound(before: Log, after: Log, hashes: seq<Hash>)
    requires Appended(before, after, FinalizeAll(hashes)) && hashes != []
    ensures hashes[|hashes| - 1] in FinalizedIn(after)
  {
    AppendedEnd(before, after, FinalizeAll(hashes));
    LastFinalizedIsFound(after, hashes[|hashes| - 1]);
  }

  /**
   * After a reconciliation that stopped anywhere, the next one finds missing
   * exactly what the first one did not append: an interrupted reconciliation is
   * resumed, a finished one has nothing left to do, and no frame is doubled.
   */
  lemma ReconcileResumes(before: Log, after: Log, index: seq<Hash>, done: nat)
    requires Distinct(index) && CaughtUp(before, after, index, done)
    ensures Missing(index, FinalizedIn(after)) == Missing(index, FinalizedIn(before))[done..]
  {
    var missing := Missing(index, FinalizedIn(before));
    if done > 0 {
      var appended := missing[..done];
      LastAppendedIsFound(before, after, appended);
      assert AddsOnly(FinalizedIn(before), FinalizedIn(after), appended) by {
        forall x | x in FinalizedIn(after) ensures x in FinalizedIn(before) || x in appended {
          AppendedFinds(before, after, appended, x);
        }
      }
      GapShrinks(index, FinalizedIn(before), FinalizedIn(after), missing, done);
    }
  }
}
