// The durable block-stream log: appends, pruning, the poll page and the replay
// page of `block_stream_service.rs`, and what a follower sees over many pages.

module StreamLog {
  import opened Chain
  import opened Outcome

  datatype Event =
    | Observed(hash: Hash)
    | Finalized(hash: Hash)
    | Reorged(orphaned: seq<Hash>, newFork: seq<Hash>)

  datatype Frame = Frame(number: nat, event: Event)

  const RETENTION_EVENTS: nat := 100_000
  const PRUNE_INTERVAL: nat := 1_000
  const DEDUP_CAPACITY: nat := 10_000
  const SUBSCRIBER_BUFFER: nat := 1_024
  const MAX_PAGE: nat := 1_024
  const RECONCILE_SCAN_CAP: nat := 1_000

  /** Retained events under consecutive sequence numbers; an emptied log forgets its high watermark. */
  datatype Log = Log(first: nat, events: seq<Event>) {
    predicate Valid() {
      events == [] ==> first == 0
    }

    /** `block_stream_log_bounds`: lowest retained number and logical length. */
    function End(): nat {
      first + |events|
    }

    function Append(e: Event): Log {
      Log(first, events + [e])
    }

    /** Delete everything numbered below `keep`. */
    function PruneBelow(keep: nat): Log {
      if keep <= first then this
      else if keep >= End() then Log(0, [])
      else Log(keep, events[keep - first..])
    }

    function Read(from: nat, count: nat): seq<Frame>
      requires first <= from && from + count <= End()
    {
      seq(count, i requires 0 <= i < count => Frame(from + i, events[from + i - first]))
    }
  }

  /** A prune drops exactly the frames below `keep`; a log it leaves empty starts over at zero. */
  lemma PruneDropsBelow(log: Log, keep: nat, n: nat)
    requires log.Valid()
    ensures log.PruneBelow(keep).Valid()
    ensures var after := log.PruneBelow(keep);
      && (keep < log.End() ==> after.End() == log.End())
      && (after.events != [] && after.first <= n < after.End() <==> log.first <= n < log.End() && keep <= n)
      && (after.first <= n < after.End() ==>
            log.first <= n < log.End() && after.events[n - after.first] == log.events[n - log.first])
  {
  }

  datatype Page = Page(from: nat, frames: seq<Frame>, next: nat, hasMore: bool, lowest: nat, truncated: bool)

  /** `events_page`. */
  function EventsPage(log: Log, from: nat, limit: nat): Page {
    var start := if from < log.first || from > log.End() then log.first else from;
    var count := if from < log.first then 0 else Min(Min(limit, MAX_PAGE), log.End() - start);
    Page(from, log.Read(start, count), start + count, start + count < log.End(), log.first, from < log.first)
  }

  /** `replay_page`: one page capped by the snapshot end, or `None` when done or overtaken by a prune. */
  function ReplayPage(log: Log, cursor: nat, end: nat): Option<(nat, seq<Frame>)> {
    if cursor >= end then None
    else
      var page := EventsPage(log, cursor, end - cursor);
      if page.truncated || page.next <= cursor then None else Some((page.next, page.frames))
  }

  // ---- Followers of one history ----

  /** The log at one moment: which part `[lo, hi)` of all events ever appended is retained. */
  datatype Snapshot = Snapshot(lo: nat, hi: nat)

  function LogAt(history: seq<Event>, s: Snapshot): Log
    requires s.lo <= s.hi <= |history|
  {
    Log(s.lo, history[s.lo..s.hi])
  }

  ghost predicate Sound(history: seq<Event>, shots: seq<Snapshot>) {
    forall k :: 0 <= k < |shots| ==> shots[k].lo <= shots[k].hi <= |history|
  }

  /** Appends and prunes only move the tip up. */
  ghost predicate TipGrows(shots: seq<Snapshot>) {
    forall k, l :: 0 <= k <= l < |shots| ==> TipBelow(shots, k, l)
  }

  ghost predicate TipBelow(shots: seq<Snapshot>, k: nat, l: nat)
    requires k < |shots| && l < |shots|
  {
    shots[k].hi <= shots[l].hi
  }

  /** Prunes only move the floor up. */
  ghost predicate FloorGrows(shots: seq<Snapshot>) {
    forall k, l :: 0 <= k <= l < |shots| ==> FloorBelow(shots, k, l)
  }

  ghost predicate FloorBelow(shots: seq<Snapshot>, k: nat, l: nat)
    requires k < |shots| && l < |shots|
  {
    shots[k].lo <= shots[l].lo
  }

  function HistoryFrames(history: seq<Event>, lo: nat, hi: nat): seq<Frame>
    requires lo <= hi <= |history|
  {
    seq(hi - lo, i requires 0 <= i < hi - lo => Frame(lo + i, history[lo + i]))
  }

  /** A follower's cursor after polling the first `k` snapshots in turn. */
  ghost function CursorAfter(history: seq<Event>, shots: seq<Snapshot>, limit: nat, cursor: nat, k: nat): nat
    requires Sound(history, shots) && k <= |shots|
  {
    if k == 0 then cursor
    else EventsPage(LogAt(history, shots[k - 1]), CursorAfter(history, shots, limit, cursor, k - 1), limit).next
  }

  /** Everything it has received by then. */
  ghost function ReceivedAfter(history: seq<Event>, shots: seq<Snapshot>, limit: nat, cursor: nat, k: nat): seq<Frame>
    requires Sound(history, shots) && k <= |shots|
  {
    if k == 0 then []
    else
      ReceivedAfter(history, shots, limit, cursor, k - 1)
      + EventsPage(LogAt(history, shots[k - 1]), CursorAfter(history, shots, limit, cursor, k - 1), limit).frames
  }

  /** One page: contiguous from the cursor, or an empty jump to the retained floor. */
  lemma PageIsContiguous(history: seq<Event>, s: Snapshot, limit: nat, cursor: nat)
    requires s.lo <= s.hi <= |history| && cursor <= s.hi
    ensures var page := EventsPage(LogAt(history, s), cursor, limit);
      && cursor <= page.next <= s.hi
      && page.frames == (if cursor < s.lo then [] else HistoryFrames(history, cursor, page.next))
      && (page.truncated <==> cursor < s.lo) && (page.truncated ==> page.next == s.lo)
      && (page.hasMore <==> page.next < s.hi)
      && (limit > 0 && page.hasMore ==> cursor < page.next)
  {
  }

  /**
   * A page is full: it holds the limit, the page cap, or everything up to the
   * tip, whichever is least. It names the cursor it was asked for and the retained
   * floor, and a cursor beyond the tip starts over at that floor.
   */
  lemma PageIsFull(history: seq<Event>, s: Snapshot, limit: nat, cursor: nat)
    requires s.lo <= s.hi <= |history|
    ensures var page := EventsPage(LogAt(history, s), cursor, limit);
      && page.from == cursor && page.lowest == s.lo
      && (s.lo <= cursor <= s.hi ==>
            |page.frames| == Min(Min(limit, MAX_PAGE), s.hi - cursor) && page.next == cursor + |page.frames|)
      && (s.hi < cursor ==>
            && !page.truncated && |page.frames| == Min(Min(limit, MAX_PAGE), s.hi - s.lo)
            && page.next == s.lo + |page.frames| && page.frames == HistoryFrames(history, s.lo, page.next))
  {
  }

  ghost predicate Received(frames: seq<Frame>, n: nat) {
    exists i :: 0 <= i < |frames| && frames[i].number == n
  }

  /** Some snapshot among the first `k` no longer retained number `n`. */
  ghost predicate PrunedBy(shots: seq<Snapshot>, k: nat, n: nat) {
    exists j :: 0 <= j < k && j < |shots| && n < shots[j].lo
  }

  ghost predicate StrictlyIncreasing(frames: seq<Frame>) {
    forall i, j :: 0 <= i < j < |frames| ==> frames[i].number < frames[j].number
  }

  /** Frames are the history's own, numbered inside `[lo, hi)`. */
  ghost predicate Genuine(history: seq<Event>, frames: seq<Frame>, lo: nat, hi: nat) {
    forall i :: 0 <= i < |frames| ==>
      lo <= frames[i].number < hi && hi <= |history| && frames[i].event == history[frames[i].number]
  }

  /** Appending a contiguous page keeps order and origin. */
  lemma AppendPage(history: seq<Event>, frames: seq<Frame>, lo: nat, mid: nat, hi: nat)
    requires mid <= hi <= |history| && lo <= mid
    requires StrictlyIncreasing(frames) && Genuine(history, frames, lo, mid)
    ensures var longer := frames + HistoryFrames(history, mid, hi);
      && StrictlyIncreasing(longer) && Genuine(history, longer, lo, hi)
      && (forall n :: Received(frames, n) ==> Received(longer, n))
      && (forall n :: mid <= n < hi ==> Received(longer, n))
  {
    var longer := frames + HistoryFrames(history, mid, hi);
    forall n | Received(frames, n) ensures Received(longer, n) {
      var i :| 0 <= i < |frames| && frames[i].number == n;
      assert longer[i].number == n;
    }
    forall n: nat | mid <= n < hi ensures Received(longer, n) {
      assert longer[|frames| + n - mid].number == n;
    }
  }

  /** The page of poll `j` said that it was truncated, and jumped over `n`, which the log had pruned by then. */
  ghost predicate ToldOf(history: seq<Event>, shots: seq<Snapshot>, limit: nat, cursor: nat, j: nat, n: nat)
    requires Sound(history, shots) && j < |shots|
  {
    var at := CursorAfter(history, shots, limit, cursor, j);
    at <= n < shots[j].lo && EventsPage(LogAt(history, shots[j]), at, limit).truncated
  }

  ghost predicate Announced(history: seq<Event>, shots: seq<Snapshot>, limit: nat, cursor: nat, k: nat, n: nat)
    requires Sound(history, shots) && k <= |shots|
  {
    exists j :: 0 <= j < k && ToldOf(history, shots, limit, cursor, j, n)
  }

  /** What a follower that started at `cursor` has after the first `k` polls. */
  ghost predicate Followed(history: seq<Event>, shots: seq<Snapshot>, limit: nat, cursor: nat, k: nat)
    requires Sound(history, shots) && k <= |shots|
  {
    var end, frames := CursorAfter(history, shots, limit, cursor, k), ReceivedAfter(history, shots, limit, cursor, k);
    && cursor <= end && StrictlyIncreasing(frames) && Genuine(history, frames, cursor, end)
    && forall n :: cursor <= n < end ==> Received(frames, n) || Announced(history, shots, limit, cursor, k, n)
  }

  lemma FollowPage(history: seq<Event>, shots: seq<Snapshot>, limit: nat, cursor: nat, k: nat)
    requires Sound(history, shots) && k < |shots| && Followed(history, shots, limit, cursor, k)
    requires CursorAfter(history, shots, limit, cursor, k) <= shots[k].hi
    ensures CursorAfter(history, shots, limit, cursor, k + 1) <= shots[k].hi
    ensures Followed(history, shots, limit, cursor, k + 1)
  {
    var at, frames := CursorAfter(history, shots, limit, cursor, k), ReceivedAfter(history, shots, limit, cursor, k);
    var page, later := EventsPage(LogAt(history, shots[k]), at, limit), k + 1;
    PageIsContiguous(history, shots[k], limit, at);
    if at < shots[k].lo {
      assert frames + page.frames == frames;
      forall n: nat | at <= n < page.next ensures Announced(history, shots, limit, cursor, later, n) {
        assert ToldOf(history, shots, limit, cursor, k, n);
      }
    } else {
      AppendPage(history, frames, cursor, at, page.next);
    }
    forall n: nat | Announced(history, shots, limit, cursor, k, n)
      ensures Announced(history, shots, limit, cursor, later, n)
    {
      var j :| 0 <= j < k && ToldOf(history, shots, limit, cursor, j, n);
    }
  }

  lemma FollowStart(history: seq<Event>, shots: seq<Snapshot>, limit: nat, cursor: nat)
    requires Sound(history, shots)
    ensures CursorAfter(history, shots, limit, cursor, 0) == cursor && Followed(history, shots, limit, cursor, 0)
  {
  }

  /** The cursor is never past the tip of the log it is about to poll. */
  ghost predicate InLog(history: seq<Event>, shots: seq<Snapshot>, limit: nat, cursor: nat, k: nat)
    requires Sound(history, shots) && k <= |shots|
  {
    k < |shots| ==> CursorAfter(history, shots, limit, cursor, k) <= shots[k].hi
  }

  lemma FollowNext(history: seq<Event>, shots: seq<Snapshot>, limit: nat, cursor: nat, k: nat)
    requires Sound(history, shots) && TipGrows(shots) && k < |shots| && Followed(history, shots, limit, cursor, k)
    requires InLog(history, shots, limit, cursor, k)
    ensures InLog(history, shots, limit, cursor, k + 1) && Followed(history, shots, limit, cursor, k + 1)
  {
    FollowPage(history, shots, limit, cursor, k);
    assert k + 1 < |shots| ==> TipBelow(shots, k, k + 1);
  }

  /**
   * A follower that feeds `next` back never runs past the tip and receives
   * genuine frames in strictly increasing order. Every number it passed over
   * without receiving it had been pruned, and the page that passed over it
   * told the follower so.
   */
  lemma {:induction false} FollowerIsGapHonest(history: seq<Event>, shots: seq<Snapshot>, limit: nat, cursor: nat,
                                               k: nat)
    requires Sound(history, shots) && TipGrows(shots) && k <= |shots|
    requires shots != [] ==> cursor <= shots[0].hi
    ensures InLog(history, shots, limit, cursor, k) && Followed(history, shots, limit, cursor, k)
  {
    if k == 0 {
      FollowStart(history, shots, limit, cursor);
    } else {
      FollowerIsGapHonest(history, shots, limit, cursor, k - 1);
      FollowNext(history, shots, limit, cursor, k - 1);
    }
  }

  lemma NotYetReceived(history: seq<Event>, frames: seq<Frame>, lo: nat, hi: nat, n: nat)
    requires Genuine(history, frames, lo, hi) && hi <= n
    ensures !Received(frames, n)
  {
  }

  /** Conversely, what a truncated page announces as skipped was never received: the cursor is at the retained floor. */
  lemma TruncatedPageSkips(history: seq<Event>, shots: seq<Snapshot>, limit: nat, cursor: nat, k: nat, n: nat)
    requires Sound(history, shots) && TipGrows(shots) && k < |shots| && cursor <= shots[0].hi
    requires ToldOf(history, shots, limit, cursor, k, n)
    ensures CursorAfter(history, shots, limit, cursor, k + 1) == shots[k].lo
    ensures !Received(ReceivedAfter(history, shots, limit, cursor, k + 1), n)
  {
    var at, frames := CursorAfter(history, shots, limit, cursor, k), ReceivedAfter(history, shots, limit, cursor, k);
    FollowerIsGapHonest(history, shots, limit, cursor, k);
    PageIsContiguous(history, shots[k], limit, at);
    NotYetReceived(history, frames, cursor, at, n);
    assert frames + [] == frames;
  }

  /** With a positive limit, a page that announces more always moves the cursor. */
  lemma FollowerProgresses(history: seq<Event>, shots: seq<Snapshot>, limit: nat, cursor: nat, k: nat)
    requires Sound(history, shots) && TipGrows(shots) && k < |shots| && cursor <= shots[0].hi && limit > 0
    ensures var at := CursorAfter(history, shots, limit, cursor, k);
      EventsPage(LogAt(history, shots[k]), at, limit).hasMore ==> at < CursorAfter(history, shots, limit, cursor, k + 1)
  {
    FollowerIsGapHonest(history, shots, limit, cursor, k);
    PageIsContiguous(history, shots[k], limit, CursorAfter(history, shots, limit, cursor, k));
  }

  // ---- Replay of one subscriber ----

  /** A replay: its cursor and what it has delivered. */
  datatype Replay = Replay(at: nat, frames: seq<Frame>)

  /** One page more; a replay stays put once a page says to stop. */
  function ReplayNext(log: Log, r: Replay, end: nat): Replay {
    var page := ReplayPage(log, r.at, end);
    if page.None? then r else Replay(page.value.0, r.frames + page.value.1)
  }

  /** The replay of `[start, end)` after a page from each of the first `k` snapshots. */
  ghost function ReplayAfter(history: seq<Event>, shots: seq<Snapshot>, start: nat, end: nat, k: nat): Replay
    requires Sound(history, shots) && k <= |shots|
  {
    if k == 0 then Replay(start, [])
    else ReplayNext(LogAt(history, shots[k - 1]), ReplayAfter(history, shots, start, end, k - 1), end)
  }

  lemma ReplayPageIsContiguous(history: seq<Event>, s: Snapshot, at: nat, end: nat)
    requires s.lo <= s.hi <= |history| && at <= end <= s.hi
    ensures match ReplayPage(LogAt(history, s), at, end)
      case None => at == end || at < s.lo
      case Some((next, frames)) => s.lo <= at < next <= end && frames == HistoryFrames(history, at, next)
  {
    PageIsContiguous(history, s, end - at, at);
  }

  lemma HistoryConcat(history: seq<Event>, lo: nat, mid: nat, hi: nat)
    requires lo <= mid <= hi <= |history|
    ensures HistoryFrames(history, lo, mid) + HistoryFrames(history, mid, hi) == HistoryFrames(history, lo, hi)
  {
  }

  /**
   * A contiguous run from its start, never past the end; after `k` pages it has
   * moved `k` times, or is done, or a prune has overtaken its cursor.
   */
  ghost predicate Replayed(history: seq<Event>, shots: seq<Snapshot>, start: nat, end: nat, k: nat, r: Replay)
    requires end <= |history|
  {
    && start <= r.at <= end && r.frames == HistoryFrames(history, start, r.at)
    && (start + k <= r.at || r.at == end || PrunedBy(shots, k, r.at))
  }

  /** What an earlier snapshot had pruned, the next one has too. */
  lemma PrunedStaysPruned(shots: seq<Snapshot>, k: nat, at: nat)
    requires FloorGrows(shots) && k < |shots| && PrunedBy(shots, k, at)
    ensures at < shots[k].lo
  {
    var j :| 0 <= j < k && j < |shots| && at < shots[j].lo;
    assert FloorBelow(shots, j, k);
  }

  /** One replay page: the run grows by it, or the replay has ended. */
  lemma ReplayStep(history: seq<Event>, shots: seq<Snapshot>, start: nat, end: nat, k: nat, r: Replay)
    requires k < |shots| && shots[k].lo <= shots[k].hi <= |history| && end <= shots[k].hi
    requires Replayed(history, shots, start, end, k, r) && (PrunedBy(shots, k, r.at) ==> r.at < shots[k].lo)
    ensures Replayed(history, shots, start, end, k + 1, ReplayNext(LogAt(history, shots[k]), r, end))
  {
    ReplayPageIsContiguous(history, shots[k], r.at, end);
    var page := ReplayPage(LogAt(history, shots[k]), r.at, end);
    if page.Some? {
      HistoryConcat(history, start, r.at, page.value.0);
    }
  }

  /**
   * Replay delivers one contiguous run from its start and never past the
   * snapshot end; each page moves it on, until it is done or a prune has
   * overtaken its cursor.
   */
  lemma {:induction false} ReplayIsContiguous(history: seq<Event>, shots: seq<Snapshot>, start: nat, end: nat, k: nat)
    requires Sound(history, shots) && k <= |shots| && start <= end <= |history|
    requires (forall j :: 0 <= j < |shots| ==> end <= shots[j].hi) && FloorGrows(shots)
    ensures Replayed(history, shots, start, end, k, ReplayAfter(history, shots, start, end, k))
  {
    if k > 0 {
      var r := ReplayAfter(history, shots, start, end, k - 1);
      ReplayIsContiguous(history, shots, start, end, k - 1);
      if PrunedBy(shots, k - 1, r.at) {
        PrunedStaysPruned(shots, k - 1, r.at);
      }
      ReplayStep(history, shots, start, end, k - 1, r);
    }
  }
}
