// Live fan-out and the replay-to-live handover of `block_stream_service.rs`:
// commits, queued fan-out, reconciliation appends, subscriptions, slow or gone
// receivers, pruning and shutdown in any interleaving.

module StreamFanout {
  import opened StreamLog
  import opened Outcome

  /**
   * A subscriber: the replay range `[start, end)` snapped at registration, the
   * numbers sent on its live channel in order, how many of those wait in the
   * bounded buffer, and whether its receiver is still open.
   */
  datatype Subscriber = Subscriber(start: nat, end: nat, live: seq<nat>, buffered: nat, open: bool)

  /** `subscribe`: cursors outside the retained window replay from the floor. */
  function Subscribed(lowest: nat, len: nat, from: nat): Subscriber {
    Subscriber(if from < lowest || from > len then lowest else from, len, [], 0, true)
  }

  /** One subscriber's turn in `fanout_locked`: `None` when it is dropped. */
  function Offer(sub: Subscriber, n: nat): Option<Subscriber> {
    if n < sub.end then Some(sub)
    else if sub.open && sub.buffered < SUBSCRIBER_BUFFER then
      Some(sub.(live := sub.live + [n], buffered := sub.buffered + 1))
    else None
  }

  function Retain(subs: seq<Subscriber>, n: nat): seq<Subscriber> {
    if subs == [] then []
    else
      var rest := Retain(subs[..|subs| - 1], n);
      match Offer(subs[|subs| - 1], n)
      case None => rest
      case Some(sub) => rest + [sub]
  }

  /** The handle: durable log, live registry, and whether the producer has stopped for good. */
  class BlockStreamHandle {
    var log: Log
    var senders: seq<Subscriber>
    var closed: bool

    constructor (log: Log)
      ensures this.log == log && senders == [] && !closed
    {
      this.log := log;
      this.senders := [];
      this.closed := false;
    }

    /** Snapshot and registration under one lock; a closed registry registers nobody. */
    method Subscribe(from: nat) returns (start: nat, end: nat)
      requires log.Valid()
      modifies this`senders
      ensures log.first <= from <= log.End() ==> start == from
      ensures from < log.first || log.End() < from ==> start == log.first
      ensures end == log.End()
      ensures closed ==> senders == old(senders)
      ensures !closed ==> senders == old(senders) + [Subscribed(log.first, log.End(), from)]
      ensures Subscribed(log.first, log.End(), from) == Subscriber(start, end, [], 0, true)
    {
      start := if from < log.first || from > log.End() then log.first else from;
      end := log.End();
      if !closed {
        senders := senders + [Subscriber(start, end, [], 0, true)];
      }
    }

    /** `fanout_locked`: skip replay-covered subscribers, drop closed or lagging ones. */
    method FanoutLocked(n: nat)
      modifies this`senders
      ensures senders == Retain(old(senders), n)
    {
      var kept: seq<Subscriber> := [];
      for k := 0 to |senders|
        invariant senders == old(senders)
        invariant kept == Retain(senders[..k], n)
      {
        assert senders[..k + 1][..k] == senders[..k];
        var sub := senders[k];
        if n < sub.end {
          kept := kept + [sub];
        } else if sub.open && sub.buffered < SUBSCRIBER_BUFFER {
          kept := kept + [sub.(live := sub.live + [n], buffered := sub.buffered + 1)];
        }
      }
      assert senders[..|senders|] == senders;
      senders := kept;
    }

    /** `append_and_fanout`: append and fan out under the lock that guards `Subscribe`. */
    method AppendAndFanout(e: Event) returns (n: nat)
      requires log.Valid()
      modifies this`log, this`senders
      ensures n == old(log.End()) && log == old(log).Append(e) && log.Valid() && senders == Retain(old(senders), n)
    {
      n := log.End();
      log := log.Append(e);
      FanoutLocked(n);
    }

    method CloseLiveSubscribers()
      modifies this`senders, this`closed
      ensures closed && senders == []
    {
      closed := true;
      senders := [];
    }
  }

  // ---- The interleavings ----

  /** A registration and what became of it: still registered, or dropped with what it had received. */
  datatype Client = Client(sub: Subscriber, registered: bool)

  /**
   * `base` is the log length at process start. A committed frame is first
   * `unsent`, then in the producer's `queue`, then `fanned` out, in that order.
   */
  datatype World = World(base: nat, len: nat, lowest: nat, unsent: seq<nat>, queue: seq<nat>, fanned: seq<nat>,
                         clients: seq<Client>, closed: bool)

  datatype Move =
    | Commit
    | Enqueue(k: nat)
    | FanOut
    | ReconcileAppend
    | Subscribe(from: nat)
    | Consume(client: nat)
    | Disconnect(client: nat)
    | Prune(lowest: nat)
    | Close

  function OfferClient(c: Client, n: nat): Client {
    if !c.registered then c
    else
      match Offer(c.sub, n)
      case None => c.(registered := false)
      case Some(sub) => Client(sub, true)
  }

  function Fanned(w: World, n: nat): World {
    w.(fanned := w.fanned + [n],
       clients := seq(|w.clients|, i requires 0 <= i < |w.clients| => OfferClient(w.clients[i], n)))
  }

  function Next(w: World, m: Move): World {
    match m
    case Commit => w.(len := w.len + 1, unsent := w.unsent + [w.len])
    case Enqueue(k) =>
      if k < |w.unsent| then w.(unsent := w.unsent[..k] + w.unsent[k + 1..], queue := w.queue + [w.unsent[k]]) else w
    case FanOut => if w.queue == [] then w else Fanned(w.(queue := w.queue[1..]), w.queue[0])
    case ReconcileAppend => Fanned(w.(len := w.len + 1), w.len)
    case Subscribe(from) => w.(clients := w.clients + [Client(Subscribed(w.lowest, w.len, from), !w.closed)])
    case Consume(i) =>
      if i < |w.clients| && w.clients[i].sub.buffered > 0
      then
        var c := w.clients[i];
        w.(clients := w.clients[i := c.(sub := c.sub.(buffered := c.sub.buffered - 1))])
      else w
    case Disconnect(i) =>
      if i < |w.clients| then w.(clients := w.clients[i := w.clients[i].(sub := w.clients[i].sub.(open := false))])
      else w
    case Prune(lowest) => if w.lowest <= lowest < w.len then w.(lowest := lowest) else w
    case Close =>
      w.(closed := true,
         clients := seq(|w.clients|, i requires 0 <= i < |w.clients| => w.clients[i].(registered := false)))
  }

  /** The registry of the handle: the clients still registered, in registration order. */
  function Registered(clients: seq<Client>): seq<Subscriber> {
    if clients == [] then []
    else
      var rest := Registered(clients[..|clients| - 1]);
      if clients[|clients| - 1].registered then rest + [clients[|clients| - 1].sub] else rest
  }

  /** A fan-out in the model is `fanout_locked` on the registry. */
  lemma {:induction false} FanoutIsRetain(w: World, n: nat)
    ensures Registered(Fanned(w, n).clients) == Retain(Registered(w.clients), n)
    decreases |w.clients|
  {
    if w.clients != [] {
      var rest := w.(clients := w.clients[..|w.clients| - 1]);
      FanoutIsRetain(rest, n);
      assert Fanned(w, n).clients[..|w.clients| - 1] == Fanned(rest, n).clients;
    }
  }

  /** The handle's state is the world's: log bounds, registry in order, and whether it is closed. */
  ghost predicate Mirrors(w: World, first: nat, end: nat, senders: seq<Subscriber>, closed: bool) {
    first == w.lowest && end == w.len && senders == Registered(w.clients) && closed == w.closed
  }

  lemma RegisteredSnoc(clients: seq<Client>, c: Client)
    ensures Registered(clients + [c]) == Registered(clients) + if c.registered then [c.sub] else []
  {
    assert (clients + [c])[..|clients|] == clients;
  }

  /**
   * `Subscribe` on the handle is the subscribe move: the new client is registered
   * exactly when the registry is open.
   */
  lemma SubscribeIsMove(w: World, first: nat, end: nat, senders: seq<Subscriber>, closed: bool, from: nat)
    requires Mirrors(w, first, end, senders, closed)
    ensures var after := if closed then senders else senders + [Subscribed(first, end, from)];
      Mirrors(Next(w, Subscribe(from)), first, end, after, closed)
  {
    RegisteredSnoc(w.clients, Client(Subscribed(w.lowest, w.len, from), !w.closed));
  }

  /** `CloseLiveSubscribers` is the close move: nobody is registered, then or after any later subscription. */
  lemma CloseIsMove(w: World, first: nat, end: nat, senders: seq<Subscriber>, closed: bool, from: nat)
    requires Mirrors(w, first, end, senders, closed)
    ensures Mirrors(Next(w, Close), first, end, [], true)
    ensures Mirrors(Next(Next(w, Close), Subscribe(from)), first, end, [], true)
  {
    NobodyRegistered(Next(w, Close).clients);
    SubscribeIsMove(Next(w, Close), first, end, [], true, from);
  }

  lemma {:induction false} NobodyRegistered(clients: seq<Client>)
    requires forall i :: 0 <= i < |clients| ==> !clients[i].registered
    ensures Registered(clients) == []
    decreases |clients|
  {
    if clients != [] {
      NobodyRegistered(clients[..|clients| - 1]);
    }
  }

  /** `AppendAndFanout` is the reconciliation move, and a queued frame's fan-out is the fan-out move. */
  lemma AppendIsMove(w: World, first: nat, end: nat, senders: seq<Subscriber>, closed: bool)
    requires Mirrors(w, first, end, senders, closed)
    ensures Mirrors(Next(w, ReconcileAppend), first, end + 1, Retain(senders, end), closed)
    ensures w.queue != [] ==> Mirrors(Next(w, FanOut), first, end, Retain(senders, w.queue[0]), closed)
  {
    FanoutIsRetain(w.(len := w.len + 1), w.len);
    if w.queue != [] {
      FanoutIsRetain(w.(queue := w.queue[1..]), w.queue[0]);
    }
  }

  // ---- Exactly once ----

  /** The part of the fan-out order that is not covered by a replay up to `end`. */
  function From(order: seq<nat>, end: nat): seq<nat> {
    if order == [] then []
    else
      var rest := From(order[..|order| - 1], end);
      if order[|order| - 1] >= end then rest + [order[|order| - 1]] else rest
  }

  /** How often `n` is anywhere between commit and fan-out. */
  ghost function Handed(w: World): multiset<nat> {
    multiset(w.unsent) + multiset(w.queue) + multiset(w.fanned)
  }

  /** Each frame committed in this process is on its way, or fanned out, exactly once. */
  ghost predicate Accounted(w: World) {
    forall n :: Handed(w)[n] == if w.base <= n < w.len then 1 else 0
  }

  /**
   * A registered client has the whole uncovered fan-out order; a dropped one a
   * prefix of it. What waits in its buffer was sent, and fits.
   */
  ghost predicate ClientSound(w: World, c: Client) {
    && c.sub.start <= c.sub.end <= w.len && w.base <= c.sub.end
    && (c.registered ==> c.sub.live == From(w.fanned, c.sub.end))
    && c.sub.live <= From(w.fanned, c.sub.end)
    && c.sub.buffered <= |c.sub.live| && c.sub.buffered <= SUBSCRIBER_BUFFER
  }

  ghost predicate Inv(w: World) {
    && w.base <= w.len && w.lowest <= w.len
    && Accounted(w)
    && forall i :: 0 <= i < |w.clients| ==> ClientSound(w, w.clients[i])
  }

  lemma {:induction false} FromCount(order: seq<nat>, end: nat, n: nat)
    ensures multiset(From(order, end))[n] == if n >= end then multiset(order)[n] else 0
    decreases |order|
  {
    if order != [] {
      var rest, last := order[..|order| - 1], order[|order| - 1];
      FromCount(rest, end, n);
      assert order == rest + [last];
    }
  }

  lemma {:induction false} FromEmpty(order: seq<nat>, end: nat)
    requires forall i :: 0 <= i < |order| ==> order[i] < end
    ensures From(order, end) == []
    decreases |order|
  {
    if order != [] {
      FromEmpty(order[..|order| - 1], end);
    }
  }

  lemma FromSnoc(order: seq<nat>, n: nat, end: nat)
    ensures From(order + [n], end) == if n >= end then From(order, end) + [n] else From(order, end)
  {
    assert (order + [n])[..|order|] == order;
  }

  /** Fan-out reaches every registered client that replay does not cover, or drops it. */
  lemma FannedKeepsClients(w: World, n: nat, len: nat)
    requires n < len && w.len <= len && forall i :: 0 <= i < |w.clients| ==> ClientSound(w, w.clients[i])
    ensures var w' := Fanned(w.(len := len), n);
      forall i :: 0 <= i < |w'.clients| ==> ClientSound(w', w'.clients[i])
  {
    var w' := Fanned(w.(len := len), n);
    forall i | 0 <= i < |w'.clients| ensures ClientSound(w', w'.clients[i]) {
      assert ClientSound(w, w.clients[i]);
      FromSnoc(w.fanned, n, w.clients[i].sub.end);
    }
  }

  /** One more committed frame, handed over once. */
  lemma AccountedNext(w: World, w': World)
    requires Accounted(w) && w.base <= w.len && w'.base == w.base && w'.len == w.len + 1
    requires Handed(w') == Handed(w) + multiset{w.len}
    ensures Accounted(w')
  {
  }

  lemma CommitKeepsInv(w: World)
    requires Inv(w)
    ensures Inv(Next(w, Commit))
  {
    var w' := Next(w, Commit);
    assert Handed(w') == Handed(w) + multiset{w.len};
    AccountedNext(w, w');
    forall i | 0 <= i < |w'.clients| ensures ClientSound(w', w'.clients[i]) {
      assert ClientSound(w, w.clients[i]);
    }
  }

  lemma EnqueueKeepsInv(w: World, k: nat)
    requires Inv(w)
    ensures Inv(Next(w, Enqueue(k)))
  {
    if k < |w.unsent| {
      var w' := Next(w, Enqueue(k));
      assert w.unsent == w.unsent[..k] + [w.unsent[k]] + w.unsent[k + 1..];
      assert Handed(w') == Handed(w);
      forall i | 0 <= i < |w'.clients| ensures ClientSound(w', w'.clients[i]) {
        assert ClientSound(w, w.clients[i]);
      }
    }
  }

  lemma FanOutKeepsInv(w: World)
    requires Inv(w)
    ensures Inv(Next(w, FanOut))
  {
    if w.queue != [] {
      var first, waiting := w.queue[0], w.(queue := w.queue[1..]);
      assert w.queue == [first] + waiting.queue;
      assert Handed(Next(w, FanOut)) == Handed(w);
      assert Handed(w)[first] > 0;
      forall i | 0 <= i < |waiting.clients| ensures ClientSound(waiting, waiting.clients[i]) {
        assert ClientSound(w, w.clients[i]);
      }
      FannedKeepsClients(waiting, first, w.len);
      assert waiting.(len := w.len) == waiting;
    }
  }

  lemma ReconcileKeepsInv(w: World)
    requires Inv(w)
    ensures Inv(Next(w, ReconcileAppend))
  {
    var w' := Next(w, ReconcileAppend);
    assert Handed(w') == Handed(w) + multiset{w.len};
    AccountedNext(w, w');
    FannedKeepsClients(w, w.len, w.len + 1);
  }

  lemma SubscribeKeepsInv(w: World, from: nat)
    requires Inv(w)
    ensures Inv(Next(w, Subscribe(from)))
  {
    forall i | 0 <= i < |w.fanned| ensures w.fanned[i] < w.len {
      assert w.fanned[i] in multiset(w.fanned);
      assert Handed(w)[w.fanned[i]] > 0;
    }
    FromEmpty(w.fanned, w.len);
    assert Handed(Next(w, Subscribe(from))) == Handed(w);
  }

  lemma ClientMovesKeepInv(w: World, m: Move)
    requires Inv(w) && (m.Consume? || m.Disconnect? || m.Prune? || m.Close?)
    ensures Inv(Next(w, m))
  {
    var w' := Next(w, m);
    assert Handed(w') == Handed(w);
    forall i | 0 <= i < |w'.clients| ensures ClientSound(w', w'.clients[i]) {
      assert ClientSound(w, w.clients[i]);
    }
  }

  lemma StepKeepsInv(w: World, m: Move)
    requires Inv(w)
    ensures Inv(Next(w, m))
  {
    match m
    case Commit => CommitKeepsInv(w);
    case Enqueue(k) => EnqueueKeepsInv(w, k);
    case FanOut => FanOutKeepsInv(w);
    case ReconcileAppend => ReconcileKeepsInv(w);
    case Subscribe(from) => SubscribeKeepsInv(w, from);
    case _ => ClientMovesKeepInv(w, m);
  }

  ghost function Run(w: World, moves: seq<Move>): World {
    if moves == [] then w else Next(Run(w, moves[..|moves| - 1]), moves[|moves| - 1])
  }

  function Start(base: nat, lowest: nat): World {
    World(base, base, lowest, [], [], [], [], false)
  }

  lemma {:induction false} EveryInterleavingKeepsInv(base: nat, lowest: nat, moves: seq<Move>)
    requires lowest <= base
    ensures Inv(Run(Start(base, lowest), moves))
    decreases |moves|
  {
    if moves != [] {
      EveryInterleavingKeepsInv(base, lowest, moves[..|moves| - 1]);
      StepKeepsInv(Run(Start(base, lowest), moves[..|moves| - 1]), moves[|moves| - 1]);
    }
  }

  function Numbers(frames: seq<Frame>): seq<nat> {
    seq(|frames|, i requires 0 <= i < |frames| => frames[i].number)
  }

  lemma {:induction false} HistoryNumbersOnce(history: seq<Event>, lo: nat, hi: nat, n: nat)
    requires lo <= hi <= |history|
    ensures multiset(Numbers(HistoryFrames(history, lo, hi)))[n] == if lo <= n < hi then 1 else 0
    decreases hi
  {
    if lo < hi {
      HistoryNumbersOnce(history, lo, hi - 1, n);
      assert Numbers(HistoryFrames(history, lo, hi)) == Numbers(HistoryFrames(history, lo, hi - 1)) + [hi - 1];
    }
  }

  /**
   * Exactly once, for every interleaving: a client still registered whose
   * replay has completed has received each number from its start on once, in
   * replay or live and never in both, as soon as that number is fanned out; and
   * nothing else.
   */
  lemma HandoverIsExactlyOnce(base: nat, lowest: nat, moves: seq<Move>, i: nat, n: nat,
                              history: seq<Event>, shots: seq<Snapshot>, k: nat)
    requires lowest <= base && i < |Run(Start(base, lowest), moves).clients|
    requires var w := Run(Start(base, lowest), moves);
      var sub := w.clients[i].sub;
      && w.clients[i].registered && w.len <= |history|
      && Sound(history, shots) && k <= |shots| && sub.start <= sub.end <= |history|
      && (forall j :: 0 <= j < |shots| ==> sub.end <= shots[j].hi)
      && FloorGrows(shots)
      && ReplayAfter(history, shots, sub.start, sub.end, k).at == sub.end
    ensures var w := Run(Start(base, lowest), moves);
      var sub := w.clients[i].sub;
      var replayed := Numbers(ReplayAfter(history, shots, sub.start, sub.end, k).frames);
      && multiset(replayed)[n] + multiset(sub.live)[n] ==
           (if sub.start <= n < sub.end || (sub.end <= n && n in w.fanned) then 1 else 0)
      && (w.unsent == [] && w.queue == [] && sub.end <= n < w.len ==> n in w.fanned)
  {
    var w := Run(Start(base, lowest), moves);
    var sub := w.clients[i].sub;
    EveryInterleavingKeepsInv(base, lowest, moves);
    assert ClientSound(w, w.clients[i]);
    ReplayIsContiguous(history, shots, sub.start, sub.end, k);
    HistoryNumbersOnce(history, sub.start, sub.end, n);
    FromCount(w.fanned, sub.end, n);
    assert Handed(w)[n] == if w.base <= n < w.len then 1 else 0;
  }

  // ---- From the client's request ----

  lemma {:induction false} RunConcat(w: World, a: seq<Move>, b: seq<Move>)
    ensures Run(w, a + b) == Run(Run(w, a), b)
    decreases |b|
  {
    if b == [] {
      assert a + b == a;
    } else {
      assert (a + b)[..|a + b| - 1] == a + b[..|b| - 1];
      RunConcat(w, a, b[..|b| - 1]);
    }
  }

  /** The client keeps its place and its replay range. */
  ghost predicate SameRange(w: World, later: World, i: nat)
    requires i < |w.clients|
  {
    && i < |later.clients| && later.clients[i].sub.start == w.clients[i].sub.start
    && later.clients[i].sub.end == w.clients[i].sub.end
  }

  lemma {:induction false} RangeIsFixed(w: World, moves: seq<Move>, i: nat)
    requires i < |w.clients|
    ensures SameRange(w, Run(w, moves), i)
    decreases |moves|
  {
    if moves != [] {
      RangeIsFixed(w, moves[..|moves| - 1], i);
      MoveKeepsRange(Run(w, moves[..|moves| - 1]), moves[|moves| - 1], i);
    }
  }

  lemma MoveKeepsRange(w: World, m: Move, i: nat)
    requires i < |w.clients|
    ensures SameRange(w, Next(w, m), i)
  {
  }

  /** Where a request is served from: the requested number, or the retained floor if that number is not in the log. */
  function ServedFrom(lowest: nat, len: nat, from: nat): (start: nat)
    ensures lowest <= len ==> lowest <= start <= len
  {
    if lowest <= from <= len then from else lowest
  }

  /** The client of a request keeps the range its request gave it. */
  lemma JoinedRange(start: World, before: seq<Move>, from: nat, after: seq<Move>)
    ensures var w := Run(start, before);
      var later := Run(start, before + [Subscribe(from)] + after);
      && |w.clients| < |later.clients|
      && later.clients[|w.clients|].sub.start == ServedFrom(w.lowest, w.len, from)
      && later.clients[|w.clients|].sub.end == w.len
  {
    var w := Run(start, before);
    var joined := Next(w, Subscribe(from));
    assert [Subscribe(from)][..0] == [] && Run(w, [Subscribe(from)]) == joined;
    RunConcat(start, before, [Subscribe(from)]);
    RunConcat(start, before + [Subscribe(from)], after);
    RangeIsFixed(joined, after, |w.clients|);
  }

  /**
   * Exactly once, from the request on: a client that asked for `from` after
   * `before`, is still registered after `after`, and has completed its replay, has
   * received once each number from where it was served on that was in the log at
   * its registration or has been fanned out since, and nothing else.
   */
  lemma RequestIsServed(base: nat, lowest: nat, before: seq<Move>, from: nat, after: seq<Move>, n: nat,
                        history: seq<Event>, shots: seq<Snapshot>, k: nat)
    requires lowest <= base
    requires var w := Run(Start(base, lowest), before);
      var later := Run(Start(base, lowest), before + [Subscribe(from)] + after);
      && |w.clients| < |later.clients| && later.clients[|w.clients|].registered && later.len <= |history|
      && Sound(history, shots) && k <= |shots| && FloorGrows(shots) && w.len <= |history|
      && (forall j :: 0 <= j < |shots| ==> w.len <= shots[j].hi)
      && ReplayAfter(history, shots, ServedFrom(w.lowest, w.len, from), w.len, k).at == w.len
    ensures var w := Run(Start(base, lowest), before);
      var later := Run(Start(base, lowest), before + [Subscribe(from)] + after);
      var start := ServedFrom(w.lowest, w.len, from);
      var replayed := Numbers(ReplayAfter(history, shots, start, w.len, k).frames);
      multiset(replayed)[n] + multiset(later.clients[|w.clients|].sub.live)[n] ==
        if start <= n < w.len || (w.len <= n && n in later.fanned) then 1 else 0
  {
    var w, moves := Run(Start(base, lowest), before), before + [Subscribe(from)] + after;
    JoinedRange(Start(base, lowest), before, from, after);
    EveryInterleavingKeepsInv(base, lowest, before);
    HandoverIsExactlyOnce(base, lowest, moves, |w.clients|, n, history, shots, k);
  }

  // ---- Who is dropped ----

  /** A frame that the replay does not cover finds the receiver gone or its buffer full. */
  predicate Lagging(sub: Subscriber, n: nat) {
    sub.end <= n && (!sub.open || SUBSCRIBER_BUFFER <= sub.buffered)
  }

  /**
   * A fan-out drops a registered client exactly when it lags. One that does not
   * lag has the frame in its channel if the replay does not cover it, and one more
   * to consume.
   */
  lemma FanoutDropsIff(w: World, n: nat, i: nat)
    requires i < |w.clients| && w.clients[i].registered
    ensures var before, after := w.clients[i].sub, Fanned(w, n).clients[i];
      && (after.registered <==> !Lagging(before, n))
      && (after.registered ==> after.sub == if n < before.end then before
                                            else before.(live := before.live + [n], buffered := before.buffered + 1))
  {
  }

  /** Nothing but such a fan-out, or the producer's stop, ends a registration. */
  lemma OnlyLaggingIsDropped(w: World, m: Move, i: nat)
    requires i < |w.clients| && w.clients[i].registered && !m.Close?
    requires m.FanOut? && w.queue != [] ==> !Lagging(w.clients[i].sub, w.queue[0])
    requires m.ReconcileAppend? ==> !Lagging(w.clients[i].sub, w.len)
    ensures Next(w, m).clients[i].registered
  {
  }

  /** A client that consumes what it is sent has room: the buffer holds what was sent and not consumed. */
  lemma ConsumingMakesRoom(w: World, i: nat)
    requires i < |w.clients| && 0 < w.clients[i].sub.buffered <= SUBSCRIBER_BUFFER && w.clients[i].sub.open
    ensures var c := Next(w, Consume(i)).clients[i];
      c.sub.buffered + 1 == w.clients[i].sub.buffered && forall n :: !Lagging(c.sub, n)
  {
  }

  /** A dropped client holds a hole-free prefix of what a registered one with its snapshot would. */
  lemma DroppedClientHasPrefix(base: nat, lowest: nat, moves: seq<Move>, i: nat)
    requires lowest <= base && i < |Run(Start(base, lowest), moves).clients|
    ensures var w := Run(Start(base, lowest), moves);
      var sub := w.clients[i].sub;
      sub.live <= From(w.fanned, sub.end) && (w.clients[i].registered ==> sub.live == From(w.fanned, sub.end))
  {
    EveryInterleavingKeepsInv(base, lowest, moves);
    assert ClientSound(Run(Start(base, lowest), moves), Run(Start(base, lowest), moves).clients[i]);
  }
}
