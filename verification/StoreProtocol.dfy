/** The store's goroutines as a step system: producers, the background committer,
    any number of concurrent Flush calls, the synchronous fallback, the daemon's
    readers, purges and Close, interleaved in every possible way.  Each step is one
    channel operation, one transaction or one return of the source. */
module StoreProtocol {
  import opened Rows
  import opened Text

  /** A proxy handed to SaveOrUpdateProxy; `id` is its acceptance number. */
  datatype Item = Item(id: nat, key: Key, row: Row, origin: Origin)

  /** Where its values come from: a pipeline check, or a daemon's recheck of the row it read
      when the table had seen that many events. */
  datatype Origin = Fresh | Reread(at: nat, outcome: Outcome)

  /** Where the committer goroutine is. */
  datatype Committer =
    | Selecting      // at the select of its main loop
    | Flushing       // about to commit the buffer, then back to the select
    | Draining       // saw the close; at the inner select
    | DrainFlushing  // about to commit a full buffer while draining
    | LastFlushing   // saw the channel empty; about to commit the rest
    | Returned

  /** A Flush call: collecting from the channel, about to commit, or returned. */
  datatype Flusher = Collecting(buffer: seq<Item>) | Sealed(buffer: seq<Item>) | Finished

  /** A row the daemon has read and not yet saved again. */
  datatype Hand = Hand(key: Key, row: Row, at: nat)

  datatype State = State(
    table: Table,
    events: seq<Event>,        // every upsert and purge so far
    committed: seq<Item>,      // the items behind the upserts, in commit order
    accepted: seq<Item>,       // every item SaveOrUpdateProxy took, in order
    channel: seq<Item>,
    buffer: seq<Item>,         // the committer's own
    committer: Committer,
    flushers: seq<Flusher>,
    fallbacks: seq<Item>,      // inside commitSingleProxy
    hands: seq<Hand>,
    closing: bool,
    lateSends: nat)            // channel sends after the committer's last look at the channel

  /** Where a producer's proxy comes from: a successful pipeline check, or the
      daemon's recheck of a row it holds. */
  datatype Source =
    | FromPipeline(key: Key, info: Info, seen: Time)
    | FromDaemon(hand: nat, outcome: Outcome)

  /** The outcome of one recheck with the values the daemon writes on the proxy. */
  datatype Outcome = Succeeded(latencyMs: int, anonymity: string, at: Time, newScore: int) | Failed(newScore: int)

  datatype Step =
    | Enqueue(source: Source)
    | TakeFallback(source: Source)
    | CommitFallback(i: nat, now: Time)
    | CommitterReceive
    | CommitterTick
    | CommitterFlush(now: Time)
    | CommitterSeesClose
    | CommitterSeesEmpty
    | FlushCall
    | FlushReceive(i: nat)
    | FlushSeesEmpty(i: nat)
    | FlushCommit(i: nat, now: Time)
    | Close
    | DaemonRead(key: Key)
    | PurgeDead(maxFail: int, cutoff: Time)

  /** The proxy built by processJob: one successful check, no uptime yet. */
  function PipelineRow(info: Info, seen: Time): Row {
    Row(info, 1, 0, 0, 0.0, seen, ZERO_TIME, seen, true)
  }

  /** What a daemon worker does to the proxy it holds. */
  function Rechecked(row: Row, outcome: Outcome): Row {
    match outcome
    case Succeeded(latencyMs, anonymity, at, score) =>
      row.(alive := true, lastAlive := at, consecutiveFail := 0,
           info := row.info.(latencyMs := latencyMs, anonymity := anonymity, score := score))
    case Failed(score) =>
      row.(alive := false, consecutiveFail := row.consecutiveFail + 1, info := row.info.(score := score))
  }

  predicate HasSource(s: State, source: Source) {
    source.FromDaemon? ==> source.hand < |s.hands|
  }

  function NewItem(s: State, source: Source): Item
    requires HasSource(s, source)
  {
    match source
    case FromPipeline(k, info, seen) => Item(|s.accepted|, k, PipelineRow(info, seen), Fresh)
    case FromDaemon(i, outcome) =>
      Item(|s.accepted|, s.hands[i].key, Rechecked(s.hands[i].row, outcome), Reread(s.hands[i].at, outcome))
  }

  function Without<T>(xs: seq<T>, i: nat): seq<T>
    requires i < |xs|
  {
    xs[..i] + xs[i + 1..]
  }

  function HandsAfter(s: State, source: Source): seq<Hand>
    requires HasSource(s, source)
  {
    if source.FromDaemon? then Without(s.hands, source.hand) else s.hands
  }

  /** The upserts of one transaction. */
  function UpsertsOf(items: seq<Item>, now: Time): seq<Event> {
    seq(|items|, i requires 0 <= i < |items| => Upserted(Commit(items[i].key, Stamp(items[i].row, now))))
  }

  /** One committed transaction. */
  function Transact(s: State, items: seq<Item>, now: Time): State {
    var upserts := UpsertsOf(items, now);
    s.(table := Replay(s.table, upserts), events := s.events + upserts, committed := s.committed + items)
  }

  predicate Enabled(s: State, step: Step) {
    match step
    case Enqueue(source) => HasSource(s, source) && |s.channel| < CAPACITY
    case TakeFallback(source) => HasSource(s, source) && |s.channel| >= CAPACITY
    case CommitFallback(i, _) => i < |s.fallbacks|
    case CommitterReceive => s.committer in {Selecting, Draining} && s.channel != []
    case CommitterTick => s.committer == Selecting && s.buffer != []
    case CommitterFlush(_) => s.committer in {Flushing, DrainFlushing, LastFlushing}
    case CommitterSeesClose => s.committer == Selecting && s.closing
    case CommitterSeesEmpty => s.committer == Draining && s.channel == []
    case FlushCall => true
    case FlushReceive(i) => i < |s.flushers| && s.flushers[i].Collecting? && s.channel != []
    case FlushSeesEmpty(i) => i < |s.flushers| && s.flushers[i].Collecting? && s.channel == []
    case FlushCommit(i, _) => i < |s.flushers| && s.flushers[i].Sealed?
    case Close => !s.closing
    case DaemonRead(k) => k in s.table
    case PurgeDead(_, _) => true
  }

  function After(s: State, step: Step): State
    requires Enabled(s, step)
  {
    match step
    case Enqueue(source) =>
      var item := NewItem(s, source);
      s.(accepted := s.accepted + [item], channel := s.channel + [item], hands := HandsAfter(s, source),
         lateSends := s.lateSends + if s.committer in {LastFlushing, Returned} then 1 else 0)
    case TakeFallback(source) =>
      var item := NewItem(s, source);
      s.(accepted := s.accepted + [item], fallbacks := s.fallbacks + [item], hands := HandsAfter(s, source))
    case CommitFallback(i, now) =>
      Transact(s, [s.fallbacks[i]], now).(fallbacks := Without(s.fallbacks, i))
    case CommitterReceive =>
      var grown := s.buffer + [s.channel[0]];
      s.(channel := s.channel[1..], buffer := grown,
         committer := if |grown| < BATCH_SIZE then s.committer
                      else if s.committer == Selecting then Flushing else DrainFlushing)
    case CommitterTick => s.(committer := Flushing)
    case CommitterFlush(now) =>
      Transact(s, s.buffer, now).(
        buffer := [],
        committer := match s.committer case Flushing => Selecting case DrainFlushing => Draining case _ => Returned)
    case CommitterSeesClose => s.(committer := Draining)
    case CommitterSeesEmpty => s.(committer := if s.buffer == [] then Returned else LastFlushing)
    case FlushCall => s.(flushers := s.flushers + [Collecting([])])
    case FlushReceive(i) =>
      s.(channel := s.channel[1..], flushers := s.flushers[i := Collecting(s.flushers[i].buffer + [s.channel[0]])])
    case FlushSeesEmpty(i) =>
      s.(flushers := s.flushers[i := if s.flushers[i].buffer == [] then Finished else Sealed(s.flushers[i].buffer)])
    case FlushCommit(i, now) =>
      Transact(s, s.flushers[i].buffer, now).(flushers := s.flushers[i := Finished])
    case Close => s.(closing := true)
    case DaemonRead(k) => s.(hands := s.hands + [Hand(k, s.table[k], |s.events|)])
    case PurgeDead(maxFail, cutoff) =>
      s.(table := Purge(s.table, maxFail, cutoff), events := s.events + [Purged(maxFail, cutoff)])
  }

  function Start(t: Table): State {
    State(t, [], [], [], [], [], Selecting, [], [], [], false, 0)
  }

  /** Whether `steps` can be taken one after the other from the start. */
  predicate CanRun(t: Table, steps: seq<Step>)
    decreases |steps|, 0
  {
    steps == [] ||
    (CanRun(t, steps[..|steps| - 1]) && Enabled(Run(t, steps[..|steps| - 1]), steps[|steps| - 1]))
  }

  function Run(t: Table, steps: seq<Step>): State
    requires CanRun(t, steps)
    decreases |steps|, 1
  {
    if steps == [] then Start(t) else After(Run(t, steps[..|steps| - 1]), steps[|steps| - 1])
  }

  // ----- Conservation -----

  function Count(items: seq<Item>, x: Item): nat {
    multiset(items)[x]
  }

  lemma CountConcat(a: seq<Item>, b: seq<Item>, x: Item)
    ensures Count(a + b, x) == Count(a, x) + Count(b, x)
  {
  }

  lemma CountWithout(items: seq<Item>, i: nat, x: Item)
    requires i < |items|
    ensures Count(Without(items, i), x) + Count([items[i]], x) == Count(items, x)
  {
    WithoutAt(items, i);
  }

  function Kept(f: Flusher): seq<Item> {
    if f.Finished? then [] else f.buffer
  }

  function Total(flushers: seq<Flusher>, load: Flusher -> nat): nat {
    if flushers == [] then 0 else Total(flushers[..|flushers| - 1], load) + load(flushers[|flushers| - 1])
  }

  function Holding(x: Item): Flusher -> nat {
    (f: Flusher) => Count(Kept(f), x)
  }

  /** How often `x` sits in the buffers of the Flush calls. */
  function InFlushes(flushers: seq<Flusher>, x: Item): nat {
    Total(flushers, Holding(x))
  }

  /** How often `x` sits in any of the places an accepted item can be. */
  function Places(s: State, x: Item): nat {
    Count(s.channel, x) + Count(s.buffer, x) + InFlushes(s.flushers, x) + Count(s.fallbacks, x) + Count(s.committed, x)
  }

  lemma {:induction false} LoadReplaced(flushers: seq<Flusher>, i: nat, f: Flusher, load: Flusher -> nat)
    requires i < |flushers|
    ensures Total(flushers[i := f], load) + load(flushers[i]) == Total(flushers, load) + load(f)
    decreases |flushers|
  {
    var n := |flushers| - 1;
    var replaced := flushers[i := f];
    if i < n {
      LoadReplaced(flushers[..n], i, f, load);
      assert replaced[..n] == flushers[..n][i := f];
    } else {
      assert replaced[..n] == flushers[..n];
    }
  }

  lemma FlusherReplaced(flushers: seq<Flusher>, i: nat, f: Flusher, x: Item)
    requires i < |flushers|
    ensures InFlushes(flushers[i := f], x) + Count(Kept(flushers[i]), x) == InFlushes(flushers, x) + Count(Kept(f), x)
  {
    LoadReplaced(flushers, i, f, Holding(x));
  }

  ghost predicate Conserved(s: State) {
    && (forall x :: Places(s, x) == Count(s.accepted, x))
    && (forall i :: 0 <= i < |s.accepted| ==> s.accepted[i].id == i)
  }

  lemma HeadMoves(channel: seq<Item>, buffer: seq<Item>, x: Item)
    requires channel != []
    ensures Count(channel[1..], x) + Count(buffer + [channel[0]], x) == Count(channel, x) + Count(buffer, x)
  {
    assert channel == [channel[0]] + channel[1..];
  }

  lemma PlacesByFallback(s: State, i: nat, now: Time, x: Item)
    requires Enabled(s, CommitFallback(i, now))
    ensures Places(After(s, CommitFallback(i, now)), x) == Places(s, x)
  {
    CountWithout(s.fallbacks, i, x);
    CountConcat(s.committed, [s.fallbacks[i]], x);
  }

  lemma PlacesByFlush(s: State, i: nat, now: Time, x: Item)
    requires Enabled(s, FlushCommit(i, now))
    ensures Places(After(s, FlushCommit(i, now)), x) == Places(s, x)
  {
    FlusherReplaced(s.flushers, i, Finished, x);
    CountConcat(s.committed, s.flushers[i].buffer, x);
  }

  lemma PlacesByTransaction(s: State, step: Step, x: Item)
    requires Enabled(s, step) && (step.CommitFallback? || step.CommitterFlush? || step.FlushCommit?)
    ensures Places(After(s, step), x) == Places(s, x)
    ensures After(s, step).accepted == s.accepted
  {
    match step
    case CommitFallback(i, now) => PlacesByFallback(s, i, now, x);
    case CommitterFlush(now) => CountConcat(s.committed, s.buffer, x);
    case FlushCommit(i, now) => PlacesByFlush(s, i, now, x);
  }

  lemma PlacesByFlushReceive(s: State, i: nat, x: Item)
    requires Enabled(s, FlushReceive(i))
    ensures Places(After(s, FlushReceive(i)), x) == Places(s, x)
  {
    HeadMoves(s.channel, s.flushers[i].buffer, x);
    FlusherReplaced(s.flushers, i, After(s, FlushReceive(i)).flushers[i], x);
  }

  lemma PlacesByReceive(s: State, step: Step, x: Item)
    requires Enabled(s, step) && (step.CommitterReceive? || step.FlushReceive? || step.FlushSeesEmpty? || step.FlushCall?)
    ensures Places(After(s, step), x) == Places(s, x)
  {
    match step
    case CommitterReceive => HeadMoves(s.channel, s.buffer, x);
    case FlushCall => assert (s.flushers + [Collecting([])])[..|s.flushers|] == s.flushers;
    case FlushReceive(i) => PlacesByFlushReceive(s, i, x);
    case FlushSeesEmpty(i) => FlusherReplaced(s.flushers, i, After(s, step).flushers[i], x);
  }

  /** A step moves items between places and adds exactly what it accepts. */
  lemma PlacesByStep(s: State, step: Step, x: Item)
    requires Enabled(s, step)
    ensures Places(After(s, step), x) + Count(s.accepted, x) == Places(s, x) + Count(After(s, step).accepted, x)
  {
    if step.CommitFallback? || step.CommitterFlush? || step.FlushCommit? {
      PlacesByTransaction(s, step, x);
    } else if step.CommitterReceive? || step.FlushReceive? || step.FlushSeesEmpty? || step.FlushCall? {
      PlacesByReceive(s, step, x);
    } else if step.Enqueue? || step.TakeFallback? {
      CountConcat(s.accepted, [NewItem(s, step.source)], x);
      CountConcat(s.channel, [NewItem(s, step.source)], x);
      CountConcat(s.fallbacks, [NewItem(s, step.source)], x);
    }
  }

  lemma ConservedByStep(s: State, step: Step)
    requires Conserved(s) && Enabled(s, step)
    ensures Conserved(After(s, step))
  {
    forall x ensures Places(After(s, step), x) == Count(After(s, step).accepted, x) {
      PlacesByStep(s, step, x);
    }
  }

  // ----- Shape of the protocol -----

  /** The bounds on the channel and on the committer's buffer. */
  ghost predicate Shaped(s: State) {
    && |s.channel| <= CAPACITY
    && |s.buffer| <= BATCH_SIZE
    && (s.committer in {Selecting, Draining} ==> |s.buffer| < BATCH_SIZE)
    && (s.committer in {Flushing, DrainFlushing, LastFlushing} ==> s.buffer != [])
    && (s.committer == Returned ==> s.buffer == [])
    && (s.committer in {Draining, DrainFlushing, LastFlushing, Returned} ==> s.closing)
    && (s.committer in {LastFlushing, Returned} ==> |s.channel| <= s.lateSends)
  }

  lemma ShapedByStep(s: State, step: Step)
    requires Shaped(s) && Enabled(s, step)
    ensures Shaped(After(s, step))
  {
  }

  // ----- The table is the replay of the events, and liveness agrees -----

  lemma {:induction false} ReplaySplit(t: Table, a: seq<Event>, b: seq<Event>)
    ensures Replay(t, a + b) == Replay(Replay(t, a), b)
    decreases |b|
  {
    if b == [] {
      assert a + b == a;
    } else {
      ReplaySplit(t, a, b[..|b| - 1]);
      assert (a + b)[..|a + b| - 1] == a + b[..|b| - 1];
    }
  }

  ghost predicate ConsistentItems(items: seq<Item>) {
    forall i :: 0 <= i < |items| ==> Consistent(items[i].row)
  }

  ghost predicate ConsistentHands(hands: seq<Hand>) {
    forall i :: 0 <= i < |hands| ==> Consistent(hands[i].row)
  }

  /** The upserts among the events, in order. */
  function UpsertsIn(events: seq<Event>): seq<Commit> {
    if events == [] then []
    else UpsertsIn(events[..|events| - 1])
         + match events[|events| - 1] case Upserted(c) => [c] case Purged(_, _) => []
  }

  lemma {:induction false} UpsertsInConcat(a: seq<Event>, b: seq<Event>)
    ensures UpsertsIn(a + b) == UpsertsIn(a) + UpsertsIn(b)
    decreases |b|
  {
    if b == [] {
      assert a + b == a;
    } else {
      UpsertsInConcat(a, b[..|b| - 1]);
      assert (a + b)[..|a + b| - 1] == a + b[..|b| - 1];
    }
  }

  lemma {:induction false} UpsertsInTransaction(items: seq<Item>, now: Time)
    ensures var cs := UpsertsIn(UpsertsOf(items, now));
      |cs| == |items| && forall i :: 0 <= i < |items| ==> cs[i] == Commit(items[i].key, Stamp(items[i].row, now))
  {
    if items != [] {
      var before := items[..|items| - 1];
      UpsertsInTransaction(before, now);
      assert UpsertsOf(items, now)[..|items| - 1] == UpsertsOf(before, now);
    }
  }

  /** An upsert that binds the item's values, stamped. */
  predicate Binds(c: Commit, item: Item) {
    c.key == item.key && c.row == Stamp(item.row, c.row.lastChecked)
  }

  /** The upserts made are, in order, those of the committed items, and the table is what all
      events made of the first one. */
  ghost predicate Logged(t: Table, s: State) {
    && s.table == Replay(t, s.events)
    && var cs := UpsertsIn(s.events);
       |cs| == |s.committed| && forall i :: 0 <= i < |cs| ==> Binds(cs[i], s.committed[i])
  }

  lemma LoggedByTransaction(t: Table, s: State, items: seq<Item>, now: Time)
    requires Logged(t, s)
    ensures Logged(t, Transact(s, items, now))
  {
    ReplaySplit(t, s.events, UpsertsOf(items, now));
    UpsertsInConcat(s.events, UpsertsOf(items, now));
    UpsertsInTransaction(items, now);
  }

  lemma LoggedByStep(t: Table, s: State, step: Step)
    requires Logged(t, s) && Enabled(s, step)
    ensures Logged(t, After(s, step))
  {
    match step
    case CommitFallback(i, now) => LoggedByTransaction(t, s, [s.fallbacks[i]], now);
    case CommitterFlush(now) => LoggedByTransaction(t, s, s.buffer, now);
    case FlushCommit(i, now) => LoggedByTransaction(t, s, s.flushers[i].buffer, now);
    case PurgeDead(maxFail, cutoff) =>
      ReplaySplit(t, s.events, [Purged(maxFail, cutoff)]);
      UpsertsInConcat(s.events, [Purged(maxFail, cutoff)]);
      assert [Purged(maxFail, cutoff)][..0] == [];
    case _ =>
  }

  /** Every row anywhere agrees on liveness. */
  ghost predicate Recorded(s: State) {
    && ConsistentEvents(s.events)
    && ConsistentItems(s.accepted)
    && ConsistentHands(s.hands)
  }

  lemma ConsistentFrom(s: State, items: seq<Item>)
    requires ConsistentItems(s.accepted)
    requires forall x :: Count(items, x) <= Count(s.accepted, x)
    ensures ConsistentItems(items)
  {
    forall i | 0 <= i < |items| ensures Consistent(items[i].row) {
      assert Count(items, items[i]) > 0;
      assert items[i] in s.accepted;
    }
  }

  lemma RecordedByTransaction(s: State, items: seq<Item>, now: Time)
    requires Recorded(s) && ConsistentItems(items)
    ensures Recorded(Transact(s, items, now))
  {
  }

  lemma {:induction false} FlusherWithin(flushers: seq<Flusher>, i: nat, x: Item)
    requires i < |flushers|
    ensures Count(Kept(flushers[i]), x) <= InFlushes(flushers, x)
    decreases |flushers|
  {
    if i < |flushers| - 1 {
      FlusherWithin(flushers[..|flushers| - 1], i, x);
    }
  }

  lemma RecordedByStep(t: Table, s: State, step: Step)
    requires ConsistentTable(t)
    requires Conserved(s) && Logged(t, s) && Recorded(s) && Enabled(s, step)
    ensures Recorded(After(s, step))
  {
    match step
    case CommitFallback(i, now) =>
      ConsistentFrom(s, s.fallbacks);
      RecordedByTransaction(s, [s.fallbacks[i]], now);
    case CommitterFlush(now) =>
      ConsistentFrom(s, s.buffer);
      RecordedByTransaction(s, s.buffer, now);
    case FlushCommit(i, now) =>
      forall x ensures Count(s.flushers[i].buffer, x) <= Places(s, x) {
        FlusherWithin(s.flushers, i, x);
      }
      ConsistentFrom(s, s.flushers[i].buffer);
      RecordedByTransaction(s, s.flushers[i].buffer, now);
    case DaemonRead(k) => AliveIffNoFailures(t, s.events);
    case _ =>
  }

  // ----- Main results, over every run -----

  ghost predicate Inv(t: Table, s: State) {
    Conserved(s) && Shaped(s) && Logged(t, s)
  }

  /** The invariant holds after every interleaving. */
  lemma {:induction false} EveryRunIsSafe(t: Table, steps: seq<Step>)
    requires CanRun(t, steps)
    ensures Inv(t, Run(t, steps))
    decreases |steps|
  {
    if steps != [] {
      var before := steps[..|steps| - 1];
      EveryRunIsSafe(t, before);
      var s, step := Run(t, before), steps[|steps| - 1];
      ConservedByStep(s, step);
      ShapedByStep(s, step);
      LoggedByStep(t, s, step);
    }
  }

  /** From a consistent table every row anywhere stays consistent. */
  lemma {:induction false} EveryRunIsConsistent(t: Table, steps: seq<Step>)
    requires ConsistentTable(t) && CanRun(t, steps)
    ensures Recorded(Run(t, steps))
    decreases |steps|
  {
    if steps != [] {
      var before := steps[..|steps| - 1];
      EveryRunIsSafe(t, before);
      EveryRunIsConsistent(t, before);
      RecordedByStep(t, Run(t, before), steps[|steps| - 1]);
    }
  }

  lemma {:induction false} NumberedOnce(items: seq<Item>, i: nat)
    requires forall j :: 0 <= j < |items| ==> items[j].id == j
    requires i < |items|
    ensures Count(items, items[i]) == 1
    decreases |items|
  {
    var n := |items| - 1;
    assert items == items[..n] + [items[n]];
    CountConcat(items[..n], [items[n]], items[i]);
    if i < n {
      NumberedOnce(items[..n], i);
    } else {
      assert items[n] !in items[..n];
    }
  }

  /** Each accepted proxy is in exactly one place, once, and every place holds only accepted ones. */
  lemma ExactlyOnePlace(t: Table, steps: seq<Step>, x: Item)
    requires CanRun(t, steps)
    ensures var s := Run(t, steps);
            Count(s.channel, x) + Count(s.buffer, x) + InFlushes(s.flushers, x) + Count(s.fallbacks, x)
              + Count(s.committed, x)
            == if x in s.accepted then 1 else 0
  {
    EveryRunIsSafe(t, steps);
    var s := Run(t, steps);
    assert Places(s, x) == Count(s.accepted, x);
    if x in s.accepted {
      var i :| 0 <= i < |s.accepted| && s.accepted[i] == x;
      NumberedOnce(s.accepted, i);
    }
  }

  ghost predicate NothingIn(flushers: seq<Flusher>) {
    forall i :: 0 <= i < |flushers| ==> Kept(flushers[i]) == []
  }

  lemma {:induction false} EmptyFlushes(flushers: seq<Flusher>, x: Item)
    requires NothingIn(flushers)
    ensures InFlushes(flushers, x) == 0
    decreases |flushers|
  {
    if flushers != [] {
      EmptyFlushes(flushers[..|flushers| - 1], x);
    }
  }

  /** Everything accepted is in the committed log, once. */
  ghost predicate Complete(s: State) {
    multiset(s.committed) == multiset(s.accepted)
  }

  /** Nothing is lost and nothing is pending exactly when no place but the log holds anything. */
  lemma CompleteIff(s: State)
    requires Conserved(s)
    ensures Complete(s) <==> s.channel == [] && s.buffer == [] && NothingIn(s.flushers) && s.fallbacks == []
  {
    if s.channel == [] && s.buffer == [] && NothingIn(s.flushers) && s.fallbacks == [] {
      forall x ensures multiset(s.committed)[x] == multiset(s.accepted)[x] {
        EmptyFlushes(s.flushers, x);
        assert Places(s, x) == Count(s.accepted, x);
      }
    } else if !NothingIn(s.flushers) {
      var i :| 0 <= i < |s.flushers| && Kept(s.flushers[i]) != [];
      var x := Kept(s.flushers[i])[0];
      FlusherWithin(s.flushers, i, x);
      assert Places(s, x) == Count(s.accepted, x);
      assert Count(s.committed, x) < Count(s.accepted, x);
    } else {
      var x := if s.channel != [] then s.channel[0] else if s.buffer != [] then s.buffer[0] else s.fallbacks[0];
      assert Places(s, x) == Count(s.accepted, x);
      assert Count(s.committed, x) < Count(s.accepted, x);
    }
  }

  /** Everything accepted has reached the table's log, exactly once: the upserts made are
      those of the accepted proxies, each with the values it was accepted with, stamped. */
  ghost predicate InTable(s: State) {
    exists order: seq<Item> ::
      && multiset(order) == multiset(s.accepted) && |order| == |UpsertsIn(s.events)|
      && forall i :: 0 <= i < |order| ==> Binds(UpsertsIn(s.events)[i], order[i])
  }

  /** When everything accepted is committed it is in the table, and the table is the replay of
      exactly these upserts and the purges. */
  lemma CompleteReachesTable(t: Table, steps: seq<Step>)
    requires CanRun(t, steps) && Complete(Run(t, steps))
    ensures Run(t, steps).table == Replay(t, Run(t, steps).events) && InTable(Run(t, steps))
  {
    EveryRunIsSafe(t, steps);
    var s := Run(t, steps);
    assert |s.committed| == |UpsertsIn(s.events)|;
  }

  /** No proxy enters the channel after Close has been called. */
  predicate SendsStopAtClose(steps: seq<Step>) {
    forall i, j :: 0 <= i < j < |steps| && steps[i] == Close ==> !steps[j].Enqueue?
  }

  lemma {:induction false} ClosingSinceClose(t: Table, steps: seq<Step>)
    requires CanRun(t, steps)
    ensures Run(t, steps).closing ==> Close in steps
  {
    if steps != [] {
      var before, step := steps[..|steps| - 1], steps[|steps| - 1];
      ClosingSinceClose(t, before);
      assert steps == before + [step];
    }
  }

  lemma {:induction false} NoLateSends(t: Table, steps: seq<Step>)
    requires CanRun(t, steps) && SendsStopAtClose(steps)
    ensures Run(t, steps).lateSends == 0
  {
    if steps != [] {
      var before, step := steps[..|steps| - 1], steps[|steps| - 1];
      assert forall i :: 0 <= i < |before| ==> before[i] == steps[i];
      NoLateSends(t, before);
      EveryRunIsSafe(t, before);
      ClosingSinceClose(t, before);
      NoLateSendByStep(Run(t, before), step);
    }
  }

  lemma NoLateSendByStep(s: State, step: Step)
    requires Shaped(s) && s.lateSends == 0 && Enabled(s, step) && (step.Enqueue? ==> !s.closing)
    ensures After(s, step).lateSends == 0
  {
  }

  /** If nothing is sent once Close has been called, then with the committer returned and no
      call in progress everything accepted is committed, whatever ran before and beside. */
  lemma ClosedStoreIsComplete(t: Table, steps: seq<Step>)
    requires CanRun(t, steps) && SendsStopAtClose(steps)
    requires var s := Run(t, steps);
             s.committer == Returned && s.fallbacks == [] && NothingIn(s.flushers)
    ensures Complete(Run(t, steps)) && InTable(Run(t, steps))
  {
    NoLateSends(t, steps);
    EveryRunIsSafe(t, steps);
    CompleteIff(Run(t, steps));
    CompleteReachesTable(t, steps);
  }

  /** Without that condition: all is committed exactly when the channel is empty. */
  lemma ReturnedCommitterIff(t: Table, steps: seq<Step>)
    requires CanRun(t, steps)
    requires var s := Run(t, steps);
             s.committer == Returned && s.fallbacks == [] && NothingIn(s.flushers)
    ensures Complete(Run(t, steps)) <==> Run(t, steps).channel == []
  {
    EveryRunIsSafe(t, steps);
    CompleteIff(Run(t, steps));
  }

  /** The step with which Flush call `i` returns: its commit, or the empty channel when it
      has collected nothing. */
  predicate FlushReturns(s: State, step: Step, i: nat) {
    && Enabled(s, step)
    && (step.FlushCommit? || step.FlushSeesEmpty?) && step.i == i
    && After(s, step).flushers[i].Finished?
  }

  /** A Flush call, however it returns, leaves everything accepted committed exactly when the
      channel is still empty and neither the committer, nor another Flush, nor a fallback holds
      anything. */
  lemma FlushLeavesBuffers(t: Table, steps: seq<Step>, step: Step, i: nat)
    requires CanRun(t, steps) && FlushReturns(Run(t, steps), step, i)
    ensures var s := Run(t, steps);
            Complete(After(s, step))
            <==> && s.channel == [] && s.buffer == [] && s.fallbacks == []
                 && (forall j :: 0 <= j < |s.flushers| && j != i ==> Kept(s.flushers[j]) == [])
  {
    EveryRunIsSafe(t, steps);
    var s, s' := Run(t, steps), After(Run(t, steps), step);
    ConservedByStep(s, step);
    CompleteIff(s');
    assert forall j :: 0 <= j < |s.flushers| && j != i ==> s'.flushers[j] == s.flushers[j];
  }

  /** In every reachable state a stored row is alive exactly when it has no consecutive failure. */
  lemma StoredRowsAgree(t: Table, steps: seq<Step>, k: Key)
    requires ConsistentTable(t) && CanRun(t, steps)
    requires k in Run(t, steps).table
    ensures var row := Run(t, steps).table[k]; row.alive <==> row.consecutiveFail == 0
  {
    EveryRunIsSafe(t, steps);
    EveryRunIsConsistent(t, steps);
    AliveIffNoFailures(t, Run(t, steps).events);
  }

  // ----- Draining ends -----

  /** Committer steps still to come while draining, if nobody sends. */
  function DrainWork(s: State): nat {
    match s.committer
    case Draining => 2 * |s.channel| + 2
    case DrainFlushing => 2 * |s.channel| + 3
    case LastFlushing => 1
    case Returned => 0
    case _ => 0
  }

  predicate ByCommitter(step: Step) {
    step.CommitterReceive? || step.CommitterTick? || step.CommitterFlush? || step.CommitterSeesClose?
    || step.CommitterSeesEmpty?
  }

  predicate Drains(s: State) {
    s.committer in {Draining, DrainFlushing, LastFlushing}
  }

  /** While the committer drains it always has a step to take; each one uses up work
      and nothing but a new send adds any. */
  lemma DrainProgress(s: State, step: Step)
    requires Drains(s) && Enabled(s, step) && !step.Enqueue?
    ensures exists mine :: ByCommitter(mine) && Enabled(s, mine)
    ensures DrainWork(After(s, step)) <= DrainWork(s)
    ensures ByCommitter(step) ==> DrainWork(After(s, step)) < DrainWork(s)
    ensures Drains(After(s, step)) || After(s, step).committer == Returned
  {
    if s.committer == Draining {
      if s.channel == [] {
        assert Enabled(s, CommitterSeesEmpty) && ByCommitter(CommitterSeesEmpty);
      } else {
        assert Enabled(s, CommitterReceive) && ByCommitter(CommitterReceive);
      }
    } else {
      assert Enabled(s, CommitterFlush(0)) && ByCommitter(CommitterFlush(0));
    }
  }

  function CommitterSteps(steps: seq<Step>): nat {
    if steps == [] then 0
    else CommitterSteps(steps[..|steps| - 1]) + if ByCommitter(steps[|steps| - 1]) then 1 else 0
  }

  /** Along any run that goes on from a draining state without sends, the committer
      takes at most DrainWork steps: the drain ends, whatever the others do. */
  lemma {:induction false} DrainTerminates(t: Table, steps: seq<Step>, more: seq<Step>)
    requires CanRun(t, steps) && CanRun(t, steps + more)
    requires Drains(Run(t, steps))
    requires forall i :: 0 <= i < |more| ==> !more[i].Enqueue?
    ensures var s := Run(t, steps + more);
            && (Drains(s) || s.committer == Returned)
            && CommitterSteps(more) + DrainWork(s) <= DrainWork(Run(t, steps))
    decreases |more|
  {
    if more == [] {
      assert steps + more == steps;
    } else {
      var less, step := more[..|more| - 1], more[|more| - 1];
      assert (steps + more)[..|steps + more| - 1] == steps + less;
      DrainTerminates(t, steps, less);
      var s := Run(t, steps + less);
      if Drains(s) {
        DrainProgress(s, step);
      }
    }
  }

  // ----- The daemon's view -----

  lemma {:induction false} UntouchedRow(t: Table, before: seq<Event>, more: seq<Event>, k: Key)
    requires forall i :: 0 <= i < |more| && more[i].Upserted? ==> more[i].commit.key != k
    ensures k in Replay(t, before + more) ==>
              k in Replay(t, before) && Replay(t, before + more)[k] == Replay(t, before)[k]
    decreases |more|
  {
    if more == [] {
      assert before + more == before;
    } else {
      UntouchedRow(t, before, more[..|more| - 1], k);
      assert (before + more)[..|before + more| - 1] == before + more[..|more| - 1];
    }
  }

  /** If nobody else writes the key between the daemon's read and its commit, the
      stored failure count and liveness end up as they are in the daemon's memory;
      purges in between do not matter. */
  lemma DaemonMemoryAgrees(t: Table, before: seq<Event>, more: seq<Event>, k: Key, outcome: Outcome, now: Time)
    requires k in Replay(t, before)
    requires forall i :: 0 <= i < |more| && more[i].Upserted? ==> more[i].commit.key != k
    ensures var memory := Rechecked(Replay(t, before)[k], outcome);
            var stored := Upsert(Replay(t, before + more), Commit(k, Stamp(memory, now)))[k];
            stored.consecutiveFail == memory.consecutiveFail && stored.alive == memory.alive
  {
    UntouchedRow(t, before, more, k);
  }

  /** With other writers about, the counts agree exactly when the check succeeded or
      the row still has the failure count the daemon read. */
  lemma DaemonMemoryAgreesIff(t: Table, k: Key, held: Row, outcome: Outcome, now: Time)
    requires k in t
    ensures var memory := Rechecked(held, outcome);
            Upsert(t, Commit(k, Stamp(memory, now)))[k].consecutiveFail == memory.consecutiveFail
            <==> outcome.Succeeded? || t[k].consecutiveFail == held.consecutiveFail
  {
  }

  /** A row the daemon holds is the stored row as it read it. */
  ghost predicate ReadAt(t: Table, events: seq<Event>, k: Key, row: Row, at: nat) {
    at <= |events| && k in Replay(t, events[..at]) && Replay(t, events[..at])[k] == row
  }

  /** A rechecked item is the outcome written on such a row. */
  ghost predicate Traced(t: Table, events: seq<Event>, x: Item) {
    x.origin.Reread? ==>
      && x.origin.at <= |events| && x.key in Replay(t, events[..x.origin.at])
      && x.row == Rechecked(Replay(t, events[..x.origin.at])[x.key], x.origin.outcome)
  }

  ghost predicate AllTraced(t: Table, s: State) {
    && (forall i :: 0 <= i < |s.hands| ==> ReadAt(t, s.events, s.hands[i].key, s.hands[i].row, s.hands[i].at))
    && (forall i :: 0 <= i < |s.accepted| ==> Traced(t, s.events, s.accepted[i]))
  }

  lemma TracesStay(t: Table, s: State, events: seq<Event>)
    requires AllTraced(t, s) && s.events <= events
    ensures AllTraced(t, s.(events := events))
  {
    forall i | 0 <= i < |s.hands| ensures ReadAt(t, events, s.hands[i].key, s.hands[i].row, s.hands[i].at) {
      assert ReadAt(t, s.events, s.hands[i].key, s.hands[i].row, s.hands[i].at);
      assert events[..s.hands[i].at] == s.events[..s.hands[i].at];
    }
    forall i | 0 <= i < |s.accepted| ensures Traced(t, events, s.accepted[i]) {
      var x := s.accepted[i];
      assert Traced(t, s.events, x);
      if x.origin.Reread? { assert events[..x.origin.at] == s.events[..x.origin.at]; }
    }
  }

  lemma TracedBySend(t: Table, s: State, step: Step)
    requires AllTraced(t, s) && Enabled(s, step) && (step.Enqueue? || step.TakeFallback?)
    ensures AllTraced(t, After(s, step))
  {
    HandsStay(t, s, step.source);
    NewItemTraced(t, s, step.source);
  }

  lemma NewItemTraced(t: Table, s: State, source: Source)
    requires AllTraced(t, s) && HasSource(s, source)
    ensures Traced(t, s.events, NewItem(s, source))
  {
    if source.FromDaemon? {
      var h := s.hands[source.hand];
      assert ReadAt(t, s.events, h.key, h.row, h.at);
    }
  }

  lemma HandsStay(t: Table, s: State, source: Source)
    requires AllTraced(t, s) && HasSource(s, source)
    ensures forall i :: 0 <= i < |HandsAfter(s, source)| ==>
      ReadAt(t, s.events, HandsAfter(s, source)[i].key, HandsAfter(s, source)[i].row, HandsAfter(s, source)[i].at)
  {
    var hands := HandsAfter(s, source);
    forall i | 0 <= i < |hands| ensures ReadAt(t, s.events, hands[i].key, hands[i].row, hands[i].at) {
      var j := if source.FromPipeline? || i < source.hand then i else i + 1;
      assert hands[i] == s.hands[j];
    }
  }

  lemma TracedByStep(t: Table, s: State, step: Step)
    requires Logged(t, s) && AllTraced(t, s) && Enabled(s, step)
    ensures AllTraced(t, After(s, step))
  {
    if step.Enqueue? || step.TakeFallback? {
      TracedBySend(t, s, step);
    } else if step.DaemonRead? {
      assert s.events[..|s.events|] == s.events;
    } else {
      EventsGrow(s, step);
      TracesStay(t, s, After(s, step).events);
    }
  }

  lemma EventsGrow(s: State, step: Step)
    requires Enabled(s, step)
    ensures s.events <= After(s, step).events && s.committed <= After(s, step).committed
  {
  }

  lemma {:induction false} EveryRunIsTraced(t: Table, steps: seq<Step>)
    requires CanRun(t, steps)
    ensures AllTraced(t, Run(t, steps))
    decreases |steps|
  {
    if steps != [] {
      var before := steps[..|steps| - 1];
      EveryRunIsSafe(t, before);
      EveryRunIsTraced(t, before);
      TracedByStep(t, Run(t, before), steps[|steps| - 1]);
    }
  }

  lemma UpsertAt(events: seq<Event>, p: nat)
    requires p < |events| && events[p].Upserted?
    ensures |UpsertsIn(events[..p])| < |UpsertsIn(events)|
    ensures UpsertsIn(events)[|UpsertsIn(events[..p])|] == events[p].commit
  {
    UpsertsInConcat(events[..p], [events[p]]);
    assert [events[p]][..0] == [];
    UpsertsInConcat(events[..p + 1], events[p + 1..]);
    assert events == events[..p + 1] + events[p + 1..] && events[..p + 1] == events[..p] + [events[p]];
  }

  /** The item behind the upsert at position `p`. */
  function ItemAt(s: State, p: nat): Item
    requires p < |s.events| && |UpsertsIn(s.events[..p])| < |s.committed|
  {
    s.committed[|UpsertsIn(s.events[..p])|]
  }

  /** No recheck is committed before its row was read. */
  ghost predicate InOrder(s: State) {
    forall p: nat :: p < |s.events| && s.events[p].Upserted? && |UpsertsIn(s.events[..p])| < |s.committed| ==>
      ItemAt(s, p).origin.Reread? ==> ItemAt(s, p).origin.at <= p
  }

  lemma OrderByStep(t: Table, s: State, step: Step)
    requires Inv(t, s) && AllTraced(t, s) && InOrder(s) && Enabled(s, step)
    ensures InOrder(After(s, step))
  {
    var s' := After(s, step);
    EventsGrow(s, step);
    ConservedByStep(s, step);
    TracedByStep(t, s, step);
    forall p: nat | p < |s'.events| && s'.events[p].Upserted? && |UpsertsIn(s'.events[..p])| < |s'.committed|
      ensures ItemAt(s', p).origin.Reread? ==> ItemAt(s', p).origin.at <= p
    {
      var x := ItemAt(s', p);
      if p < |s.events| {
        assert s'.events[..p] == s.events[..p] && s'.events[p] == s.events[p];
        UpsertAt(s.events, p);
        assert ItemAt(s, p) == x;
      } else {
        CommittedWasAccepted(s', x);
        CommitsAcceptNothing(s, step);
        assert Traced(t, s.events, x);
      }
    }
  }

  lemma CommitsAcceptNothing(s: State, step: Step)
    requires Enabled(s, step)
    ensures After(s, step).events == s.events || After(s, step).accepted == s.accepted
  {
  }

  lemma {:induction false} EveryRunIsInOrder(t: Table, steps: seq<Step>)
    requires CanRun(t, steps)
    ensures InOrder(Run(t, steps))
    decreases |steps|
  {
    if steps != [] {
      var before := steps[..|steps| - 1];
      EveryRunIsSafe(t, before);
      EveryRunIsTraced(t, before);
      EveryRunIsInOrder(t, before);
      OrderByStep(t, Run(t, before), steps[|steps| - 1]);
    }
  }

  /** No event from `from` on, before `to`, wrote the key. */
  ghost predicate Untouched(events: seq<Event>, k: Key, from: nat, to: nat) {
    forall j :: from <= j < to && j < |events| && events[j].Upserted? ==> events[j].commit.key != k
  }

  /** In every run: when a daemon's recheck is committed and nobody else wrote the key since
      the daemon read it, the stored failure count and liveness become those of the proxy in
      the daemon's memory, and remain so until somebody writes the key or a purge removes it. */
  lemma DaemonMemoryReachesTable(t: Table, steps: seq<Step>, p: nat)
    requires CanRun(t, steps) && p < |Run(t, steps).events| && Run(t, steps).events[p].Upserted?
    ensures var s := Run(t, steps);
      |UpsertsIn(s.events[..p])| < |s.committed| && Binds(s.events[p].commit, ItemAt(s, p))
      && Remembered(t, s, p, ItemAt(s, p)) && TakesOutcome(t, s, p, ItemAt(s, p))
  {
    EveryRunIsSafe(t, steps);
    EveryRunIsTraced(t, steps);
    EveryRunIsInOrder(t, steps);
    UpsertAt(Run(t, steps).events, p);
    CommitIsRemembered(t, Run(t, steps), p);
    CommitTakesOutcome(t, Run(t, steps), p);
  }

  /** The columns that the outcome of a recheck decides, the others as they were read. */
  predicate OutcomeIn(row: Row, read: Row, outcome: Outcome) {
    match outcome
    case Succeeded(latencyMs, anonymity, _, score) =>
      row.alive && row.info == read.info.(latencyMs := latencyMs, anonymity := anonymity, score := score)
    case Failed(score) => !row.alive && row.info == read.info.(score := score)
  }

  /** The failures in a row after a recheck of a row with `read` of them. */
  predicate CountIn(row: Row, read: Row, outcome: Outcome) {
    row.consecutiveFail == if outcome.Succeeded? then 0 else read.consecutiveFail + 1
  }

  /** If `x`, committed at position `p`, is a recheck, the table takes liveness and the measured
      columns from its outcome, and the failure count too if nobody wrote the row since it was
      read; and they stay until somebody writes the key. */
  ghost predicate TakesOutcome(t: Table, s: State, p: nat, x: Item)
    requires p < |s.events|
  {
    x.origin.Reread? ==>
      && x.origin.at <= p && x.key in Replay(t, s.events[..x.origin.at]) && x.key in Replay(t, s.events[..p + 1])
      && var read := Replay(t, s.events[..x.origin.at])[x.key];
         var quiet := Untouched(s.events, x.key, x.origin.at, p);
         && Decided(Replay(t, s.events[..p + 1])[x.key], read, x.origin.outcome, quiet)
         && (Untouched(s.events, x.key, p + 1, |s.events|) && x.key in s.table ==>
               Decided(s.table[x.key], read, x.origin.outcome, quiet))
  }

  predicate Decided(row: Row, read: Row, outcome: Outcome, quiet: bool) {
    OutcomeIn(row, read, outcome) && (quiet ==> CountIn(row, read, outcome))
  }

  lemma UpsertDecides(t: Table, k: Key, read: Row, outcome: Outcome, now: Time)
    ensures var row := Upsert(t, Commit(k, Stamp(Rechecked(read, outcome), now)))[k];
      OutcomeIn(row, read, outcome)
      && ((k in t ==> t[k].consecutiveFail == read.consecutiveFail) ==> CountIn(row, read, outcome))
  {
  }

  lemma StaysSince(t: Table, s: State, p: nat, k: Key)
    requires Logged(t, s) && p < |s.events| && Untouched(s.events, k, p + 1, |s.events|) && k in s.table
    ensures k in Replay(t, s.events[..p + 1]) && s.table[k] == Replay(t, s.events[..p + 1])[k]
  {
    UntouchedRow(t, s.events[..p + 1], s.events[p + 1..], k);
    assert s.events == s.events[..p + 1] + s.events[p + 1..];
  }

  lemma CommitTakesOutcome(t: Table, s: State, p: nat)
    requires Inv(t, s) && AllTraced(t, s) && InOrder(s)
    requires p < |s.events| && s.events[p].Upserted? && |UpsertsIn(s.events[..p])| < |s.committed|
    requires Binds(s.events[p].commit, ItemAt(s, p))
    ensures TakesOutcome(t, s, p, ItemAt(s, p))
  {
    var x := ItemAt(s, p);
    CommittedWasAccepted(s, x);
    assert Traced(t, s.events, x);
    if x.origin.Reread? {
      RecheckDecides(t, s.events, p, x);
      if Untouched(s.events, x.key, p + 1, |s.events|) && x.key in s.table { StaysSince(t, s, p, x.key); }
    }
  }

  lemma RecheckDecides(t: Table, events: seq<Event>, p: nat, x: Item)
    requires p < |events| && events[p].Upserted? && Binds(events[p].commit, x)
    requires x.origin.Reread? && x.origin.at <= p && Traced(t, events, x)
    ensures x.key in Replay(t, events[..x.origin.at]) && x.key in Replay(t, events[..p + 1])
    ensures Decided(Replay(t, events[..p + 1])[x.key], Replay(t, events[..x.origin.at])[x.key], x.origin.outcome,
                    Untouched(events, x.key, x.origin.at, p))
  {
    var at := x.origin.at;
    assert events[..p + 1][..p] == events[..p];
    UpsertDecides(Replay(t, events[..p]), x.key, Replay(t, events[..at])[x.key], x.origin.outcome,
      events[p].commit.row.lastChecked);
    if Untouched(events, x.key, at, p) {
      UntouchedRow(t, events[..at], events[at..p], x.key);
      assert events[..p] == events[..at] + events[at..p];
    }
  }

  /** If `x`, committed at position `p`, is a recheck of a row that nobody wrote since it was
      read, the table then had its fate, and still has if nobody wrote the key since. */
  ghost predicate Remembered(t: Table, s: State, p: nat, x: Item)
    requires p < |s.events|
  {
    x.origin.Reread? ==>
      && x.origin.at <= p && x.key in Replay(t, s.events[..x.origin.at])
      && x.row == Rechecked(Replay(t, s.events[..x.origin.at])[x.key], x.origin.outcome)
      && (Untouched(s.events, x.key, x.origin.at, p) ==>
            && x.key in Replay(t, s.events[..p + 1])
            && SameFate(Replay(t, s.events[..p + 1])[x.key], x.row)
            && (Untouched(s.events, x.key, p + 1, |s.events|) && x.key in s.table ==> SameFate(s.table[x.key], x.row)))
  }

  lemma CommitIsRemembered(t: Table, s: State, p: nat)
    requires Inv(t, s) && AllTraced(t, s) && InOrder(s)
    requires p < |s.events| && s.events[p].Upserted? && |UpsertsIn(s.events[..p])| < |s.committed|
    requires Binds(s.events[p].commit, ItemAt(s, p))
    ensures Remembered(t, s, p, ItemAt(s, p))
  {
    var x := ItemAt(s, p);
    CommittedWasAccepted(s, x);
    assert Traced(t, s.events, x);
    if x.origin.Reread? && Untouched(s.events, x.key, x.origin.at, p) {
      RecheckCommitted(t, s.events, p, x);
      if Untouched(s.events, x.key, p + 1, |s.events|) && x.key in s.table { StaysSince(t, s, p, x.key); }
    }
  }

  /** The same failure count and liveness. */
  predicate SameFate(a: Row, b: Row) {
    a.consecutiveFail == b.consecutiveFail && a.alive == b.alive
  }

  lemma CommittedWasAccepted(s: State, x: Item)
    requires Conserved(s) && x in s.committed
    ensures x in s.accepted
  {
    assert Places(s, x) == Count(s.accepted, x);
    assert Count(s.committed, x) > 0;
  }

  lemma RecheckCommitted(t: Table, events: seq<Event>, p: nat, x: Item)
    requires p < |events| && events[p].Upserted? && Binds(events[p].commit, x)
    requires x.origin.Reread? && x.origin.at <= p && Traced(t, events, x) && Untouched(events, x.key, x.origin.at, p)
    ensures x.key in Replay(t, events[..p + 1]) && SameFate(Replay(t, events[..p + 1])[x.key], x.row)
  {
    var at := x.origin.at;
    DaemonMemoryAgrees(t, events[..at], events[at..p], x.key, x.origin.outcome, events[p].commit.row.lastChecked);
    assert events[..p] == events[..at] + events[at..p];
    assert events[..p + 1][..p] == events[..p];
  }

  lemma {:induction false} HistoryIsConsistent(t: Table, events: seq<Event>, k: Key)
    requires ConsistentTable(t) && ConsistentEvents(events)
    ensures forall i :: 0 <= i < |History(t, events, k)| ==> Consistent(History(t, events, k)[i])
  {
    if events != [] {
      var before := events[..|events| - 1];
      assert ConsistentEvents(before) by {
        forall i | 0 <= i < |before| && before[i].Upserted? ensures Consistent(before[i].commit.row) {
          assert before[i] == events[i];
        }
      }
      HistoryIsConsistent(t, before, k);
    }
  }

  // ----- When a row was last alive -----

  /** An alive row was last alive when it was last checked, as the stamp makes it. */
  predicate Timed(row: Row) {
    row.alive ==> row.lastAlive == row.lastChecked
  }

  ghost predicate TimedEvents(events: seq<Event>) {
    forall i :: 0 <= i < |events| && events[i].Upserted? ==> Timed(events[i].commit.row)
  }

  lemma {:induction false} EveryCommitIsTimed(t: Table, steps: seq<Step>)
    requires CanRun(t, steps)
    ensures TimedEvents(Run(t, steps).events)
  {
    if steps != [] {
      EveryCommitIsTimed(t, steps[..|steps| - 1]);
      TimedByStep(Run(t, steps[..|steps| - 1]), steps[|steps| - 1]);
    }
  }

  lemma TimedByStep(s: State, step: Step)
    requires TimedEvents(s.events) && Enabled(s, step)
    ensures TimedEvents(After(s, step).events)
  {
  }

  lemma {:induction false} HistoryIsTimed(t: Table, events: seq<Event>, k: Key)
    requires TimedEvents(events) && (k in t ==> Timed(t[k]))
    ensures forall i :: 0 <= i < |History(t, events, k)| ==> Timed(History(t, events, k)[i])
  {
    if events != [] {
      var before := events[..|events| - 1];
      assert forall i :: 0 <= i < |before| ==> before[i] == events[i];
      HistoryIsTimed(t, before, k);
    }
  }

  /** A stored row's last_alive is the time of its latest alive commit, none of the commits
      after which was alive; without one it is what the insert bound. */
  lemma LastAliveIsLatestCommit(t: Table, steps: seq<Step>, k: Key)
    requires CanRun(t, steps) && (k in t ==> Timed(t[k])) && k in Run(t, steps).table
    ensures var s := Run(t, steps);
            var h := History(t, s.events, k);
            && h != []
            && var i := LatestAlive(h);
               && s.table[k].lastAlive == (if h[i].alive then h[i].lastChecked else h[0].lastAlive)
               && (forall j :: i < j < |h| ==> !h[j].alive)
  {
    EveryRunIsSafe(t, steps);
    EveryCommitIsTimed(t, steps);
    var s := Run(t, steps);
    RowIsItsHistory(t, s.events, k);
    HistoryIsTimed(t, s.events, k);
  }

  // ----- When a row was last checked -----

  ghost predicate HasKey(items: seq<Item>, k: Key) {
    exists i :: 0 <= i < |items| && items[i].key == k
  }

  /** The clock reading with which a step commits a proxy of key `k`, if it does. */
  ghost function Reading(s: State, step: Step, k: Key): Option<Time>
    requires Enabled(s, step)
  {
    match step
    case CommitFallback(i, now) => if s.fallbacks[i].key == k then Some(now) else None
    case CommitterFlush(now) => if HasKey(s.buffer, k) then Some(now) else None
    case FlushCommit(i, now) => if HasKey(s.flushers[i].buffer, k) then Some(now) else None
    case _ => None
  }

  /** The reading of the step that last committed key `k`. */
  ghost function LastReading(t: Table, steps: seq<Step>, k: Key): Option<Time>
    requires CanRun(t, steps)
  {
    if steps == [] then None
    else
      var before := steps[..|steps| - 1];
      var reading := Reading(Run(t, before), steps[|steps| - 1], k);
      if reading.Some? then reading else LastReading(t, before, k)
  }

  lemma {:induction false} ReplayUpserts(t: Table, items: seq<Item>, now: Time, k: Key)
    ensures var after := Replay(t, UpsertsOf(items, now));
      if HasKey(items, k) then k in after && after[k].lastChecked == now
      else (k in after <==> k in t) && (k in t ==> after[k] == t[k])
  {
    if items != [] {
      var before, x := items[..|items| - 1], items[|items| - 1];
      ReplayUpserts(t, before, now, k);
      assert UpsertsOf(items, now)[..|items| - 1] == UpsertsOf(before, now);
      StampedUpsert(Replay(t, UpsertsOf(before, now)), x.key, x.row, now);
      HasKeyGrows(before, x, k);
      assert items == before + [x];
    }
  }

  lemma HasKeyGrows(items: seq<Item>, x: Item, k: Key)
    ensures HasKey(items + [x], k) <==> HasKey(items, k) || x.key == k
  {
    var more := items + [x];
    assert more[|items|] == x;
    assert forall i :: 0 <= i < |items| ==> more[i] == items[i];
  }

  lemma ReadingByStep(s: State, step: Step, k: Key)
    requires Enabled(s, step) && k in After(s, step).table
    ensures var reading := Reading(s, step, k);
      if reading.Some? then After(s, step).table[k].lastChecked == reading.value
      else k in s.table && After(s, step).table[k] == s.table[k]
  {
    match step
    case CommitFallback(i, now) =>
      ReplayUpserts(s.table, [s.fallbacks[i]], now, k);
      HasKeyGrows([], s.fallbacks[i], k);
      assert [] + [s.fallbacks[i]] == [s.fallbacks[i]];
    case CommitterFlush(now) => ReplayUpserts(s.table, s.buffer, now, k);
    case FlushCommit(i, now) => ReplayUpserts(s.table, s.flushers[i].buffer, now, k);
    case _ =>
  }

  /** In every run a stored row's last_checked is the clock reading of the step that last committed
      its key, alive or dead; without one the row is the one the run began with. */
  lemma {:induction false} LastCheckedIsLatestCommit(t: Table, steps: seq<Step>, k: Key)
    requires CanRun(t, steps) && k in Run(t, steps).table
    ensures var reading := LastReading(t, steps, k);
      if reading.Some? then Run(t, steps).table[k].lastChecked == reading.value
      else k in t && Run(t, steps).table[k] == t[k]
  {
    if steps != [] {
      var before := steps[..|steps| - 1];
      ReadingByStep(Run(t, before), steps[|steps| - 1], k);
      if Reading(Run(t, before), steps[|steps| - 1], k).None? { LastCheckedIsLatestCommit(t, before, k); }
    }
  }

  // ----- What the pipeline sends -----

  /** The item is what a step sent: from the pipeline a proxy with one success and no failure,
      alive and first seen when it was found, not yet committed; from the daemon a recheck with
      that outcome. */
  predicate SentBy(step: Step, x: Item) {
    && (step.Enqueue? || step.TakeFallback?)
    && match step.source
       case FromPipeline(key, info, seen) =>
         && x.origin.Fresh? && x.key == key && x.row.info == info
         && PipelineInsert(x.row) && x.row.consecutiveFail == 0 && x.row.uptime == 0.0
         && x.row.lastAlive == x.row.firstSeen == seen && x.row.lastChecked == ZERO_TIME
       case FromDaemon(_, outcome) => x.origin.Reread? && x.origin.outcome == outcome
  }

  /** In every run each accepted item was sent so by one of the steps. */
  lemma {:induction false} ItemsAreSent(t: Table, steps: seq<Step>, x: Item) returns (i: nat)
    requires CanRun(t, steps) && x in Run(t, steps).accepted
    ensures i < |steps| && SentBy(steps[i], x)
  {
    var before, step := steps[..|steps| - 1], steps[|steps| - 1];
    if x in Run(t, before).accepted {
      i := ItemsAreSent(t, before, x);
    } else {
      i := |steps| - 1;
      NewItemIsSent(Run(t, before), step, x);
    }
  }

  lemma NewItemIsSent(s: State, step: Step, x: Item)
    requires Enabled(s, step) && x in After(s, step).accepted && x !in s.accepted
    ensures SentBy(step, x)
  {
  }

  /** In every run a row that the pipeline's proxy `x` inserted counts exactly its alive and its
      dead commits since, in whatever order they were made. */
  lemma FreshRowCounts(t: Table, steps: seq<Step>, k: Key, x: Item)
    requires CanRun(t, steps) && k in Run(t, steps).table
    requires x in Run(t, steps).accepted && x.origin.Fresh?
    requires var h := History(t, Run(t, steps).events, k); h != [] && Binds(Commit(k, h[0]), x)
    ensures var s := Run(t, steps);
      var h := History(t, s.events, k);
      s.table[k].success == CountAlive(h) && s.table[k].failed == |h| - CountAlive(h)
  {
    EveryRunIsSafe(t, steps);
    var h := History(t, Run(t, steps).events, k);
    var i := ItemsAreSent(t, steps, x);
    RowIsItsHistory(t, Run(t, steps).events, k);
    CountAliveSplit(h);
  }

  lemma {:induction false} CountAliveSplit(h: seq<Row>)
    requires h != []
    ensures CountAlive(h) == AliveUnit(h[0]) + CountAlive(h[1..])
  {
    if |h| > 1 {
      var before := h[..|h| - 1];
      CountAliveSplit(before);
      assert h[1..][..|h| - 2] == before[1..];
    } else {
      assert h[..0] == [];
    }
  }

  // ----- Purges -----

  /** `k`'s last `n` commits, the insert not among them, were all dead. */
  ghost predicate FailedLast(t: Table, events: seq<Event>, k: Key, n: nat) {
    var h := History(t, events, k);
    |h| > n && forall i :: |h| - n <= i < |h| ==> !h[i].alive
  }

  lemma PurgeIsDeserved(t: Table, events: seq<Event>, maxFail: nat, cutoff: Time, k: Key)
    requires ConsistentTable(t) && ConsistentEvents(events)
    requires k in Replay(t, events) && k !in Purge(Replay(t, events), maxFail, cutoff)
    requires History(t, events, k) != [] && History(t, events, k)[0].alive
    requires Replay(t, events)[k].consecutiveFail >= maxFail
    ensures FailedLast(t, events, k, maxFail)
  {
    PurgeKeepsAlive(Replay(t, events), maxFail, cutoff, k);
    HistoryIsConsistent(t, events, k);
    PurgedByFailures(t, events, k, maxFail);
  }

  /** A purge never removes an alive row; a row that was inserted alive, and that is over the
      failure bound, has just failed `maxFail` commits in a row; one that is not was last
      alive before the cutoff. */
  lemma PurgeStepIsDeserved(t: Table, steps: seq<Step>, maxFail: nat, cutoff: Time, k: Key)
    requires ConsistentTable(t) && CanRun(t, steps)
    requires k in Run(t, steps).table && k !in Purge(Run(t, steps).table, maxFail, cutoff)
    ensures var s := Run(t, steps);
            && !s.table[k].alive
            && History(t, s.events, k) != []
            && (if s.table[k].consecutiveFail >= maxFail
                then History(t, s.events, k)[0].alive ==> FailedLast(t, s.events, k, maxFail)
                else s.table[k].lastAlive < cutoff)
  {
    EveryRunIsSafe(t, steps);
    var s := Run(t, steps);
    PurgeKeepsAlive(s.table, maxFail, cutoff, k);
    RowIsItsHistory(t, s.events, k);
    EveryRunIsConsistent(t, steps);
    if History(t, s.events, k)[0].alive && s.table[k].consecutiveFail >= maxFail {
      PurgeIsDeserved(t, s.events, maxFail, cutoff, k);
    }
  }

  /** In every reachable state a purge removes a row exactly if it is dead and has failed too often
      in a row or was last alive before the cutoff; what it keeps it leaves as it was. */
  lemma PurgeStepRemovesIff(t: Table, steps: seq<Step>, maxFail: int, cutoff: Time, k: Key)
    requires CanRun(t, steps) && k in Run(t, steps).table
    ensures var s := Run(t, steps);
      var after := After(s, PurgeDead(maxFail, cutoff)).table;
      && (k !in after <==> !s.table[k].alive && (s.table[k].consecutiveFail >= maxFail || s.table[k].lastAlive < cutoff))
      && (k in after ==> after[k] == s.table[k])
  {
    PurgeKeepsAlive(Run(t, steps).table, maxFail, cutoff, k);
  }

  // ----- Two runs that show the conditions above are needed -----

  lemma RunOne(t: Table, steps: seq<Step>, step: Step)
    requires CanRun(t, steps) && Enabled(Run(t, steps), step)
    ensures CanRun(t, steps + [step]) && Run(t, steps + [step]) == After(Run(t, steps), step)
  {
    assert (steps + [step])[..|steps + [step]| - 1] == steps;
  }

  /** A proxy accepted after the committer has returned stays in the channel. */
  lemma LateSendIsStranded(source: Source) returns (steps: seq<Step>)
    requires source.FromPipeline?
    ensures CanRun(map[], steps)
    ensures Run(map[], steps).committer == Returned && !Complete(Run(map[], steps))
  {
    steps := [];
    RunOne(map[], steps, Close);
    steps := steps + [Close];
    RunOne(map[], steps, CommitterSeesClose);
    steps := steps + [CommitterSeesClose];
    RunOne(map[], steps, CommitterSeesEmpty);
    steps := steps + [CommitterSeesEmpty];
    RunOne(map[], steps, Enqueue(source));
    steps := steps + [Enqueue(source)];
    assert |multiset(Run(map[], steps).committed)| == 0 && |multiset(Run(map[], steps).accepted)| == 1;
  }

  /** Once the committer has returned, what is in the channel stays there, whatever else
      happens, unless a Flush call takes it. */
  lemma {:induction false} StrandedForGood(t: Table, steps: seq<Step>, more: seq<Step>)
    requires CanRun(t, steps) && CanRun(t, steps + more)
    requires Run(t, steps).committer == Returned && Run(t, steps).channel != []
    requires forall i :: 0 <= i < |more| ==> !more[i].FlushReceive?
    ensures var s := Run(t, steps + more);
      s.committer == Returned && Run(t, steps).channel <= s.channel && !Complete(s)
    decreases |more|
  {
    EveryRunIsSafe(t, steps + more);
    if more == [] {
      assert steps + more == steps;
    } else {
      var less := more[..|more| - 1];
      assert (steps + more)[..|steps + more| - 1] == steps + less;
      StrandedForGood(t, steps, less);
      ChannelOnlyGrows(Run(t, steps + less), more[|more| - 1]);
    }
    CompleteIff(Run(t, steps + more));
  }

  lemma ChannelOnlyGrows(s: State, step: Step)
    requires s.committer == Returned && Enabled(s, step) && !step.FlushReceive?
    ensures After(s, step).committer == Returned && s.channel <= After(s, step).channel
  {
  }

  /** A Flush can return while an accepted proxy is still in the committer's buffer. */
  lemma FlushMissesTheCommitter(source: Source) returns (steps: seq<Step>)
    requires source.FromPipeline?
    ensures CanRun(map[], steps)
    ensures var s := Run(map[], steps);
            s.flushers == [Finished] && s.channel == [] && !Complete(s)
  {
    steps := [];
    RunOne(map[], steps, Enqueue(source));
    steps := steps + [Enqueue(source)];
    RunOne(map[], steps, CommitterReceive);
    steps := steps + [CommitterReceive];
    RunOne(map[], steps, FlushCall);
    steps := steps + [FlushCall];
    RunOne(map[], steps, FlushSeesEmpty(0));
    steps := steps + [FlushSeesEmpty(0)];
    assert |multiset(Run(map[], steps).committed)| == 0 && |multiset(Run(map[], steps).accepted)| == 1;
  }
}
