/** The store's methods as steps of its protocol: Flush, one turn of the committer and the drain
    after the close, when nothing comes between their steps, are runs of StoreProtocol, so all
    that holds of every run holds of them. */
module StoreRun {
  import opened Rows
  import opened StoreProtocol
  import Store

  /** The upserts that items stand for, before they are stamped. */
  function AsCommits(items: seq<Item>): (commits: seq<Commit>)
    ensures |commits| == |items|
    ensures forall i :: 0 <= i < |items| ==> commits[i] == Commit(items[i].key, items[i].row)
  {
    seq(|items|, i requires 0 <= i < |items| => Commit(items[i].key, items[i].row))
  }

  lemma {:induction false} ReplayIsCommits(t: Table, items: seq<Item>, now: Time)
    ensures Replay(t, UpsertsOf(items, now)) == Commits(t, Store.Stamped(AsCommits(items), now))
  {
    if items != [] {
      var n := |items| - 1;
      ReplayIsCommits(t, items[..n], now);
      assert UpsertsOf(items, now)[..n] == UpsertsOf(items[..n], now);
      assert Store.Stamped(AsCommits(items), now)[..n] == Store.Stamped(AsCommits(items[..n]), now);
    }
  }

  // ----- Going on with a run -----

  /** `whole` goes on from `steps` with steps of one kind only. */
  ghost predicate GoesOn(t: Table, steps: seq<Step>, whole: seq<Step>, kind: Step -> bool) {
    && CanRun(t, whole) && steps <= whole
    && forall k :: |steps| <= k < |whole| ==> kind(whole[k])
  }

  lemma GoOne(t: Table, steps: seq<Step>, step: Step, kind: Step -> bool)
    requires CanRun(t, steps) && Enabled(Run(t, steps), step) && kind(step)
    ensures GoesOn(t, steps, steps + [step], kind)
    ensures Run(t, steps + [step]) == After(Run(t, steps), step)
  {
    assert (steps + [step])[..|steps + [step]| - 1] == steps;
  }

  lemma GoFurther(t: Table, a: seq<Step>, b: seq<Step>, c: seq<Step>, kind: Step -> bool)
    requires GoesOn(t, a, b, kind) && GoesOn(t, b, c, kind)
    ensures GoesOn(t, a, c, kind)
  {
    forall k | |a| <= k < |c| ensures kind(c[k]) {
      assert k < |b| ==> c[k] == b[k];
    }
  }

  /** One more step of the kind. */
  lemma GoNext(t: Table, steps: seq<Step>, mid: seq<Step>, step: Step, kind: Step -> bool) returns (whole: seq<Step>)
    requires GoesOn(t, steps, mid, kind) && Enabled(Run(t, mid), step) && kind(step)
    ensures GoesOn(t, steps, whole, kind) && Run(t, whole) == After(Run(t, mid), step)
  {
    whole := mid + [step];
    GoOne(t, mid, step, kind);
    GoFurther(t, steps, mid, whole, kind);
  }

  // ----- One save, one purge -----

  function OfSave(): Step -> bool {
    (step: Step) => step.Enqueue? || step.TakeFallback? || step.CommitFallback?
  }

  /** The state in which an item is in the fallback, alone at the end. */
  lemma FallbackCommits(s: State, source: Source, now: Time)
    requires HasSource(s, source) && |s.channel| >= CAPACITY
    ensures var mid, x := After(s, TakeFallback(source)), NewItem(s, source);
      && Enabled(mid, CommitFallback(|s.fallbacks|, now))
      && var s' := After(mid, CommitFallback(|s.fallbacks|, now));
         s'.channel == s.channel && s'.fallbacks == s.fallbacks
         && s'.table == Upsert(s.table, Commit(x.key, Stamp(x.row, now)))
  {
    var x := NewItem(s, source);
    assert Without(s.fallbacks + [x], |s.fallbacks|) == s.fallbacks;
    ReplayIsCommits(s.table, [x], now);
    assert Store.Stamped(AsCommits([x]), now) == [Commit(x.key, Stamp(x.row, now))];
    assert [Commit(x.key, Stamp(x.row, now))][..0] == [];
  }

  /** What Store.SaveOrUpdateProxy leaves is what one send leaves, or a fallback and its commit. */
  lemma SaveIsARun(t: Table, steps: seq<Step>, source: Source, now: Time) returns (whole: seq<Step>)
    requires CanRun(t, steps) && HasSource(Run(t, steps), source)
    ensures GoesOn(t, steps, whole, OfSave())
    ensures var s, s', x := Run(t, steps), Run(t, whole), NewItem(Run(t, steps), source);
      if |s.channel| < CAPACITY then s'.channel == s.channel + [x] && s'.table == s.table && s'.fallbacks == s.fallbacks
      else s'.channel == s.channel && s'.fallbacks == s.fallbacks
           && s'.table == Upsert(s.table, Commit(x.key, Stamp(x.row, now)))
  {
    var s := Run(t, steps);
    if |s.channel| < CAPACITY {
      whole := GoNext(t, steps, steps, Enqueue(source), OfSave());
    } else {
      FallbackCommits(s, source, now);
      whole := GoNext(t, steps, steps, TakeFallback(source), OfSave());
      whole := GoNext(t, steps, whole, CommitFallback(|s.fallbacks|, now), OfSave());
    }
  }

  // ----- Flush -----

  /** The steps of Flush call `i`. */
  function OfFlush(i: nat): Step -> bool {
    (step: Step) => step == FlushCall || ((step.FlushReceive? || step.FlushSeesEmpty? || step.FlushCommit?) && step.i == i)
  }

  /** The state when Flush call `i` has emptied the channel. */
  function Collected(s: State, i: nat): State
    requires i < |s.flushers| && s.flushers[i].Collecting?
  {
    s.(channel := [], flushers := s.flushers[i := Collecting(s.flushers[i].buffer + s.channel)])
  }

  lemma CollectedNext(s: State, i: nat)
    requires Enabled(s, FlushReceive(i))
    ensures Collected(After(s, FlushReceive(i)), i) == Collected(s, i)
  {
    var b := s.flushers[i].buffer;
    assert b + [s.channel[0]] + s.channel[1..] == b + s.channel;
  }

  lemma CollectedAll(s: State, i: nat)
    requires i < |s.flushers| && s.flushers[i].Collecting? && s.channel == []
    ensures Collected(s, i) == s
  {
    assert s.flushers[i].buffer + [] == s.flushers[i].buffer;
    assert s.flushers[i := s.flushers[i]] == s.flushers;
  }

  lemma {:induction false} CollectIsARun(t: Table, steps: seq<Step>, i: nat) returns (whole: seq<Step>)
    requires CanRun(t, steps)
    requires i < |Run(t, steps).flushers| && Run(t, steps).flushers[i].Collecting?
    ensures GoesOn(t, steps, whole, OfFlush(i)) && Run(t, whole) == Collected(Run(t, steps), i)
    decreases |Run(t, steps).channel|
  {
    var s := Run(t, steps);
    if s.channel == [] {
      CollectedAll(s, i);
      whole := steps;
    } else {
      var next := GoNext(t, steps, steps, FlushReceive(i), OfFlush(i));
      CollectedNext(s, i);
      whole := CollectIsARun(t, next, i);
      GoFurther(t, steps, next, whole, OfFlush(i));
    }
  }

  /** The state a whole Flush call leaves. */
  function Flushed(s: State, now: Time): State {
    var emptied := s.(channel := [], flushers := s.flushers + [Finished]);
    if s.channel == [] then emptied else Transact(emptied, s.channel, now)
  }

  lemma SealedIsFlushed(s: State, now: Time)
    requires s.channel != []
    ensures var sealed := s.(channel := [], flushers := s.flushers + [Sealed(s.channel)]);
      Enabled(sealed, FlushCommit(|s.flushers|, now)) && After(sealed, FlushCommit(|s.flushers|, now)) == Flushed(s, now)
  {
    assert (s.flushers + [Sealed(s.channel)])[|s.flushers| := Finished] == s.flushers + [Finished];
  }

  lemma EmptySeen(s: State)
    ensures var collected := s.(channel := [], flushers := s.flushers + [Collecting(s.channel)]);
      Enabled(collected, FlushSeesEmpty(|s.flushers|))
      && After(collected, FlushSeesEmpty(|s.flushers|))
         == s.(channel := [], flushers := s.flushers + [if s.channel == [] then Finished else Sealed(s.channel)])
  {
    var sealed := if s.channel == [] then Finished else Sealed(s.channel);
    assert (s.flushers + [Collecting(s.channel)])[|s.flushers| := sealed] == s.flushers + [sealed];
  }

  lemma CalledAndCollected(s: State)
    ensures Collected(After(s, FlushCall), |s.flushers|)
      == s.(channel := [], flushers := s.flushers + [Collecting(s.channel)])
  {
    assert (s.flushers + [Collecting([])])[|s.flushers| := Collecting(s.channel)] == s.flushers + [Collecting(s.channel)];
    assert [] + s.channel == s.channel;
  }

  lemma CallIsARun(t: Table, steps: seq<Step>) returns (whole: seq<Step>)
    requires CanRun(t, steps)
    ensures var s := Run(t, steps);
      GoesOn(t, steps, whole, OfFlush(|s.flushers|))
      && Run(t, whole) == s.(channel := [], flushers := s.flushers + [Collecting(s.channel)])
  {
    var s := Run(t, steps);
    var kind := OfFlush(|s.flushers|);
    CalledAndCollected(s);
    var called := GoNext(t, steps, steps, FlushCall, kind);
    whole := CollectIsARun(t, called, |s.flushers|);
    GoFurther(t, steps, called, whole, kind);
  }

  lemma FlushedTable(s: State, now: Time)
    ensures Flushed(s, now).channel == []
    ensures Flushed(s, now).table == Commits(s.table, Store.Stamped(AsCommits(s.channel), now))
  {
    ReplayIsCommits(s.table, s.channel, now);
  }

  /** What Store.Flush leaves behind is what the steps of one Flush call leave. */
  lemma FlushIsARun(t: Table, steps: seq<Step>, now: Time) returns (whole: seq<Step>)
    requires CanRun(t, steps)
    ensures GoesOn(t, steps, whole, OfFlush(|Run(t, steps).flushers|))
    ensures Run(t, whole) == Flushed(Run(t, steps), now)
    ensures Run(t, whole).channel == []
    ensures Run(t, whole).table == Commits(Run(t, steps).table, Store.Stamped(AsCommits(Run(t, steps).channel), now))
  {
    var s := Run(t, steps);
    var i := |s.flushers|;
    FlushedTable(s, now);
    whole := CallIsARun(t, steps);
    EmptySeen(s);
    whole := GoNext(t, steps, whole, FlushSeesEmpty(i), OfFlush(i));
    if s.channel != [] {
      SealedIsFlushed(s, now);
      whole := GoNext(t, steps, whole, FlushCommit(i, now), OfFlush(i));
    }
  }

  // ----- The committer -----

  function OfCommitter(): Step -> bool {
    (step: Step) => ByCommitter(step)
  }

  /** One turn of the main loop: what Store.Iterate leaves is what at most two steps leave. */
  lemma IterateIsARun(t: Table, steps: seq<Step>, choice: Store.Choice, now: Time) returns (whole: seq<Step>)
    requires CanRun(t, steps)
    requires var s := Run(t, steps); s.committer == Selecting && |s.buffer| < BATCH_SIZE
    requires choice.Receive? ==> Run(t, steps).channel != []
    ensures GoesOn(t, steps, whole, OfCommitter())
    ensures var s, s' := Run(t, steps), Run(t, whole);
      var grown := if choice.Receive? then s.buffer + [s.channel[0]] else s.buffer;
      var commits := if choice.Receive? then |grown| >= BATCH_SIZE else grown != [];
      && s'.channel == (if choice.Receive? then s.channel[1..] else s.channel)
      && s'.buffer == (if commits then [] else grown)
      && s'.table == (if commits then Commits(s.table, Store.Stamped(AsCommits(grown), now)) else s.table)
      && s'.committer == Selecting && s'.accepted == s.accepted && s'.flushers == s.flushers && s'.fallbacks == s.fallbacks
  {
    var s := Run(t, steps);
    var step := if choice.Receive? then CommitterReceive else CommitterTick;
    whole := steps;
    if choice.Receive? || s.buffer != [] {
      whole := GoNext(t, steps, whole, step, OfCommitter());
      var mid := Run(t, whole);
      if mid.committer == Flushing {
        whole := GoNext(t, steps, whole, CommitterFlush(now), OfCommitter());
        ReplayIsCommits(s.table, mid.buffer, now);
      }
    }
  }

  /** The commits of a drain, batch by batch, when `n` batches have been committed. */
  function Batches(commits: seq<Commit>, clock: nat -> Time, n: nat): (log: seq<Commit>)
    ensures |log| == |commits|
  {
    if |commits| < BATCH_SIZE then Store.Stamped(commits, clock(n))
    else Store.Stamped(commits[..BATCH_SIZE], clock(n)) + Batches(commits[BATCH_SIZE..], clock, n + 1)
  }

  lemma {:induction false} BatchesAt(commits: seq<Commit>, clock: nat -> Time, n: nat, i: nat)
    requires i < |commits|
    ensures Batches(commits, clock, n)[i] == Commit(commits[i].key, Stamp(commits[i].row, clock(n + i / BATCH_SIZE)))
    decreases |commits|
  {
    if |commits| >= BATCH_SIZE {
      var rest := commits[BATCH_SIZE..];
      if rest != [] { BatchesAt(rest, clock, n + 1, if i < BATCH_SIZE then 0 else i - BATCH_SIZE); }
      assert i >= BATCH_SIZE ==> (i - BATCH_SIZE) / BATCH_SIZE == i / BATCH_SIZE - 1;
    }
  }

  lemma BatchesAreBatched(commits: seq<Commit>, clock: nat -> Time)
    ensures Batches(commits, clock, 0) == Store.Batched(commits, clock)
  {
    forall i | 0 <= i < |commits|
      ensures Batches(commits, clock, 0)[i] == Store.Batched(commits, clock)[i]
    {
      BatchesAt(commits, clock, 0, i);
    }
  }

  /** A full batch, then the rest. */
  lemma BatchesSplit(full: seq<Item>, rest: seq<Item>, clock: nat -> Time, n: nat)
    requires |full| == BATCH_SIZE
    ensures Batches(AsCommits(full + rest), clock, n)
      == Store.Stamped(AsCommits(full), clock(n)) + Batches(AsCommits(rest), clock, n + 1)
  {
    var commits := AsCommits(full + rest);
    assert commits[..BATCH_SIZE] == AsCommits(full);
    assert commits[BATCH_SIZE..] == AsCommits(rest);
  }

  /** `after` is `s` with everything in the committer's hands and in the channel committed by `log`. */
  ghost predicate Drained(s: State, after: State, log: seq<Commit>) {
    && after.channel == [] && after.buffer == [] && after.committer == Returned
    && after.table == Commits(s.table, log)
    && after.accepted == s.accepted && after.flushers == s.flushers && after.fallbacks == s.fallbacks
  }

  /** The state after a full batch is received and committed. */
  lemma BatchSteps(s: State, now: Time)
    requires s.committer == Draining && |s.buffer| == BATCH_SIZE - 1 && s.channel != []
    ensures Enabled(s, CommitterReceive) && Enabled(After(s, CommitterReceive), CommitterFlush(now))
    ensures var s' := After(After(s, CommitterReceive), CommitterFlush(now));
      && s'.committer == Draining && s'.buffer == [] && s'.channel == s.channel[1..]
      && s'.table == Commits(s.table, Store.Stamped(AsCommits(s.buffer + [s.channel[0]]), now))
      && s'.accepted == s.accepted && s'.flushers == s.flushers && s'.fallbacks == s.fallbacks
  {
    ReplayIsCommits(s.table, s.buffer + [s.channel[0]], now);
  }

  /** What is drained after a full batch is drained with it. */
  lemma DrainedByBatch(s: State, mid: State, full: seq<Item>, clock: nat -> Time, n: nat, after: State)
    requires |full| == BATCH_SIZE && full + mid.channel == s.buffer + s.channel
    requires mid.table == Commits(s.table, Store.Stamped(AsCommits(full), clock(n)))
    requires mid.accepted == s.accepted && mid.flushers == s.flushers && mid.fallbacks == s.fallbacks
    requires Drained(mid, after, Batches(AsCommits(mid.channel), clock, n + 1))
    ensures Drained(s, after, Batches(AsCommits(s.buffer + s.channel), clock, n))
  {
    BatchesSplit(full, mid.channel, clock, n);
    CommitsSplit(s.table, Store.Stamped(AsCommits(full), clock(n)), Batches(AsCommits(mid.channel), clock, n + 1));
  }

  lemma HeadMoved<T>(a: seq<T>, b: seq<T>)
    requires b != []
    ensures a + [b[0]] + b[1..] == a + b
    ensures [] + b == b
  {
  }

  lemma DrainedByReceive(s: State)
    requires s.committer == Draining && |s.buffer| < BATCH_SIZE - 1 && s.channel != []
    ensures Enabled(s, CommitterReceive)
    ensures var s' := After(s, CommitterReceive);
      && s'.committer == Draining && |s'.buffer| < BATCH_SIZE && s'.channel == s.channel[1..]
      && s'.buffer + s'.channel == s.buffer + s.channel && s'.table == s.table
      && s'.accepted == s.accepted && s'.flushers == s.flushers && s'.fallbacks == s.fallbacks
  {
    HeadMoved(s.buffer, s.channel);
  }

  lemma DrainedAtEnd(s: State, clock: nat -> Time, n: nat)
    requires s.committer == Draining && |s.buffer| < BATCH_SIZE && s.channel == []
    ensures Enabled(s, CommitterSeesEmpty)
    ensures var s' := After(s, CommitterSeesEmpty);
      var log := Batches(AsCommits(s.buffer + s.channel), clock, n);
      if s.buffer == [] then Drained(s, s', log)
      else Enabled(s', CommitterFlush(clock(n))) && Drained(s, After(s', CommitterFlush(clock(n))), log)
  {
    assert s.buffer + s.channel == s.buffer;
    ReplayIsCommits(s.table, s.buffer, clock(n));
  }

  lemma {:induction false} DrainGoesOn(t: Table, steps: seq<Step>, clock: nat -> Time, n: nat) returns (whole: seq<Step>)
    requires CanRun(t, steps)
    requires Run(t, steps).committer == Draining && |Run(t, steps).buffer| < BATCH_SIZE
    ensures GoesOn(t, steps, whole, OfCommitter())
    ensures var s := Run(t, steps); Drained(s, Run(t, whole), Batches(AsCommits(s.buffer + s.channel), clock, n))
    decreases |Run(t, steps).channel|
  {
    var s, kind := Run(t, steps), OfCommitter();
    if s.channel == [] {
      DrainedAtEnd(s, clock, n);
      whole := GoNext(t, steps, steps, CommitterSeesEmpty, kind);
      if s.buffer != [] { whole := GoNext(t, steps, whole, CommitterFlush(clock(n)), kind); }
    } else if |s.buffer| < BATCH_SIZE - 1 {
      DrainedByReceive(s);
      var next := GoNext(t, steps, steps, CommitterReceive, kind);
      whole := DrainGoesOn(t, next, clock, n);
      GoFurther(t, steps, next, whole, kind);
    } else {
      BatchSteps(s, clock(n));
      var next := GoNext(t, steps, steps, CommitterReceive, kind);
      next := GoNext(t, steps, next, CommitterFlush(clock(n)), kind);
      whole := DrainGoesOn(t, next, clock, n + 1);
      HeadMoved(s.buffer, s.channel);
      var mid := Run(t, next);
      assert mid.buffer + mid.channel == mid.channel;
      DrainedByBatch(s, mid, s.buffer + [s.channel[0]], clock, n, Run(t, whole));
      GoFurther(t, steps, next, whole, kind);
    }
  }

  /** What Store.Drain leaves behind is what the committer's steps leave, from the moment it has
      seen the close until it returns. */
  lemma DrainIsARun(t: Table, steps: seq<Step>, clock: nat -> Time) returns (whole: seq<Step>)
    requires CanRun(t, steps)
    requires Run(t, steps).committer == Draining && |Run(t, steps).buffer| < BATCH_SIZE
    ensures GoesOn(t, steps, whole, OfCommitter())
    ensures var s := Run(t, steps);
      Drained(s, Run(t, whole), Store.Batched(AsCommits(s.buffer + s.channel), clock))
  {
    whole := DrainGoesOn(t, steps, clock, 0);
    BatchesAreBatched(AsCommits(Run(t, steps).buffer + Run(t, steps).channel), clock);
  }
}
