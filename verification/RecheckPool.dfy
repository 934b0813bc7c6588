/** One recheck cycle of pkg/daemon/daemon.go: a feeder, a closed channel as large as
    the list, a pool of workers that may be cancelled, and the tallies they share. */
module RecheckPool {
  import Rows
  import Store
  import StoreProtocol

  // ----- What a worker does to a proxy -----

  /** The body of the worker's loop: the verdict is written on the proxy, which is
      then handed to the store. */
  method Recheck(p: Store.Proxy, outcome: StoreProtocol.Outcome, store: Store.SQLiteStore, now: Rows.Time)
    modifies p, store
    ensures match outcome
      case Succeeded(latencyMs, anonymity, _, score) =>
        p.isAlive && p.consecutiveFail == 0
        && p.info == old(p.info).(latencyMs := latencyMs, anonymity := anonymity, score := score)
      case Failed(score) =>
        !p.isAlive && p.consecutiveFail == old(p.consecutiveFail) + 1 && p.info == old(p.info).(score := score)
    ensures p.success == old(p.success) && p.failed == old(p.failed) && p.uptime == old(p.uptime)
    ensures |old(store.batchChan)| < Rows.CAPACITY ==>
      p.lastAlive == (if outcome.Succeeded? then outcome.at else old(p.lastAlive))
      && p.lastChecked == old(p.lastChecked) && p.firstSeen == old(p.firstSeen)
    ensures |old(store.batchChan)| >= Rows.CAPACITY ==>
      p.key in store.table
      && StoreProtocol.OutcomeIn(store.table[p.key], old(p.Value()), outcome)
      && store.table[p.key].lastChecked == now
      && (outcome.Succeeded? ==> store.table[p.key].lastAlive == now)
    ensures |old(store.batchChan)| < Rows.CAPACITY ==>
              && p.Value() == StoreProtocol.Rechecked(old(p.Value()), outcome)
              && store.batchChan == old(store.batchChan) + [p] && store.table == old(store.table)
    ensures |old(store.batchChan)| >= Rows.CAPACITY ==>
              && store.batchChan == old(store.batchChan)
              && store.table == Rows.Upsert(old(store.table), Rows.Commit(p.key,
                   Rows.Stamp(StoreProtocol.Rechecked(old(p.Value()), outcome), now)))
  {
    match outcome {
      case Succeeded(latencyMs, anonymity, at, score) =>
        p.isAlive := true;
        p.info := p.info.(latencyMs := latencyMs, anonymity := anonymity, score := score);
        p.lastAlive := at;
        p.consecutiveFail := 0;
      case Failed(score) =>
        p.isAlive := false;
        p.consecutiveFail := p.consecutiveFail + 1;
        p.info := p.info.(score := score);
    }
    assert p.Value() == StoreProtocol.Rechecked(old(p.Value()), outcome);
    store.SaveOrUpdateProxy(p, now);
  }

  // ----- The pool -----

  /** A worker: at the receive, holding a proxy it has not looked at, tallying a verdict
      it has reached, or gone. */
  datatype Worker = Waiting | Holding(job: nat) | Tallying(job: nat, success: bool) | Gone

  datatype Verdict = Verdict(job: nat, success: bool)

  /** The proxies are numbered by their place in the list. */
  datatype State = State(
    total: nat,
    fed: nat,               // how many have been sent
    channel: seq<nat>,
    closed: bool,
    workers: seq<Worker>,
    handled: seq<Verdict>,  // verdicts tallied
    dropped: seq<nat>,      // received by a worker that then saw the cancellation
    aliveList: seq<nat>,
    aliveCount: nat,
    deadCount: nat,
    cancelled: bool)

  datatype Step =
    | Feed
    | CloseJobs
    | Receive(w: nat)
    | SeeClosed(w: nat)            // the channel is closed and empty: the loop ends
    | Drop(w: nat)                 // ctx.Done() is seen after the receive
    | Check(w: nat, success: bool)
    | Tally(w: nat)
    | Cancel

  predicate Enabled(s: State, step: Step) {
    match step
    case Feed => s.fed < s.total && |s.channel| < s.total
    case CloseJobs => s.fed == s.total && !s.closed
    case Receive(w) => w < |s.workers| && s.workers[w].Waiting? && s.channel != []
    case SeeClosed(w) => w < |s.workers| && s.workers[w].Waiting? && s.channel == [] && s.closed
    case Drop(w) => w < |s.workers| && s.workers[w].Holding? && s.cancelled
    case Check(w, _) => w < |s.workers| && s.workers[w].Holding?
    case Tally(w) => w < |s.workers| && s.workers[w].Tallying?
    case Cancel => !s.cancelled
  }

  function After(s: State, step: Step): State
    requires Enabled(s, step)
  {
    match step
    case Feed => s.(fed := s.fed + 1, channel := s.channel + [s.fed])
    case CloseJobs => s.(closed := true)
    case Receive(w) => s.(channel := s.channel[1..], workers := s.workers[w := Holding(s.channel[0])])
    case SeeClosed(w) => s.(workers := s.workers[w := Gone])
    case Drop(w) => s.(workers := s.workers[w := Gone], dropped := s.dropped + [s.workers[w].job])
    case Check(w, success) => s.(workers := s.workers[w := Tallying(s.workers[w].job, success)])
    case Tally(w) =>
      var job, success := s.workers[w].job, s.workers[w].success;
      s.(workers := s.workers[w := Waiting],
         handled := s.handled + [Verdict(job, success)],
         aliveList := if success then s.aliveList + [job] else s.aliveList,
         aliveCount := s.aliveCount + if success then 1 else 0,
         deadCount := s.deadCount + if success then 0 else 1)
    case Cancel => s.(cancelled := true)
  }

  /** How many workers a cycle starts. */
  function PoolSize(configured: nat, total: nat): nat {
    if configured > total then total else configured
  }

  function Start(configured: nat, total: nat): State {
    State(total, 0, [], false, seq(PoolSize(configured, total), _ => Waiting), [], [], [], 0, 0, false)
  }

  predicate CanRun(configured: nat, total: nat, steps: seq<Step>)
    decreases |steps|, 0
  {
    steps == [] ||
    (CanRun(configured, total, steps[..|steps| - 1])
     && Enabled(Run(configured, total, steps[..|steps| - 1]), steps[|steps| - 1]))
  }

  function Run(configured: nat, total: nat, steps: seq<Step>): State
    requires CanRun(configured, total, steps)
    decreases |steps|, 1
  {
    if steps == [] then Start(configured, total)
    else After(Run(configured, total, steps[..|steps| - 1]), steps[|steps| - 1])
  }

  // ----- Counting -----

  function Count(jobs: seq<nat>, x: nat): nat {
    multiset(jobs)[x]
  }

  predicate Has(w: Worker, x: nat) {
    (w.Holding? || w.Tallying?) && w.job == x
  }

  /** How many workers have job `x` in hand. */
  function InHands(workers: seq<Worker>, x: nat): nat {
    if workers == [] then 0
    else InHands(workers[..|workers| - 1], x) + if Has(workers[|workers| - 1], x) then 1 else 0
  }

  lemma {:induction false} HandReplaced(workers: seq<Worker>, w: nat, now: Worker, x: nat)
    requires w < |workers|
    ensures InHands(workers[w := now], x) + (if Has(workers[w], x) then 1 else 0)
         == InHands(workers, x) + (if Has(now, x) then 1 else 0)
  {
    var n := |workers| - 1;
    if w < n {
      HandReplaced(workers[..n], w, now, x);
      assert workers[w := now][..n] == workers[..n][w := now];
    } else {
      assert workers[w := now][..n] == workers[..n];
    }
  }

  lemma {:induction false} NoHands(n: nat, x: nat)
    ensures InHands(seq(n, _ => Waiting), x) == 0
  {
    if n > 0 {
      var all: seq<Worker> := seq(n, _ => Waiting);
      assert all[..n - 1] == seq(n - 1, _ => Waiting);
      NoHands(n - 1, x);
    }
  }

  /** How often a verdict on `x` was tallied. */
  function Times(handled: seq<Verdict>, x: nat): nat {
    if handled == [] then 0
    else Times(handled[..|handled| - 1], x) + if handled[|handled| - 1].job == x then 1 else 0
  }

  /** The proxies found alive, in the order they were tallied. */
  function Successes(handled: seq<Verdict>): seq<nat> {
    if handled == [] then []
    else
      var v := handled[|handled| - 1];
      Successes(handled[..|handled| - 1]) + if v.success then [v.job] else []
  }

  /** In how many places proxy `x` is. */
  function Places(s: State, x: nat): nat {
    Count(s.channel, x) + InHands(s.workers, x) + Times(s.handled, x) + Count(s.dropped, x)
  }

  /** A sum over the workers. */
  function Total(workers: seq<Worker>, load: Worker -> nat): nat {
    if workers == [] then 0 else Total(workers[..|workers| - 1], load) + load(workers[|workers| - 1])
  }

  lemma {:induction false} LoadReplaced(workers: seq<Worker>, w: nat, now: Worker, load: Worker -> nat)
    requires w < |workers|
    ensures Total(workers[w := now], load) + load(workers[w]) == Total(workers, load) + load(now)
  {
    var n := |workers| - 1;
    if w < n {
      LoadReplaced(workers[..n], w, now, load);
      assert workers[w := now][..n] == workers[..n][w := now];
    } else {
      assert workers[w := now][..n] == workers[..n];
    }
  }

  lemma {:induction false} LoadAtStart(n: nat, load: Worker -> nat)
    ensures Total(seq(n, _ => Waiting), load) == n * load(Waiting)
  {
    if n > 0 {
      var all: seq<Worker> := seq(n, _ => Waiting);
      assert all[..n - 1] == seq(n - 1, _ => Waiting);
      LoadAtStart(n - 1, load);
    }
  }

  /** 1 for a worker with a proxy in hand. */
  function Busy(): Worker -> nat {
    (w: Worker) => if w.Holding? || w.Tallying? then 1 else 0
  }

  /** 1 for a worker that has gone. */
  function Gone1(): Worker -> nat {
    (w: Worker) => if w.Gone? then 1 else 0
  }

  /** Steps a worker can still take with what it has. */
  function Left(): Worker -> nat {
    (w: Worker) => match w case Waiting => 1 case Holding(_) => 3 case Tallying(_, _) => 2 case Gone => 0
  }

  ghost predicate AllGone(workers: seq<Worker>) {
    forall w :: 0 <= w < |workers| ==> workers[w] == Gone
  }

  lemma {:induction false} GoneCount(workers: seq<Worker>)
    ensures Total(workers, Gone1()) <= |workers|
    ensures AllGone(workers) ==> Total(workers, Gone1()) == |workers| && Total(workers, Busy()) == 0
  {
    if workers != [] {
      GoneCount(workers[..|workers| - 1]);
    }
  }

  /** Each proxy fed is in one place. */
  ghost predicate InPlace(s: State) {
    forall x: nat :: Places(s, x) == if x < s.fed then 1 else 0
  }

  /** The tallies, and what the closed channel and the cancellation say of the workers. */
  ghost predicate Flows(s: State) {
    && s.fed == |s.channel| + Total(s.workers, Busy()) + |s.handled| + |s.dropped|
    && s.fed <= s.total
    && (s.closed ==> s.fed == s.total)
    && s.aliveList == Successes(s.handled)
    && s.aliveCount == |s.aliveList| && s.aliveCount + s.deadCount == |s.handled|
    && |s.dropped| <= Total(s.workers, Gone1())
    && (!s.cancelled ==> s.dropped == [])
    && (!s.cancelled && Total(s.workers, Gone1()) > 0 ==> s.closed && s.channel == [])
  }

  ghost predicate Inv(s: State) {
    InPlace(s) && Flows(s)
  }

  lemma PlacesByReceive(s: State, w: nat, x: nat)
    requires Enabled(s, Receive(w))
    ensures Places(After(s, Receive(w)), x) == Places(s, x)
  {
    HandReplaced(s.workers, w, After(s, Receive(w)).workers[w], x);
    assert s.channel == [s.channel[0]] + s.channel[1..];
  }

  lemma PlacesByTally(s: State, w: nat, x: nat)
    requires Enabled(s, Tally(w))
    ensures Places(After(s, Tally(w)), x) == Places(s, x)
  {
    var s' := After(s, Tally(w));
    HandReplaced(s.workers, w, s'.workers[w], x);
    assert s'.handled[..|s.handled|] == s.handled;
  }

  lemma PlacesByStep(s: State, step: Step, x: nat)
    requires Enabled(s, step)
    ensures Places(After(s, step), x) == Places(s, x) + if step == Feed && x == s.fed then 1 else 0
  {
    var s' := After(s, step);
    match step
    case Receive(w) => PlacesByReceive(s, w, x);
    case SeeClosed(w) => HandReplaced(s.workers, w, s'.workers[w], x);
    case Drop(w) => HandReplaced(s.workers, w, s'.workers[w], x);
    case Check(w, _) => HandReplaced(s.workers, w, s'.workers[w], x);
    case Tally(w) => PlacesByTally(s, w, x);
    case _ =>
  }

  lemma TalliesByStep(s: State, w: nat)
    requires Enabled(s, Tally(w)) && s.aliveList == Successes(s.handled)
    ensures After(s, Tally(w)).aliveList == Successes(After(s, Tally(w)).handled)
  {
    assert After(s, Tally(w)).handled[..|s.handled|] == s.handled;
  }

  lemma FlowsByTally(s: State, w: nat)
    requires Flows(s) && Enabled(s, Tally(w))
    ensures Flows(After(s, Tally(w)))
  {
    var s' := After(s, Tally(w));
    LoadReplaced(s.workers, w, s'.workers[w], Busy());
    LoadReplaced(s.workers, w, s'.workers[w], Gone1());
    TalliesByStep(s, w);
  }

  lemma FlowsByWorker(s: State, step: Step, w: nat)
    requires Flows(s) && Enabled(s, step)
    requires step in {Receive(w), SeeClosed(w), Drop(w)} || (step.Check? && step.w == w)
    ensures Flows(After(s, step))
  {
    var s' := After(s, step);
    LoadReplaced(s.workers, w, s'.workers[w], Busy());
    LoadReplaced(s.workers, w, s'.workers[w], Gone1());
  }

  lemma FlowsByStep(s: State, step: Step)
    requires Flows(s) && Enabled(s, step)
    ensures Flows(After(s, step))
  {
    match step
    case Receive(w) => FlowsByWorker(s, step, w);
    case SeeClosed(w) => FlowsByWorker(s, step, w);
    case Drop(w) => FlowsByWorker(s, step, w);
    case Check(w, _) => FlowsByWorker(s, step, w);
    case Tally(w) => FlowsByTally(s, w);
    case _ =>
  }

  lemma InPlaceByStep(s: State, step: Step)
    requires InPlace(s) && Enabled(s, step)
    ensures InPlace(After(s, step))
  {
    forall x: nat ensures Places(After(s, step), x) == if x < After(s, step).fed then 1 else 0 {
      PlacesByStep(s, step, x);
    }
  }

  lemma InvByStep(s: State, step: Step)
    requires Inv(s) && Enabled(s, step)
    ensures Inv(After(s, step))
  {
    InPlaceByStep(s, step);
    FlowsByStep(s, step);
  }

  /** The invariant holds in every schedule. */
  lemma {:induction false} EveryRunIsSafe(configured: nat, total: nat, steps: seq<Step>)
    requires CanRun(configured, total, steps)
    ensures Inv(Run(configured, total, steps))
    ensures |Run(configured, total, steps).workers| == PoolSize(configured, total)
    ensures PoolSize(configured, total) <= configured && PoolSize(configured, total) <= total
    ensures PoolSize(configured, total) in {configured, total}
    ensures Run(configured, total, steps).total == total
    decreases |steps|
  {
    if steps == [] {
      StartInv(configured, total);
    } else {
      EveryRunIsSafe(configured, total, steps[..|steps| - 1]);
      InvByStep(Run(configured, total, steps[..|steps| - 1]), steps[|steps| - 1]);
    }
  }

  lemma StartInv(configured: nat, total: nat)
    ensures Inv(Start(configured, total))
  {
    forall x: nat ensures Places(Start(configured, total), x) == 0 {
      NoHands(PoolSize(configured, total), x);
    }
    LoadAtStart(PoolSize(configured, total), Busy());
    LoadAtStart(PoolSize(configured, total), Gone1());
  }

  // ----- Results -----

  /** In every schedule each fed proxy is in exactly one place; the alive list is the
      successes tallied, once each, and the counts are its length and the rest. */
  lemma TalliesAreExact(configured: nat, total: nat, steps: seq<Step>, x: nat)
    requires CanRun(configured, total, steps)
    ensures var s := Run(configured, total, steps);
            && Places(s, x) == (if x < s.fed then 1 else 0)
            && s.aliveList == Successes(s.handled) && Count(s.aliveList, x) <= 1
            && (x in s.aliveList <==> Verdict(x, true) in s.handled)
            && s.aliveCount == |s.aliveList| && s.deadCount == |s.handled| - |s.aliveList|
  {
    EveryRunIsSafe(configured, total, steps);
    var s := Run(configured, total, steps);
    SuccessesAreHandled(s.handled, x);
    assert Places(s, x) == if x < s.fed then 1 else 0;
  }

  lemma {:induction false} SuccessesAreHandled(handled: seq<Verdict>, x: nat)
    ensures Count(Successes(handled), x) <= Times(handled, x)
    ensures x in Successes(handled) <==> Verdict(x, true) in handled
  {
    if handled != [] {
      SuccessesAreHandled(handled[..|handled| - 1], x);
    }
  }

  /** The feeder never waits: as long as something is left to feed there is room. */
  lemma FeedingNeverBlocks(configured: nat, total: nat, steps: seq<Step>)
    requires CanRun(configured, total, steps) && Run(configured, total, steps).fed < total
    ensures Enabled(Run(configured, total, steps), Feed)
  {
    EveryRunIsSafe(configured, total, steps);
  }

  /** What the cycle waits for: the channel closed and every worker gone. */
  ghost predicate Over(s: State) {
    s.closed && AllGone(s.workers)
  }

  /** The most steps that can still be taken. */
  function Work(s: State): nat
    requires s.fed <= s.total
  {
    4 * (s.total - s.fed) + 3 * |s.channel| + Total(s.workers, Left())
    + (if s.closed then 0 else 1) + (if s.cancelled then 0 else 1)
  }

  lemma WorkShrinks(s: State, step: Step)
    requires Inv(s) && Enabled(s, step)
    ensures After(s, step).fed <= After(s, step).total && Work(After(s, step)) < Work(s)
  {
    var s' := After(s, step);
    match step
    case Receive(w) => LoadReplaced(s.workers, w, s'.workers[w], Left());
    case SeeClosed(w) => LoadReplaced(s.workers, w, s'.workers[w], Left());
    case Drop(w) => LoadReplaced(s.workers, w, s'.workers[w], Left());
    case Check(w, _) => LoadReplaced(s.workers, w, s'.workers[w], Left());
    case Tally(w) => LoadReplaced(s.workers, w, s'.workers[w], Left());
    case _ =>
  }

  /** No schedule takes more than 4n + 2 steps beyond one per worker. */
  lemma {:induction false} EveryRunEnds(configured: nat, total: nat, steps: seq<Step>)
    requires CanRun(configured, total, steps)
    ensures var s := Run(configured, total, steps);
            s.fed <= s.total && |steps| + Work(s) <= 4 * total + PoolSize(configured, total) + 2
    decreases |steps|
  {
    if steps == [] {
      LoadAtStart(PoolSize(configured, total), Left());
    } else {
      var before := steps[..|steps| - 1];
      EveryRunEnds(configured, total, before);
      EveryRunIsSafe(configured, total, before);
      WorkShrinks(Run(configured, total, before), steps[|steps| - 1]);
    }
  }

  /** No schedule gets stuck before the cycle is over, cancelled or not. */
  lemma NeverStuck(configured: nat, total: nat, steps: seq<Step>) returns (step: Step)
    requires CanRun(configured, total, steps) && !Over(Run(configured, total, steps))
    ensures Enabled(Run(configured, total, steps), step) && step != Cancel
  {
    EveryRunIsSafe(configured, total, steps);
    step := NextStep(Run(configured, total, steps));
  }

  lemma NextStep(s: State) returns (step: Step)
    requires Flows(s) && !Over(s)
    ensures Enabled(s, step) && step != Cancel
  {
    if s.fed < s.total {
      step := Feed;
    } else if !s.closed {
      step := CloseJobs;
    } else {
      var w :| 0 <= w < |s.workers| && s.workers[w] != Gone;
      step := match s.workers[w]
        case Waiting => if s.channel != [] then Receive(w) else SeeClosed(w)
        case Holding(_) => Check(w, true)
        case Tallying(_, _) => Tally(w);
    }
  }

  /** How often worker `w` gave up a proxy it had received. */
  function DropsBy(steps: seq<Step>, w: nat): nat {
    if steps == [] then 0
    else DropsBy(steps[..|steps| - 1], w) + if steps[|steps| - 1] == Drop(w) then 1 else 0
  }

  lemma {:induction false} GoneDroppedOnce(configured: nat, total: nat, steps: seq<Step>, w: nat)
    requires CanRun(configured, total, steps)
    ensures var workers := Run(configured, total, steps).workers;
      DropsBy(steps, w) <= if w < |workers| && workers[w].Gone? then 1 else 0
    decreases |steps|
  {
    if steps != [] {
      GoneDroppedOnce(configured, total, steps[..|steps| - 1], w);
      GoneStays(Run(configured, total, steps[..|steps| - 1]), steps[|steps| - 1], w);
    }
  }

  lemma GoneStays(s: State, step: Step, w: nat)
    requires Enabled(s, step)
    ensures |After(s, step).workers| == |s.workers|
    ensures w < |s.workers| && s.workers[w].Gone? ==> step != Drop(w) && After(s, step).workers[w].Gone?
    ensures step == Drop(w) ==> w < |s.workers| && After(s, step).workers[w].Gone?
  {
  }

  /** When the cycle is over: every proxy was handled, dropped, or is still queued; each
      worker dropped at most one; and without a cancellation all were handled. */
  lemma CycleResult(configured: nat, total: nat, steps: seq<Step>)
    requires CanRun(configured, total, steps) && Over(Run(configured, total, steps))
    ensures var s := Run(configured, total, steps);
            && |s.handled| + |s.dropped| + |s.channel| == total
            && |s.dropped| <= |s.workers| && (forall w: nat :: DropsBy(steps, w) <= 1)
            && (!s.cancelled && configured > 0 && total > 0 ==> s.aliveCount + s.deadCount == total)
  {
    EveryRunIsSafe(configured, total, steps);
    GoneCount(Run(configured, total, steps).workers);
    forall w: nat ensures DropsBy(steps, w) <= 1 {
      GoneDroppedOnce(configured, total, steps, w);
    }
  }
}
