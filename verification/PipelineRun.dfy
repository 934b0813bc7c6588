/** The pipeline's goroutines as a step system: one ingester, any number of workers, a
    bounded queue, cancellation, and counters that are bumped one at a time.  The
    dashboard reads those counters without any lock. */
module PipelineRun {

  /** The parts of a check result that the counters look at. */
  datatype Result = Result(success: bool, protocol: Protocol, anonymity: Anonymity, country: string)

  datatype Protocol = HTTP | HTTPS | SOCKS4 | SOCKS4A | SOCKS5 | OtherProtocol

  datatype Anonymity = Elite | Anonymous | Transparent | UnknownAnonymity

  /** What CheckIPPort guarantees of a success. */
  predicate WellFormed(r: Result) {
    r.success ==> r.protocol != OtherProtocol && r.anonymity != UnknownAnonymity && r.country != ""
  }

  /** How far a RecordResult call has come. */
  datatype Stage = Scanned | Classified | WithProtocol | WithAnonymity

  /** A worker: at its select, checking a job, inside RecordResult, saving, or gone. */
  datatype Worker =
    | Idle
    | Checking(job: nat)
    | Recording(job: nat, result: Result, stage: Stage)
    | Saving(job: nat)
    | Exited

  /** The ingester: reading, or with one counted job still to push, or gone with it. */
  datatype Ingester = Reading | Pushing(job: nat) | Stopped | Abandoned(job: nat)

  datatype Counters = Counters(
    queued: nat, scanned: nat, alive: nat, dead: nat,
    http: nat, https: nat, socks4: nat, socks5: nat,
    elite: nat, anonymous: nat, transparent: nat,
    countries: map<string, nat>)

  /** Jobs are numbered in the order they are counted. */
  datatype State = State(
    stats: Counters, ingester: Ingester, channel: seq<nat>, workers: seq<Worker>,
    done: seq<nat>,        // jobs whose scan has been counted, in that order
    cancelled: bool)

  datatype Step =
    | CountJob                      // IncQueued
    | Push                          // the send is chosen
    | GiveUpPush                    // ctx.Done() is chosen instead
    | StopReading                   // end of input, or the check at the top of the loop
    | ReadAgain                     // the next round of --loop
    | Receive(w: nat)
    | Finish(w: nat, result: Result)  // CheckIPPort returns; RecordResult counts the scan
    | Record(w: nat)                // the next counter of RecordResult
    | Save(w: nat)                  // files and store, then back to the select
    | SeeCancel(w: nat)
    | Cancel

  function NoCounts(): Counters {
    Counters(0, 0, 0, 0, 0, 0, 0, 0, 0, 0, 0, map[])
  }

  function CountOf(countries: map<string, nat>, code: string): nat {
    if code in countries then countries[code] else 0
  }

  // ----- RecordResult, one counter at a time -----

  function ProtocolCounted(c: Counters, p: Protocol): Counters {
    match p
    case HTTP => c.(http := c.http + 1)
    case HTTPS => c.(https := c.https + 1)
    case SOCKS4 => c.(socks4 := c.socks4 + 1)
    case SOCKS4A => c.(socks4 := c.socks4 + 1)
    case SOCKS5 => c.(socks5 := c.socks5 + 1)
    case OtherProtocol => c
  }

  function AnonymityCounted(c: Counters, a: Anonymity): Counters {
    match a
    case Elite => c.(elite := c.elite + 1)
    case Anonymous => c.(anonymous := c.anonymous + 1)
    case Transparent => c.(transparent := c.transparent + 1)
    case UnknownAnonymity => c
  }

  function CountryCounted(c: Counters, code: string): Counters {
    if code == "" then c else c.(countries := c.countries[code := CountOf(c.countries, code) + 1])
  }

  /** What the call does to the counters at a stage. */
  function CountedAt(c: Counters, r: Result, stage: Stage): Counters {
    match stage
    case Scanned => if r.success then c.(alive := c.alive + 1) else c.(dead := c.dead + 1)
    case Classified => ProtocolCounted(c, r.protocol)
    case WithProtocol => AnonymityCounted(c, r.anonymity)
    case WithAnonymity => CountryCounted(c, r.country)
  }

  /** Where the worker stands after that. */
  function NextWorker(job: nat, r: Result, stage: Stage): Worker {
    match stage
    case Scanned => if r.success then Recording(job, r, Classified) else Idle
    case Classified => Recording(job, r, WithProtocol)
    case WithProtocol => Recording(job, r, WithAnonymity)
    case WithAnonymity => Saving(job)
  }

  predicate Enabled(s: State, step: Step, capacity: nat) {
    match step
    case CountJob => s.ingester == Reading
    case Push => s.ingester.Pushing? && |s.channel| < capacity
    case GiveUpPush => s.ingester.Pushing? && s.cancelled
    case StopReading => s.ingester == Reading
    case ReadAgain => s.ingester == Stopped
    case Receive(w) => w < |s.workers| && s.workers[w] == Idle && s.channel != []
    case Finish(w, result) => w < |s.workers| && s.workers[w].Checking? && WellFormed(result)
    case Record(w) => w < |s.workers| && s.workers[w].Recording?
    case Save(w) => w < |s.workers| && s.workers[w].Saving?
    case SeeCancel(w) => w < |s.workers| && s.workers[w] == Idle && s.cancelled
    case Cancel => true
  }

  function After(s: State, step: Step, capacity: nat): State
    requires Enabled(s, step, capacity)
  {
    match step
    case CountJob => s.(stats := s.stats.(queued := s.stats.queued + 1), ingester := Pushing(s.stats.queued))
    case Push => s.(channel := s.channel + [s.ingester.job], ingester := Reading)
    case GiveUpPush => s.(ingester := Abandoned(s.ingester.job))
    case StopReading => s.(ingester := Stopped)
    case ReadAgain => s.(ingester := Reading)
    case Receive(w) => s.(channel := s.channel[1..], workers := s.workers[w := Checking(s.channel[0])])
    case Finish(w, result) =>
      s.(stats := s.stats.(scanned := s.stats.scanned + 1), done := s.done + [s.workers[w].job],
         workers := s.workers[w := Recording(s.workers[w].job, result, Scanned)])
    case Record(w) =>
      var at := s.workers[w];
      s.(stats := CountedAt(s.stats, at.result, at.stage),
         workers := s.workers[w := NextWorker(at.job, at.result, at.stage)])
    case Save(w) => s.(workers := s.workers[w := Idle])
    case SeeCancel(w) => s.(workers := s.workers[w := Exited])
    case Cancel => s.(cancelled := true)
  }

  function Start(workers: nat): State {
    State(NoCounts(), Reading, [], seq(workers, _ => Idle), [], false)
  }

  predicate CanRun(workers: nat, capacity: nat, steps: seq<Step>)
    decreases |steps|, 0
  {
    steps == [] ||
    (CanRun(workers, capacity, steps[..|steps| - 1])
     && Enabled(Run(workers, capacity, steps[..|steps| - 1]), steps[|steps| - 1], capacity))
  }

  function Run(workers: nat, capacity: nat, steps: seq<Step>): State
    requires CanRun(workers, capacity, steps)
    decreases |steps|, 1
  {
    if steps == [] then Start(workers)
    else After(Run(workers, capacity, steps[..|steps| - 1]), steps[|steps| - 1], capacity)
  }

  // ----- Counting workers -----

  /** How many of the workers satisfy `f`. */
  function HowMany(workers: seq<Worker>, f: Worker -> bool): nat {
    if workers == [] then 0
    else HowMany(workers[..|workers| - 1], f) + if f(workers[|workers| - 1]) then 1 else 0
  }

  lemma {:induction false} WorkerReplaced(workers: seq<Worker>, w: nat, now: Worker, f: Worker -> bool)
    requires w < |workers|
    ensures HowMany(workers[w := now], f) + (if f(workers[w]) then 1 else 0)
         == HowMany(workers, f) + (if f(now) then 1 else 0)
  {
    var n := |workers| - 1;
    if w < n {
      WorkerReplaced(workers[..n], w, now, f);
      assert workers[w := now][..n] == workers[..n][w := now];
    } else {
      assert workers[w := now][..n] == workers[..n];
    }
  }

  lemma {:induction false} NoneAtStart(n: nat, f: Worker -> bool)
    requires !f(Idle)
    ensures HowMany(seq(n, _ => Idle), f) == 0
  {
    if n > 0 {
      var all := seq(n, _ => Idle);
      assert all[..n - 1] == seq(n - 1, _ => Idle);
      NoneAtStart(n - 1, f);
    }
  }

  function InCheck(): Worker -> bool {
    (w: Worker) => w.Checking?
  }

  function AtStage(stage: Stage): Worker -> bool {
    (w: Worker) => w.Recording? && w.stage == stage
  }

  /** 1 while a counted job has not reached the channel. */
  function Unpushed(s: State): nat {
    if s.ingester.Pushing? || s.ingester.Abandoned? then 1 else 0
  }

  function ProtocolSum(c: Counters): nat {
    c.http + c.https + c.socks4 + c.socks5
  }

  function AnonymitySum(c: Counters): nat {
    c.elite + c.anonymous + c.transparent
  }

  ghost function CountrySum(countries: map<string, nat>): nat
    decreases |countries|
  {
    if countries == map[] then 0
    else
      var code :| code in countries;
      countries[code] + CountrySum(countries - {code})
  }

  lemma {:induction false} SumWithout(countries: map<string, nat>, code: string)
    requires code in countries
    ensures CountrySum(countries) == countries[code] + CountrySum(countries - {code})
    decreases |countries|
  {
    var first :| first in countries && CountrySum(countries) == countries[first] + CountrySum(countries - {first});
    if first != code {
      SumWithout(countries - {first}, code);
      SumWithout(countries - {code}, first);
      assert countries - {first} - {code} == countries - {code} - {first};
    }
  }

  lemma CountryAddsOne(c: Counters, code: string)
    requires code != ""
    ensures CountrySum(CountryCounted(c, code).countries) == CountrySum(c.countries) + 1
  {
    var after := CountryCounted(c, code).countries;
    SumWithout(after, code);
    assert after - {code} == c.countries - {code};
    if code in c.countries {
      SumWithout(c.countries, code);
    } else {
      assert c.countries - {code} == c.countries;
    }
  }

  // ----- The queue -----

  /** Every counted job was scanned, is being checked, waits in the channel, or is the
      one not pushed. */
  ghost predicate QueueConserved(s: State) {
    && s.stats.queued == s.stats.scanned + HowMany(s.workers, InCheck()) + |s.channel| + Unpushed(s)
    && s.stats.scanned == |s.done|
  }

  lemma QueueByStep(s: State, step: Step, capacity: nat)
    requires QueueConserved(s) && Enabled(s, step, capacity)
    ensures QueueConserved(After(s, step, capacity))
  {
    var s' := After(s, step, capacity);
    match step
    case Receive(w) => WorkerReplaced(s.workers, w, s'.workers[w], InCheck());
    case Finish(w, _) => WorkerReplaced(s.workers, w, s'.workers[w], InCheck());
    case Record(w) => WorkerReplaced(s.workers, w, s'.workers[w], InCheck());
    case Save(w) => WorkerReplaced(s.workers, w, s'.workers[w], InCheck());
    case SeeCancel(w) => WorkerReplaced(s.workers, w, s'.workers[w], InCheck());
    case _ =>
  }

  function Count(jobs: seq<nat>, x: nat): nat {
    multiset(jobs)[x]
  }

  function CheckingJob(x: nat): Worker -> bool {
    (w: Worker) => w.Checking? && w.job == x
  }

  /** In how many places job `x` is. */
  function Places(s: State, x: nat): nat {
    Count(s.done, x) + HowMany(s.workers, CheckingJob(x)) + Count(s.channel, x)
    + if (s.ingester.Pushing? || s.ingester.Abandoned?) && s.ingester.job == x then 1 else 0
  }

  lemma PlacesByReceive(s: State, w: nat, capacity: nat, x: nat)
    requires Enabled(s, Receive(w), capacity)
    ensures Places(After(s, Receive(w), capacity), x) == Places(s, x)
  {
    WorkerReplaced(s.workers, w, After(s, Receive(w), capacity).workers[w], CheckingJob(x));
    assert s.channel == [s.channel[0]] + s.channel[1..];
  }

  lemma PlacesByStep(s: State, step: Step, capacity: nat, x: nat)
    requires Enabled(s, step, capacity)
    ensures Places(After(s, step, capacity), x) == Places(s, x) + if step == CountJob && x == s.stats.queued then 1 else 0
  {
    var s' := After(s, step, capacity);
    match step
    case Receive(w) => PlacesByReceive(s, w, capacity, x);
    case Finish(w, _) => WorkerReplaced(s.workers, w, s'.workers[w], CheckingJob(x));
    case Record(w) => WorkerReplaced(s.workers, w, s'.workers[w], CheckingJob(x));
    case Save(w) => WorkerReplaced(s.workers, w, s'.workers[w], CheckingJob(x));
    case SeeCancel(w) => WorkerReplaced(s.workers, w, s'.workers[w], CheckingJob(x));
    case _ =>
  }

  // ----- The counter hierarchy -----

  /** Only well-formed results are recorded, and only successes go past the first counter. */
  ghost predicate ResultsFit(s: State) {
    forall w :: 0 <= w < |s.workers| && s.workers[w].Recording? ==>
      WellFormed(s.workers[w].result) && (s.workers[w].stage != Scanned ==> s.workers[w].result.success)
  }

  /** Each level of counters lags the one above by exactly the calls between the two. */
  ghost predicate Layered(s: State) {
    && s.stats.scanned == s.stats.alive + s.stats.dead + HowMany(s.workers, AtStage(Scanned))
    && s.stats.alive == ProtocolSum(s.stats) + HowMany(s.workers, AtStage(Classified))
    && ProtocolSum(s.stats) == AnonymitySum(s.stats) + HowMany(s.workers, AtStage(WithProtocol))
    && AnonymitySum(s.stats) == CountrySum(s.stats.countries) + HowMany(s.workers, AtStage(WithAnonymity))
  }

  lemma StagesReplaced(workers: seq<Worker>, w: nat, now: Worker)
    requires w < |workers|
    ensures forall stage :: HowMany(workers[w := now], AtStage(stage)) + (if AtStage(stage)(workers[w]) then 1 else 0)
                         == HowMany(workers, AtStage(stage)) + (if AtStage(stage)(now) then 1 else 0)
  {
    forall stage
      ensures HowMany(workers[w := now], AtStage(stage)) + (if AtStage(stage)(workers[w]) then 1 else 0)
           == HowMany(workers, AtStage(stage)) + (if AtStage(stage)(now) then 1 else 0)
    {
      WorkerReplaced(workers, w, now, AtStage(stage));
    }
  }

  function Bit(b: bool): nat {
    if b then 1 else 0
  }

  /** Each stage of a call adds one at its own level and nowhere else. */
  lemma StageAddsOne(c: Counters, r: Result, stage: Stage)
    requires WellFormed(r) && (stage != Scanned ==> r.success)
    ensures var c' := CountedAt(c, r, stage);
            && c'.scanned == c.scanned
            && c'.alive == c.alive + Bit(stage == Scanned && r.success)
            && c'.dead == c.dead + Bit(stage == Scanned && !r.success)
            && ProtocolSum(c') == ProtocolSum(c) + Bit(stage == Classified)
            && AnonymitySum(c') == AnonymitySum(c) + Bit(stage == WithProtocol)
            && CountrySum(c'.countries) == CountrySum(c.countries) + Bit(stage == WithAnonymity)
  {
    if stage == WithAnonymity {
      CountryAddsOne(c, r.country);
    }
  }

  lemma LayeredByRecord(s: State, w: nat, capacity: nat)
    requires ResultsFit(s) && Layered(s) && Enabled(s, Record(w), capacity)
    ensures Layered(After(s, Record(w), capacity))
  {
    var at := s.workers[w];
    var next := NextWorker(at.job, at.result, at.stage);
    WorkerReplaced(s.workers, w, next, AtStage(Scanned));
    WorkerReplaced(s.workers, w, next, AtStage(Classified));
    WorkerReplaced(s.workers, w, next, AtStage(WithProtocol));
    WorkerReplaced(s.workers, w, next, AtStage(WithAnonymity));
    StageAddsOne(s.stats, at.result, at.stage);
  }

  lemma LayeredByMove(s: State, step: Step, w: nat, capacity: nat)
    requires ResultsFit(s) && Layered(s) && Enabled(s, step, capacity)
    requires step in {Receive(w), Save(w), SeeCancel(w)}
    ensures ResultsFit(After(s, step, capacity)) && Layered(After(s, step, capacity))
  {
    StagesReplaced(s.workers, w, After(s, step, capacity).workers[w]);
  }

  lemma LayeredByFinish(s: State, step: Step, capacity: nat)
    requires ResultsFit(s) && Layered(s) && Enabled(s, step, capacity) && step.Finish?
    ensures ResultsFit(After(s, step, capacity)) && Layered(After(s, step, capacity))
  {
    StagesReplaced(s.workers, step.w, After(s, step, capacity).workers[step.w]);
  }

  lemma LayeredByStep(s: State, step: Step, capacity: nat)
    requires ResultsFit(s) && Layered(s) && Enabled(s, step, capacity)
    ensures ResultsFit(After(s, step, capacity)) && Layered(After(s, step, capacity))
  {
    match step
    case Receive(w) => LayeredByMove(s, step, w, capacity);
    case Finish(w, _) => LayeredByFinish(s, step, capacity);
    case Record(w) => LayeredByRecord(s, w, capacity);
    case Save(w) => LayeredByMove(s, step, w, capacity);
    case SeeCancel(w) => LayeredByMove(s, step, w, capacity);
    case _ =>
  }

  // ----- Every run -----

  ghost predicate Inv(s: State) {
    && QueueConserved(s)
    && (forall x: nat :: Places(s, x) == if x < s.stats.queued then 1 else 0)
    && ResultsFit(s)
    && Layered(s)
  }

  lemma StartLayered(workers: nat)
    ensures Layered(Start(workers))
  {
    NoneAtStart(workers, AtStage(Scanned));
    NoneAtStart(workers, AtStage(Classified));
    NoneAtStart(workers, AtStage(WithProtocol));
    NoneAtStart(workers, AtStage(WithAnonymity));
  }

  lemma StartQueue(workers: nat)
    ensures QueueConserved(Start(workers)) && ResultsFit(Start(workers))
  {
    NoneAtStart(workers, InCheck());
  }

  lemma StartPlaces(workers: nat)
    ensures forall x: nat :: Places(Start(workers), x) == 0
  {
    forall x: nat ensures Places(Start(workers), x) == 0 {
      NoneAtStart(workers, CheckingJob(x));
    }
  }

  lemma {:induction false} EveryRunIsSafe(workers: nat, capacity: nat, steps: seq<Step>)
    requires CanRun(workers, capacity, steps)
    ensures Inv(Run(workers, capacity, steps))
    decreases |steps|
  {
    if steps == [] {
      assert Inv(Start(workers)) by {
        StartQueue(workers);
        StartPlaces(workers);
        StartLayered(workers);
      }
    } else {
      var before, step := steps[..|steps| - 1], steps[|steps| - 1];
      EveryRunIsSafe(workers, capacity, before);
      var s := Run(workers, capacity, before);
      QueueByStep(s, step, capacity);
      LayeredByStep(s, step, capacity);
      forall x: nat ensures Places(After(s, step, capacity), x) == if x < After(s, step, capacity).stats.queued then 1 else 0 {
        PlacesByStep(s, step, capacity, x);
      }
    }
  }

  /** At every moment scanned >= alive + dead, alive >= protocols >= anonymities >= countries;
      and all are equalities whenever no call is under way. */
  lemma CountersLayered(workers: nat, capacity: nat, steps: seq<Step>)
    requires CanRun(workers, capacity, steps)
    ensures var c := Run(workers, capacity, steps).stats;
            c.scanned >= c.alive + c.dead && c.alive >= ProtocolSum(c) >= AnonymitySum(c) >= CountrySum(c.countries)
    ensures var s := Run(workers, capacity, steps);
            (forall w :: 0 <= w < |s.workers| ==> !s.workers[w].Recording?) ==>
              && s.stats.scanned == s.stats.alive + s.stats.dead
              && s.stats.alive == ProtocolSum(s.stats) == AnonymitySum(s.stats) == CountrySum(s.stats.countries)
  {
    EveryRunIsSafe(workers, capacity, steps);
    var s := Run(workers, capacity, steps);
    if forall w :: 0 <= w < |s.workers| ==> !s.workers[w].Recording? {
      NoneOf(s.workers, AtStage(Scanned));
      NoneOf(s.workers, AtStage(Classified));
      NoneOf(s.workers, AtStage(WithProtocol));
      NoneOf(s.workers, AtStage(WithAnonymity));
    }
  }

  lemma {:induction false} NoneOf(workers: seq<Worker>, f: Worker -> bool)
    requires forall w :: 0 <= w < |workers| ==> !f(workers[w])
    ensures HowMany(workers, f) == 0
  {
    if workers != [] {
      NoneOf(workers[..|workers| - 1], f);
    }
  }

  lemma {:induction false} QueuedOnlyGrows(workers: nat, capacity: nat, steps: seq<Step>, i: nat)
    requires CanRun(workers, capacity, steps) && i <= |steps|
    ensures CanRun(workers, capacity, steps[..i])
    ensures Run(workers, capacity, steps[..i]).stats.queued <= Run(workers, capacity, steps).stats.queued
    decreases |steps|
  {
    if i == |steps| {
      assert steps[..i] == steps;
    } else {
      var before := steps[..|steps| - 1];
      assert before[..i] == steps[..i];
      QueuedOnlyGrows(workers, capacity, before, i);
      QueuedGrowsByStep(Run(workers, capacity, before), steps[|steps| - 1], capacity);
    }
  }

  lemma QueuedGrowsByStep(s: State, step: Step, capacity: nat)
    requires Enabled(s, step, capacity)
    ensures After(s, step, capacity).stats.queued >= s.stats.queued
  {
  }

  /** The dashboard reads `scanned` and, any number of steps later, `queued`: the
      difference it shows is never negative, so its clamp never fires. */
  lemma RemainingIsNeverNegative(workers: nat, capacity: nat, steps: seq<Step>, i: nat)
    requires CanRun(workers, capacity, steps) && i <= |steps|
    ensures CanRun(workers, capacity, steps[..i])
    ensures Run(workers, capacity, steps).stats.queued - Run(workers, capacity, steps[..i]).stats.scanned >= 0
  {
    QueuedOnlyGrows(workers, capacity, steps, i);
    EveryRunIsSafe(workers, capacity, steps[..i]);
  }

  ghost predicate AllExited(workers: seq<Worker>) {
    forall w :: 0 <= w < |workers| ==> workers[w] == Exited
  }

  /** Once every worker has gone, what was counted but never scanned is exactly the
      rest of the channel and at most one job that was not pushed. */
  lemma AfterStop(workers: nat, capacity: nat, steps: seq<Step>)
    requires CanRun(workers, capacity, steps)
    requires AllExited(Run(workers, capacity, steps).workers)
    ensures var s := Run(workers, capacity, steps);
            && s.stats.queued - s.stats.scanned == |s.channel| + Unpushed(s)
            && Unpushed(s) <= 1
            && (forall x: nat :: x < s.stats.queued && x !in s.done ==>
                  x in s.channel || s.ingester in {Pushing(x), Abandoned(x)})
  {
    EveryRunIsSafe(workers, capacity, steps);
    var s := Run(workers, capacity, steps);
    NoneOf(s.workers, InCheck());
    forall x: nat | x < s.stats.queued && x !in s.done ensures x in s.channel || s.ingester in {Pushing(x), Abandoned(x)} {
      NoneOf(s.workers, CheckingJob(x));
      assert Places(s, x) == 1;
    }
  }

  /** At any moment each counted job has been scanned, or is in exactly one other place. */
  lemma EachJobInOnePlace(workers: nat, capacity: nat, steps: seq<Step>, x: nat)
    requires CanRun(workers, capacity, steps)
    ensures Places(Run(workers, capacity, steps), x) == if x < Run(workers, capacity, steps).stats.queued then 1 else 0
  {
    EveryRunIsSafe(workers, capacity, steps);
  }

  // ----- What Stop can leave behind -----

  lemma RunOne(workers: nat, capacity: nat, steps: seq<Step>, step: Step)
    requires CanRun(workers, capacity, steps) && Enabled(Run(workers, capacity, steps), step, capacity)
    ensures CanRun(workers, capacity, steps + [step])
    ensures Run(workers, capacity, steps + [step]) == After(Run(workers, capacity, steps), step, capacity)
  {
    assert (steps + [step])[..|steps + [step]| - 1] == steps;
  }

  /** The steps a worker can still take before it has gone, at most. */
  function Rank(): Worker -> nat {
    (w: Worker) =>
      match w
      case Exited => 0
      case Idle => 1
      case Saving(_) => 2
      case Recording(_, _, stage) =>
        (match stage case WithAnonymity => 3 case WithProtocol => 4 case Classified => 5 case Scanned => 6)
      case Checking(_) => 7
  }

  function Total(workers: seq<Worker>, load: Worker -> nat): nat {
    if workers == [] then 0 else Total(workers[..|workers| - 1], load) + load(workers[|workers| - 1])
  }

  lemma {:induction false} LoadReplaced(workers: seq<Worker>, w: nat, now: Worker, load: Worker -> nat)
    requires w < |workers|
    ensures Total(workers[w := now], load) + load(workers[w]) == Total(workers, load) + load(now)
    decreases |workers|
  {
    var n := |workers| - 1;
    var replaced := workers[w := now];
    if w < n {
      LoadReplaced(workers[..n], w, now, load);
      assert replaced[..n] == workers[..n][w := now];
    } else {
      assert replaced[..n] == workers[..n];
    }
  }

  const FAILED := Result(false, OtherProtocol, UnknownAnonymity, "")

  /** What a worker can always do after a cancellation: go, or get on with its job. */
  function Leaving(w: nat, at: Worker): Step
    requires !at.Exited?
  {
    match at
    case Idle => SeeCancel(w)
    case Saving(_) => Save(w)
    case Recording(_, _, _) => Record(w)
    case Checking(_) => Finish(w, FAILED)
  }

  lemma LeavingStep(s: State, w: nat, capacity: nat)
    requires w < |s.workers| && !s.workers[w].Exited? && s.cancelled && ResultsFit(s)
    ensures var step := Leaving(w, s.workers[w]);
      && Enabled(s, step, capacity)
      && var s' := After(s, step, capacity);
         && s'.channel == s.channel && s'.ingester == s.ingester && s'.cancelled
         && s'.workers == s.workers[w := s'.workers[w]]
         && Rank()(s'.workers[w]) < Rank()(s.workers[w])
  {
  }

  predicate NoNewJobs(steps: seq<Step>) {
    forall i :: 0 <= i < |steps| ==> steps[i] != CountJob
  }

  lemma LeavingShrinks(s: State, w: nat, capacity: nat)
    requires w < |s.workers| && !s.workers[w].Exited? && s.cancelled && ResultsFit(s)
    ensures var step := Leaving(w, s.workers[w]);
      Enabled(s, step, capacity) && Total(After(s, step, capacity).workers, Rank()) < Total(s.workers, Rank())
  {
    LeavingStep(s, w, capacity);
    LoadReplaced(s.workers, w, After(s, Leaving(w, s.workers[w]), capacity).workers[w], Rank());
  }

  lemma OneCanMove(workers: nat, capacity: nat, steps: seq<Step>) returns (step: Step)
    requires CanRun(workers, capacity, steps)
    requires Run(workers, capacity, steps).cancelled && !AllExited(Run(workers, capacity, steps).workers)
    ensures step != CountJob && CanRun(workers, capacity, steps + [step])
    ensures var s, s' := Run(workers, capacity, steps), Run(workers, capacity, steps + [step]);
      s'.channel == s.channel && s'.ingester == s.ingester && s'.cancelled && Total(s'.workers, Rank()) < Total(s.workers, Rank())
  {
    var s := Run(workers, capacity, steps);
    var w: nat :| w < |s.workers| && !s.workers[w].Exited?;
    step := Leaving(w, s.workers[w]);
    EveryRunIsSafe(workers, capacity, steps);
    LeavingStep(s, w, capacity);
    LeavingShrinks(s, w, capacity);
    RunOne(workers, capacity, steps, step);
  }

  /** After a cancellation all workers can go at once, leaving the channel as it is. */
  lemma AllCanLeave(workers: nat, capacity: nat, steps: seq<Step>) returns (whole: seq<Step>)
    requires CanRun(workers, capacity, steps) && Run(workers, capacity, steps).cancelled
    ensures CanRun(workers, capacity, whole) && steps <= whole && NoNewJobs(whole[|steps|..])
    ensures AllExited(Run(workers, capacity, whole).workers)
    ensures Run(workers, capacity, whole).channel == Run(workers, capacity, steps).channel
    ensures Run(workers, capacity, whole).ingester == Run(workers, capacity, steps).ingester
    decreases Total(Run(workers, capacity, steps).workers, Rank())
  {
    if AllExited(Run(workers, capacity, steps).workers) {
      whole := steps;
    } else {
      var step := OneCanMove(workers, capacity, steps);
      var next := steps + [step];
      whole := AllCanLeave(workers, capacity, next);
      StillNoNewJobs(whole, |steps|, step);
    }
  }

  predicate ByWorker(step: Step) {
    step.Receive? || step.Finish? || step.Record? || step.Save? || step.SeeCancel?
  }

  function WorkerSteps(steps: seq<Step>): nat {
    if steps == [] then 0
    else WorkerSteps(steps[..|steps| - 1]) + if ByWorker(steps[|steps| - 1]) then 1 else 0
  }

  /** The steps the workers can still take, at most, if no further job is counted. */
  function Work(s: State): nat {
    Total(s.workers, Rank()) + 7 * |s.channel| + if s.ingester.Pushing? then 7 else 0
  }

  lemma WorkByWorker(s: State, step: Step, capacity: nat)
    requires Enabled(s, step, capacity) && ByWorker(step)
    ensures Work(After(s, step, capacity)) < Work(s)
  {
    LoadReplaced(s.workers, step.w, After(s, step, capacity).workers[step.w], Rank());
  }

  lemma WorkByOther(s: State, step: Step, capacity: nat)
    requires Enabled(s, step, capacity) && !ByWorker(step) && step != CountJob
    ensures Work(After(s, step, capacity)) <= Work(s)
  {
  }

  /** Whatever the schedule, as long as no further job is counted the workers take no more steps
      than the work at hand. */
  lemma {:induction false} WorkersFinish(workers: nat, capacity: nat, steps: seq<Step>, more: seq<Step>)
    requires CanRun(workers, capacity, steps) && CanRun(workers, capacity, steps + more) && NoNewJobs(more)
    ensures WorkerSteps(more) + Work(Run(workers, capacity, steps + more)) <= Work(Run(workers, capacity, steps))
    decreases |more|
  {
    if more == [] {
      assert steps + more == steps;
    } else {
      var less, step := more[..|more| - 1], more[|more| - 1];
      assert (steps + more)[..|steps + more| - 1] == steps + less;
      WorkersFinish(workers, capacity, steps, less);
      var s := Run(workers, capacity, steps + less);
      if ByWorker(step) { WorkByWorker(s, step, capacity); } else { WorkByOther(s, step, capacity); }
    }
  }

  lemma {:induction false} CancelledForGood(workers: nat, capacity: nat, steps: seq<Step>, more: seq<Step>)
    requires CanRun(workers, capacity, steps) && CanRun(workers, capacity, steps + more)
    requires Run(workers, capacity, steps).cancelled
    ensures Run(workers, capacity, steps + more).cancelled
    decreases |more|
  {
    if more == [] {
      assert steps + more == steps;
    } else {
      assert (steps + more)[..|steps + more| - 1] == steps + more[..|more| - 1];
      CancelledForGood(workers, capacity, steps, more[..|more| - 1]);
    }
  }

  /** Stop's wait for the workers ends in every schedule: after the cancellation, whatever was
      done since without counting a job, the workers have taken a bounded number of steps, and
      until all have gone one of them can take another. */
  lemma StopReturns(workers: nat, capacity: nat, steps: seq<Step>, more: seq<Step>)
    requires CanRun(workers, capacity, steps) && Run(workers, capacity, steps).cancelled
    requires CanRun(workers, capacity, steps + more) && NoNewJobs(more)
    ensures WorkerSteps(more) <= Work(Run(workers, capacity, steps))
    ensures var s := Run(workers, capacity, steps + more);
      AllExited(s.workers) || exists step :: ByWorker(step) && Enabled(s, step, capacity)
  {
    WorkersFinish(workers, capacity, steps, more);
    CancelledForGood(workers, capacity, steps, more);
    EveryRunIsSafe(workers, capacity, steps + more);
    var s := Run(workers, capacity, steps + more);
    if !AllExited(s.workers) {
      var w: nat :| w < |s.workers| && !s.workers[w].Exited?;
      LeavingStep(s, w, capacity);
      assert ByWorker(Leaving(w, s.workers[w]));
    }
  }

  lemma StillNoNewJobs(whole: seq<Step>, n: nat, step: Step)
    requires n < |whole| && whole[n] == step != CountJob && NoNewJobs(whole[n + 1..])
    ensures NoNewJobs(whole[n..])
  {
    forall i | 0 <= i < |whole[n..]| ensures whole[n..][i] != CountJob {
      assert i > 0 ==> whole[n..][i] == whole[n + 1..][i - 1];
    }
  }

  /** `whole` goes on from `steps`, counts no further job, and ends with every worker gone. */
  ghost predicate Ends(workers: nat, capacity: nat, steps: seq<Step>, whole: seq<Step>) {
    && CanRun(workers, capacity, whole) && steps <= whole && NoNewJobs(whole[|steps|..])
    && AllExited(Run(workers, capacity, whole).workers)
  }

  predicate AllScanned(s: State) {
    s.stats.scanned == s.stats.queued
  }

  lemma NothingComesBack(s: State, step: Step, capacity: nat)
    requires Enabled(s, step, capacity) && step != CountJob && s.channel == [] && Unpushed(s) == 0
    ensures After(s, step, capacity).channel == [] && Unpushed(After(s, step, capacity)) == 0
  {
  }

  lemma {:induction false} NothingLeft(workers: nat, capacity: nat, steps: seq<Step>, more: seq<Step>)
    requires CanRun(workers, capacity, steps) && CanRun(workers, capacity, steps + more) && NoNewJobs(more)
    requires Run(workers, capacity, steps).channel == [] && Unpushed(Run(workers, capacity, steps)) == 0
    ensures var s := Run(workers, capacity, steps + more); s.channel == [] && Unpushed(s) == 0
    decreases |more|
  {
    if more == [] {
      assert steps + more == steps;
    } else {
      var less := more[..|more| - 1];
      assert (steps + more)[..|steps + more| - 1] == steps + less;
      NothingLeft(workers, capacity, steps, less);
      NothingComesBack(Run(workers, capacity, steps + less), more[|more| - 1], capacity);
    }
  }

  /** Stop, called when a run has come this far: every way on that counts no new job scans
      all that was counted exactly if nothing is queued or waiting to be pushed now. */
  lemma StopScansAllIff(workers: nat, capacity: nat, steps: seq<Step>)
    requires CanRun(workers, capacity, steps) && Run(workers, capacity, steps).cancelled
    ensures (forall whole :: Ends(workers, capacity, steps, whole) ==> AllScanned(Run(workers, capacity, whole)))
      <==> Run(workers, capacity, steps).channel == [] && Unpushed(Run(workers, capacity, steps)) == 0
  {
    var s := Run(workers, capacity, steps);
    if s.channel == [] && Unpushed(s) == 0 {
      forall whole | Ends(workers, capacity, steps, whole) ensures AllScanned(Run(workers, capacity, whole)) {
        assert whole == steps + whole[|steps|..];
        NothingLeft(workers, capacity, steps, whole[|steps|..]);
        AfterStop(workers, capacity, whole);
      }
    } else {
      var whole := AllCanLeave(workers, capacity, steps);
      AfterStop(workers, capacity, whole);
      assert Ends(workers, capacity, steps, whole) && !AllScanned(Run(workers, capacity, whole));
    }
  }

  /** A run that does leave a job behind: pushed, then stopped before any worker took it. */
  lemma StopAbandonsAJob(workers: nat, capacity: nat) returns (whole: seq<Step>)
    requires capacity > 0
    ensures CanRun(workers, capacity, whole)
    ensures var s := Run(workers, capacity, whole);
      AllExited(s.workers) && s.channel == [0] && s.stats.queued == 1 && s.stats.scanned == 0
  {
    var steps: seq<Step> := [];
    RunOne(workers, capacity, steps, CountJob);
    steps := steps + [CountJob];
    RunOne(workers, capacity, steps, Push);
    steps := steps + [Push];
    RunOne(workers, capacity, steps, Cancel);
    steps := steps + [Cancel];
    whole := AllCanLeave(workers, capacity, steps);
    assert whole == steps + whole[|steps|..];
    CountedOnce(workers, capacity, steps, whole[|steps|..]);
    AfterStop(workers, capacity, whole);
  }

  lemma {:induction false} CountedOnce(workers: nat, capacity: nat, steps: seq<Step>, more: seq<Step>)
    requires CanRun(workers, capacity, steps) && CanRun(workers, capacity, steps + more) && NoNewJobs(more)
    ensures Run(workers, capacity, steps + more).stats.queued == Run(workers, capacity, steps).stats.queued
    decreases |more|
  {
    if more == [] {
      assert steps + more == steps;
    } else {
      var less := more[..|more| - 1];
      assert (steps + more)[..|steps + more| - 1] == steps + less;
      CountedOnce(workers, capacity, steps, less);
      QueuedStays(Run(workers, capacity, steps + less), more[|more| - 1], capacity);
    }
  }

  lemma QueuedStays(s: State, step: Step, capacity: nat)
    requires Enabled(s, step, capacity) && step != CountJob
    ensures After(s, step, capacity).stats.queued == s.stats.queued
  {
  }

  // ----- Which counter counts what -----

  /** The counters below the number of scans; a country is told by its code. */
  datatype Kind =
    | AliveKind | DeadKind | HttpKind | HttpsKind | Socks4Kind | Socks5Kind
    | EliteKind | AnonymousKind | TransparentKind | CountryKind(code: string)

  function CounterOf(c: Counters, kind: Kind): nat {
    match kind
    case AliveKind => c.alive
    case DeadKind => c.dead
    case HttpKind => c.http
    case HttpsKind => c.https
    case Socks4Kind => c.socks4
    case Socks5Kind => c.socks5
    case EliteKind => c.elite
    case AnonymousKind => c.anonymous
    case TransparentKind => c.transparent
    case CountryKind(code) => CountOf(c.countries, code)
  }

  /** The results a counter is for; SOCKS4A is counted as SOCKS4. */
  predicate IsFor(kind: Kind, r: Result) {
    match kind
    case AliveKind => r.success
    case DeadKind => !r.success
    case HttpKind => r.success && r.protocol == HTTP
    case HttpsKind => r.success && r.protocol == HTTPS
    case Socks4Kind => r.success && (r.protocol == SOCKS4 || r.protocol == SOCKS4A)
    case Socks5Kind => r.success && r.protocol == SOCKS5
    case EliteKind => r.success && r.anonymity == Elite
    case AnonymousKind => r.success && r.anonymity == Anonymous
    case TransparentKind => r.success && r.anonymity == Transparent
    case CountryKind(code) => r.success && r.country == code != ""
  }

  function StageOf(kind: Kind): Stage {
    match kind
    case AliveKind => Scanned
    case DeadKind => Scanned
    case EliteKind => WithProtocol
    case AnonymousKind => WithProtocol
    case TransparentKind => WithProtocol
    case CountryKind(_) => WithAnonymity
    case _ => Classified
  }

  function StageNumber(stage: Stage): nat {
    match stage case Scanned => 0 case Classified => 1 case WithProtocol => 2 case WithAnonymity => 3
  }

  /** Each stage raises the counters that are for the result, and no other. */
  lemma StageRaises(c: Counters, r: Result, stage: Stage, kind: Kind)
    requires stage != Scanned ==> r.success
    ensures CounterOf(CountedAt(c, r, stage), kind)
      == CounterOf(c, kind) + if stage == StageOf(kind) && IsFor(kind, r) then 1 else 0
  {
  }

  /** A worker whose call has still to raise the counter. */
  function StillToRaise(kind: Kind): Worker -> bool {
    (w: Worker) => w.Recording? && IsFor(kind, w.result) && StageNumber(w.stage) <= StageNumber(StageOf(kind))
  }

  /** The results that checks have returned, in order. */
  function ResultsOf(steps: seq<Step>): seq<Result> {
    if steps == [] then []
    else
      var step := steps[|steps| - 1];
      ResultsOf(steps[..|steps| - 1]) + if step.Finish? then [step.result] else []
  }

  function Tally(results: seq<Result>, kind: Kind): nat {
    if results == [] then 0
    else Tally(results[..|results| - 1], kind) + if IsFor(kind, results[|results| - 1]) then 1 else 0
  }

  lemma RaisedByRecord(s: State, w: nat, capacity: nat, kind: Kind)
    requires Enabled(s, Record(w), capacity) && ResultsFit(s)
    ensures var s' := After(s, Record(w), capacity);
      CounterOf(s'.stats, kind) + HowMany(s'.workers, StillToRaise(kind))
      == CounterOf(s.stats, kind) + HowMany(s.workers, StillToRaise(kind))
  {
    var at := s.workers[w];
    StageRaises(s.stats, at.result, at.stage, kind);
    WorkerReplaced(s.workers, w, NextWorker(at.job, at.result, at.stage), StillToRaise(kind));
  }

  lemma RaisedByMove(s: State, step: Step, capacity: nat, kind: Kind)
    requires Enabled(s, step, capacity) && (step.Receive? || step.Finish? || step.Save? || step.SeeCancel?)
    ensures var s' := After(s, step, capacity);
      CounterOf(s'.stats, kind) + HowMany(s'.workers, StillToRaise(kind))
      == CounterOf(s.stats, kind) + HowMany(s.workers, StillToRaise(kind))
         + if step.Finish? && IsFor(kind, step.result) then 1 else 0
  {
    WorkerReplaced(s.workers, step.w, After(s, step, capacity).workers[step.w], StillToRaise(kind));
  }

  lemma RaisedByStep(s: State, step: Step, capacity: nat, kind: Kind)
    requires Enabled(s, step, capacity) && ResultsFit(s)
    ensures var s' := After(s, step, capacity);
      CounterOf(s'.stats, kind) + HowMany(s'.workers, StillToRaise(kind))
      == CounterOf(s.stats, kind) + HowMany(s.workers, StillToRaise(kind))
         + if step.Finish? && IsFor(kind, step.result) then 1 else 0
  {
    match step
    case Receive(_) => RaisedByMove(s, step, capacity, kind);
    case Finish(_, _) => RaisedByMove(s, step, capacity, kind);
    case Save(_) => RaisedByMove(s, step, capacity, kind);
    case SeeCancel(_) => RaisedByMove(s, step, capacity, kind);
    case Record(w) => RaisedByRecord(s, w, capacity, kind);
    case _ =>
  }

  lemma TallyGrows(results: seq<Result>, r: Result, kind: Kind)
    ensures Tally(results + [r], kind) == Tally(results, kind) + if IsFor(kind, r) then 1 else 0
  {
    assert (results + [r])[..|results|] == results;
  }

  /** In every run each counter is the number of results it is for, less those whose call has still
      to raise it; so at rest it is exactly that number. */
  lemma {:induction false} CountersAreTallies(workers: nat, capacity: nat, steps: seq<Step>, kind: Kind)
    requires CanRun(workers, capacity, steps)
    ensures var s := Run(workers, capacity, steps);
      && CounterOf(s.stats, kind) + HowMany(s.workers, StillToRaise(kind)) == Tally(ResultsOf(steps), kind)
      && ((forall w :: 0 <= w < |s.workers| ==> !s.workers[w].Recording?) ==>
            CounterOf(s.stats, kind) == Tally(ResultsOf(steps), kind))
    decreases |steps|
  {
    if steps == [] {
      NoneAtStart(workers, StillToRaise(kind));
    } else {
      var before, step := steps[..|steps| - 1], steps[|steps| - 1];
      CountersAreTallies(workers, capacity, before, kind);
      EveryRunIsSafe(workers, capacity, before);
      RaisedByStep(Run(workers, capacity, before), step, capacity, kind);
      if step.Finish? {
        TallyGrows(ResultsOf(before), step.result, kind);
      } else {
        assert ResultsOf(steps) == ResultsOf(before);
      }
    }
    NoneRaising(Run(workers, capacity, steps).workers, kind);
  }

  lemma NoneRaising(workers: seq<Worker>, kind: Kind)
    ensures (forall w :: 0 <= w < |workers| ==> !workers[w].Recording?) ==> HowMany(workers, StillToRaise(kind)) == 0
  {
    if forall w :: 0 <= w < |workers| ==> !workers[w].Recording? { NoneOf(workers, StillToRaise(kind)); }
  }
}
