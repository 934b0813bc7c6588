/** Reading targets, pkg/pipeline/pipeline.go: from lines of text to queued jobs, past
    the duplicate filter; and what that gives on the files the exporter writes. */
module Ingest {
  import opened Text
  import Dedup
  import Exporter
  import FileSets

  type Time = Dedup.Time

  datatype Job = Job(ip: string, port: int, protocol: string)

  /** The result of url.Parse that matters here: the scheme, lower-cased, and the host part. */
  datatype Url = Url(scheme: string, host: string)

  /** The two library functions that are not modelled: url.Parse (None for an error)
      and whether net.ParseIP accepts a string. */
  datatype Net = Net(urlParse: string -> Option<Url>, isIP: string -> bool)

  /** What the settings give a line that does not say it itself. */
  datatype Defaults = Defaults(port: int, protocol: string)

  // ----- Parsing a line -----

  function ParseUrl(net: Net, line: string, defaults: Defaults): Option<Job> {
    match net.urlParse(line)
    case None => None
    case Some(u) =>
      if u.host == "" then None
      else match SplitHostPort(u.host)
        case Some((host, port)) => Some(Job(host, Atoi(port).0, ToLower(u.scheme)))
        case None => Some(Job(u.host, defaults.port, ToLower(u.scheme)))
  }

  function ParseHostPort(line: string, defaults: Defaults): Option<Job> {
    match SplitHostPort(line)
    case None => None
    case Some((host, port)) =>
      var (n, ok) := Atoi(port);
      if ok && 0 < n <= 65535 then Some(Job(host, n, defaults.protocol)) else None
  }

  /** parseLineToJob: a URL, else host and port, else an address alone. */
  function ParseLine(net: Net, text: string, defaults: Defaults): Option<Job> {
    var line := TrimSpace(text);
    var asUrl := if Contains(line, "://") then ParseUrl(net, line, defaults) else None;
    if asUrl.Some? then asUrl
    else
      var asHostPort := if ':' in line then ParseHostPort(line, defaults) else None;
      if asHostPort.Some? then asHostPort
      else if net.isIP(line) then Some(Job(line, if defaults.port <= 0 then 8080 else defaults.port, defaults.protocol))
      else None
  }

  /** The job of an input line, if it is not blank, a comment or malformed. */
  function JobOf(net: Net, text: string, defaults: Defaults): Option<Job> {
    var line := TrimSpace(text);
    if line == "" || line[0] == '#' then None else ParseLine(net, line, defaults)
  }

  // ----- What each kind of line gives -----

  /** A line that ingestion takes as it stands. */
  predicate Line(s: string) {
    Tight(s) && s[0] != '#'
  }

  lemma JobOfLine(net: Net, s: string, defaults: Defaults)
    requires Line(s)
    ensures TrimSpace(s) == s && JobOf(net, s, defaults) == ParseLine(net, s, defaults)
  {
    assert "" + s + "" == s;
    TrimOfPadded("", s, "");
  }

  lemma NoColonNoUrl(s: string)
    requires ':' !in s
    ensures !Contains(s, "://")
  {
    forall i | 0 <= i <= |s| ensures !StartsAt(s, i, "://") {
      assert i < |s| ==> s[i..][0] == s[i];
    }
  }

  /** An address alone, as ZMap prints them, is a job with the default port, or 8080 without one. */
  lemma BareAddress(net: Net, s: string, defaults: Defaults)
    requires Line(s) && net.isIP(s) && ':' !in s
    ensures JobOf(net, s, defaults) == Some(Job(s, if defaults.port <= 0 then 8080 else defaults.port, defaults.protocol))
  {
    NoColonNoUrl(s);
    JobOfLine(net, s, defaults);
  }

  /** So is any other address from which no port can be split off, as IPv6 is written. */
  lemma BareAddressWithColons(net: Net, s: string, defaults: Defaults)
    requires Line(s) && net.isIP(s) && !Contains(s, "://") && SplitHostPort(s) == None
    ensures JobOf(net, s, defaults) == Some(Job(s, if defaults.port <= 0 then 8080 else defaults.port, defaults.protocol))
  {
    JobOfLine(net, s, defaults);
  }

  /** Host and port: a job with the default protocol if the port is one, whatever the host. */
  lemma HostPortLine(net: Net, s: string, defaults: Defaults, host: string, port: int)
    requires Line(s) && !Contains(s, "://") && SplitHostPort(s) == Some((host, Itoa(port)))
    ensures JobOf(net, s, defaults) ==
      if 1 <= port <= 65535 then Some(Job(host, port, defaults.protocol))
      else if net.isIP(s) then Some(Job(s, if defaults.port <= 0 then 8080 else defaults.port, defaults.protocol))
      else None
  {
    JobOfLine(net, s, defaults);
    AtoiOfItoa(port);
    assert ':' in s by { SplitFails(s, "", ""); }
  }

  /** A URL: its scheme in lower case, and its port or, without one, the default port. */
  lemma AnyUrlLine(net: Net, s: string, defaults: Defaults, u: Url)
    requires Line(s) && Contains(s, "://") && net.urlParse(s) == Some(u) && u.host != ""
    ensures SplitHostPort(u.host) == None ==> JobOf(net, s, defaults) == Some(Job(u.host, defaults.port, ToLower(u.scheme)))
    ensures forall host, port :: SplitHostPort(u.host) == Some((host, port)) ==>
      JobOf(net, s, defaults) == Some(Job(host, Atoi(port).0, ToLower(u.scheme)))
  {
    JobOfLine(net, s, defaults);
  }

  /** What is neither a URL, nor host and port, nor an address is not a job. */
  lemma MalformedLine(net: Net, s: string, defaults: Defaults)
    requires Line(s) && !Contains(s, "://") && !net.isIP(s) && SplitHostPort(s) == None
    ensures JobOf(net, s, defaults) == None
  {
    JobOfLine(net, s, defaults);
  }

  /** Blank lines and comments give nothing; blanks around a line change nothing. */
  lemma BlanksAndComments(net: Net, defaults: Defaults, a: string, s: string, b: string)
    requires AllBlank(a) && AllBlank(b) && Tight(s)
    ensures JobOf(net, a, defaults) == None
    ensures s[0] == '#' ==> JobOf(net, a + s + b, defaults) == None
    ensures JobOf(net, a + s + b, defaults) == JobOf(net, s, defaults)
  {
    TrimOfBlank(a);
    TrimOfPadded(a, s, b);
    assert "" + s + "" == s;
    TrimOfPadded("", s, "");
  }

  /** The key under which duplicates are found. */
  function DedupKey(job: Job): string {
    job.ip + ":" + Itoa(job.port) + ":" + job.protocol
  }

  /** Different jobs have different keys, as long as no protocol contains a colon. */
  lemma DedupKeyInjective(a: Job, b: Job)
    requires ':' !in a.protocol && ':' !in b.protocol
    ensures DedupKey(a) == DedupKey(b) <==> a == b
  {
    if DedupKey(a) == DedupKey(b) {
      ColonSplitUnique(a.ip + ":" + Itoa(a.port), a.protocol, b.ip + ":" + Itoa(b.port), b.protocol);
      ItoaHasNoColon(a.port);
      ItoaHasNoColon(b.port);
      ColonSplitUnique(a.ip, Itoa(a.port), b.ip, Itoa(b.port));
      ItoaInjective(a.port, b.port);
    }
  }

  /** With a colon in a protocol two different jobs can share a key. */
  lemma DedupKeyClash(a: Job, b: Job)
    requires a == Job("h", 1, "2:x") && b == Job("h:1", 2, "x")
    ensures a != b && DedupKey(a) == DedupKey(b)
  {
    assert Itoa(1) == "1" && Itoa(2) == "2";
    assert DedupKey(a) == "h:1:2:x" && DedupKey(b) == "h:1:2:x";
  }

  // ----- Reading a whole input -----

  /** How the two selects of one turn of the loop come out. */
  datatype Turn = Live | CancelledBeforeLine | CancelledBeforePush

  /** Why reading stopped. */
  datatype End = EndOfInput | LineTooLong | Cancelled

  /** What happens to the filter: it is asked about a job and answers, or the cleanup goroutine
      goes through one of its shards. */
  datatype Entry = Asked(job: Job, now: Time, isNew: bool) | Swept(shard: nat, now: Time)

  type Sweep = e: Entry | e.Swept? witness Swept(0, 0)

  /** What surrounds one turn: the cleanups since the turn before, the clock, the selects. */
  datatype Moment = Moment(sweeps: seq<Sweep>, now: Time, turn: Turn)

  /** What ingestion has done: all that happened to the filter, the count of queued jobs, the
      jobs pushed, and whether it was cancelled. */
  datatype Progress = Progress(log: seq<Entry>, queued: nat, sent: seq<Job>, cancelled: bool)

  function EventOf(e: Entry): Dedup.Event {
    match e
    case Asked(job, now, _) => Dedup.Check(DedupKey(job), now)
    case Swept(shard, now) => Dedup.Cleanup(shard, now)
  }

  /** The log as the filter sees it. */
  function Events(log: seq<Entry>): seq<Dedup.Event> {
    seq(|log|, i requires 0 <= i < |log| => EventOf(log[i]))
  }

  /** CheckAndSet's answer to the check of a job after `log`. */
  predicate Passes(log: seq<Entry>, job: Job, now: Time, window: Time) {
    Dedup.IsNew(Dedup.Shards(Events(log), window)[Dedup.ShardOf(DedupKey(job))], DedupKey(job), now, window)
  }

  /** One job offered to the filter and answered: if it is new, it is counted and pushed. */
  function Offer(pr: Progress, job: Job, now: Time, isNew: bool, turn: Turn): Progress {
    var seen := pr.(log := pr.log + [Asked(job, now, isNew)]);
    if !isNew then seen
    else if turn == CancelledBeforePush then seen.(queued := pr.queued + 1, cancelled := true)
    else seen.(queued := pr.queued + 1, sent := pr.sent + [job])
  }

  function SweepAll(pr: Progress, sweeps: seq<Sweep>): Progress {
    pr.(log := pr.log + sweeps)
  }

  /** What a line makes of what was done before it. */
  function OfferLine(net: Net, defaults: Defaults, window: Time, pr: Progress, line: string, now: Time, turn: Turn): Progress {
    if turn == CancelledBeforeLine then pr.(cancelled := true)
    else match JobOf(net, line, defaults)
      case None => pr
      case Some(job) => Offer(pr, job, now, Passes(pr.log, job, now, window), turn)
  }

  /** One turn of the loop, after any cleanups. */
  function TakeLine(net: Net, defaults: Defaults, window: Time, pr: Progress, line: string, moment: Moment): Progress {
    if pr.cancelled then pr
    else OfferLine(net, defaults, window, SweepAll(pr, moment.sweeps), line, moment.now, moment.turn)
  }

  /** All of the loop; line i is read in moments(i). */
  function TakeLines(net: Net, defaults: Defaults, window: Time, pr: Progress, lines: seq<string>, moments: nat -> Moment): Progress
  {
    if lines == [] then pr
    else
      var n := |lines| - 1;
      TakeLine(net, defaults, window, TakeLines(net, defaults, window, pr, lines[..n], moments), lines[n], moments(n))
  }

  lemma Prefix<T>(xs: seq<T>, i: nat)
    requires i < |xs|
    ensures xs[..i + 1] == xs[..i] + [xs[i]]
    ensures i + 1 == |xs| ==> xs == xs[..i] + [xs[i]]
  {
  }

  lemma TakeLinesNext(net: Net, defaults: Defaults, window: Time, pr: Progress, lines: seq<string>, i: nat,
                      moments: nat -> Moment)
    requires i < |lines|
    ensures TakeLines(net, defaults, window, pr, lines[..i + 1], moments)
      == TakeLine(net, defaults, window, TakeLines(net, defaults, window, pr, lines[..i], moments), lines[i], moments(i))
  {
    assert lines[..i + 1][..i] == lines[..i];
  }

  lemma ShardsGrow(log: seq<Entry>, e: Entry, window: Time)
    ensures Dedup.Shards(Events(log + [e]), window) == Dedup.Happen(Dedup.Shards(Events(log), window), EventOf(e), window)
  {
    assert Events(log + [e])[..|log|] == Events(log);
  }

  class Pipeline {
    const net: Net
    const dedup: Dedup.ShardedDeduplicator
    var queued: nat
    var sent: seq<Job>
    ghost var log: seq<Entry>  // everything that has happened to the filter

    ghost predicate Valid()
      reads this, dedup.shards
    {
      dedup.Valid() && dedup.shards[..] == Dedup.Shards(Events(log), dedup.window)
    }

    ghost function State(cancelled: bool): Progress
      reads this
    {
      Progress(log, queued, sent, cancelled)
    }

    constructor (net: Net, window: Time)
      ensures Valid() && fresh(dedup) && fresh(dedup.shards)
      ensures this.net == net && State(false) == Progress([], 0, [], false)
    {
      this.net := net;
      this.dedup := new Dedup.ShardedDeduplicator(window);
      queued, sent, log := 0, [], [];
    }

    /** Reads the whole input: every line becomes what TakeLine makes of it. */
    method IngestFromReader(content: string, defaults: Defaults, moments: nat -> Moment) returns (end: End)
      requires Valid()
      modifies this, dedup.shards
      ensures Valid()
      ensures State(end == Cancelled) == TakeLines(net, defaults, dedup.window, old(State(false)), Scan(content).0, moments)
      ensures end == LineTooLong ==> Scan(content).1
      ensures end == EndOfInput ==> !Scan(content).1
    {
      var (lines, tooLong) := Scan(content);
      ghost var start := State(false);
      var i, cancelled := 0, false;
      while i < |lines| && !cancelled
        invariant i <= |lines| && Valid()
        invariant State(cancelled) == TakeLines(net, defaults, dedup.window, start, lines[..i], moments)
      {
        TakeLinesNext(net, defaults, dedup.window, start, lines, i, moments);
        CleanUp(moments(i).sweeps);
        cancelled := Ingest(lines[i], defaults, moments(i).now, moments(i).turn);
        i := i + 1;
      }
      if cancelled {
        CancelledStays(net, defaults, dedup.window, start, lines, i, moments);
        return Cancelled;
      }
      assert lines[..i] == lines;
      return if tooLong then LineTooLong else EndOfInput;
    }

    /** The part of the cleanup goroutine: the shards it goes through between two turns. */
    method CleanUp(sweeps: seq<Sweep>)
      requires Valid()
      modifies this`log, dedup.shards
      ensures Valid() && State(false) == SweepAll(old(State(false)), sweeps)
    {
      for i := 0 to |sweeps|
        invariant Valid() && log == old(log) + sweeps[..i]
      {
        CleanUpShard(sweeps[i]);
        Prefix(sweeps, i);
      }
    }

    method CleanUpShard(sweep: Sweep)
      requires Valid()
      modifies this`log, dedup.shards
      ensures Valid() && log == old(log) + [sweep]
    {
      ShardsGrow(log, sweep, dedup.window);
      if sweep.shard < Dedup.SHARDS {
        dedup.CleanupShard(sweep.shard, sweep.now);
      }
      log := log + [sweep];
    }

    /** One turn of the loop; true if it was cancelled. */
    method Ingest(line: string, defaults: Defaults, now: Time, turn: Turn) returns (cancelled: bool)
      requires Valid()
      modifies this, dedup.shards
      ensures Valid()
      ensures State(cancelled) == OfferLine(net, defaults, dedup.window, old(State(false)), line, now, turn)
    {
      if turn == CancelledBeforeLine {
        return true;
      }
      var job := JobOf(net, line, defaults);
      if job.None? {
        return false;
      }
      cancelled := Push(job.value, now, turn);
    }

    /** Filters, counts and pushes a job; true if it was cancelled before the push. */
    method Push(job: Job, now: Time, turn: Turn) returns (cancelled: bool)
      requires Valid() && turn != CancelledBeforeLine
      modifies this, dedup.shards
      ensures Valid()
      ensures State(cancelled) == Offer(old(State(false)), job, now, Passes(old(log), job, now, dedup.window), turn)
    {
      var isNew := Filter(job, now);
      if !isNew {
        return false;
      }
      queued := queued + 1;
      if turn == CancelledBeforePush {
        return true;
      }
      sent := sent + [job];
      return false;
    }

    /** Asks the duplicate filter about a job. */
    method Filter(job: Job, now: Time) returns (isNew: bool)
      requires Valid()
      modifies this`log, dedup.shards
      ensures Valid()
      ensures log == old(log) + [Asked(job, now, isNew)]
      ensures isNew == Passes(old(log), job, now, dedup.window)
    {
      var key := DedupKey(job);
      assert dedup.shards[Dedup.ShardOf(key)] == dedup.shards[..][Dedup.ShardOf(key)];
      isNew := dedup.CheckAndSet(key, now);
      ShardsGrow(log, Asked(job, now, isNew), dedup.window);
      log := log + [Asked(job, now, isNew)];
    }
  }

  lemma {:induction false} CancelledStays(net: Net, defaults: Defaults, window: Time, pr: Progress, lines: seq<string>,
                                          i: nat, moments: nat -> Moment)
    requires i <= |lines|
    requires TakeLines(net, defaults, window, pr, lines[..i], moments).cancelled
    ensures TakeLines(net, defaults, window, pr, lines, moments) == TakeLines(net, defaults, window, pr, lines[..i], moments)
    decreases |lines|
  {
    if i == |lines| {
      assert lines[..i] == lines;
    } else {
      assert lines[..|lines| - 1][..i] == lines[..i];
      CancelledStays(net, defaults, window, pr, lines[..|lines| - 1], i, moments);
    }
  }

  // ----- What is pushed -----

  /** The jobs the filter was asked about. */
  function Offered(log: seq<Entry>): seq<Job> {
    if log == [] then []
    else
      var n := |log| - 1;
      Offered(log[..n]) + if log[n].Asked? then [log[n].job] else []
  }

  /** The jobs that were answered with yes. */
  function Kept(log: seq<Entry>): seq<Job> {
    if log == [] then []
    else
      var n := |log| - 1;
      Kept(log[..n]) + if log[n].Asked? && log[n].isNew then [log[n].job] else []
  }

  /** The counters agree with the answers: each new job was counted, and it was pushed
      except perhaps the last one on cancellation. */
  ghost predicate Accounted(pr: Progress) {
    var kept := Kept(pr.log);
    && pr.queued == |kept|
    && (pr.sent == kept || (pr.cancelled && kept != [] && pr.sent == kept[..|kept| - 1]))
  }

  lemma LogGrows(log: seq<Entry>, e: Entry)
    ensures Offered(log + [e]) == Offered(log) + if e.Asked? then [e.job] else []
    ensures Kept(log + [e]) == Kept(log) + if e.Asked? && e.isNew then [e.job] else []
  {
    assert (log + [e])[..|log|] == log;
  }

  /** Cleanups offer nothing. */
  lemma {:induction false} SweepsOfferNothing(log: seq<Entry>, sweeps: seq<Sweep>)
    ensures Offered(log + sweeps) == Offered(log) && Kept(log + sweeps) == Kept(log)
  {
    if sweeps == [] {
      assert log + sweeps == log;
    } else {
      var n := |sweeps| - 1;
      SweepsOfferNothing(log, sweeps[..n]);
      LogGrows(log + sweeps[..n], sweeps[n]);
      assert log + sweeps == (log + sweeps[..n]) + [sweeps[n]];
    }
  }

  lemma OfferAccounted(pr: Progress, job: Job, now: Time, isNew: bool, turn: Turn)
    requires Accounted(pr) && !pr.cancelled
    ensures Accounted(Offer(pr, job, now, isNew, turn))
  {
    LogGrows(pr.log, Asked(job, now, isNew));
    var kept := Kept(pr.log);
    assert (kept + [job])[..|kept|] == kept;
  }

  lemma OfferLineAccounted(net: Net, defaults: Defaults, window: Time, pr: Progress, line: string, now: Time, turn: Turn)
    requires Accounted(pr) && !pr.cancelled
    ensures Accounted(OfferLine(net, defaults, window, pr, line, now, turn))
  {
    if turn != CancelledBeforeLine {
      match JobOf(net, line, defaults)
      case None =>
      case Some(job) => OfferAccounted(pr, job, now, Passes(pr.log, job, now, window), turn);
    }
  }

  /** Every input, clock, cleanup and cancellation keeps the accounts: at most one counted job
      was never pushed. */
  lemma {:induction false} IngestAccounted(net: Net, defaults: Defaults, window: Time, pr: Progress, lines: seq<string>,
                                           moments: nat -> Moment)
    requires Accounted(pr)
    ensures Accounted(TakeLines(net, defaults, window, pr, lines, moments))
  {
    if lines != [] {
      var n := |lines| - 1;
      IngestAccounted(net, defaults, window, pr, lines[..n], moments);
      var before := TakeLines(net, defaults, window, pr, lines[..n], moments);
      if !before.cancelled {
        SweepsOfferNothing(before.log, moments(n).sweeps);
        var swept := SweepAll(before, moments(n).sweeps);
        OfferLineAccounted(net, defaults, window, swept, lines[n], moments(n).now, moments(n).turn);
      }
    }
  }

  /** The answers are the filter's, each to the check of its job among all that happened. */
  ghost predicate Answered(log: seq<Entry>, window: Time) {
    forall i :: 0 <= i < |log| && log[i].Asked? ==> log[i].isNew == Dedup.Accepted(Events(log), window, i)
  }

  /** Later entries change no answer. */
  lemma AcceptedIsPasses(log: seq<Entry>, window: Time, i: nat)
    requires i < |log| && log[i].Asked?
    ensures Dedup.Accepted(Events(log), window, i) == Passes(log[..i], log[i].job, log[i].now, window)
  {
    assert Events(log)[..i] == Events(log[..i]);
  }

  lemma AnsweredGrows(log: seq<Entry>, e: Entry, window: Time)
    requires Answered(log, window)
    requires e.Asked? ==> e.isNew == Passes(log, e.job, e.now, window)
    ensures Answered(log + [e], window)
  {
    var more := log + [e];
    forall i | 0 <= i < |more| && more[i].Asked? ensures more[i].isNew == Dedup.Accepted(Events(more), window, i) {
      AcceptedIsPasses(more, window, i);
      if i < |log| {
        AcceptedIsPasses(log, window, i);
        assert more[..i] == log[..i];
      } else {
        assert more[..i] == log;
      }
    }
  }

  lemma {:induction false} SweepsAnswerNothing(log: seq<Entry>, sweeps: seq<Sweep>, window: Time)
    requires Answered(log, window)
    ensures Answered(log + sweeps, window)
  {
    if sweeps == [] {
      assert log + sweeps == log;
    } else {
      var n := |sweeps| - 1;
      SweepsAnswerNothing(log, sweeps[..n], window);
      AnsweredGrows(log + sweeps[..n], sweeps[n], window);
      assert log + sweeps == (log + sweeps[..n]) + [sweeps[n]];
    }
  }

  lemma OfferLineAnswered(net: Net, defaults: Defaults, window: Time, pr: Progress, line: string, now: Time, turn: Turn)
    requires Answered(pr.log, window)
    ensures Answered(OfferLine(net, defaults, window, pr, line, now, turn).log, window)
  {
    if turn != CancelledBeforeLine {
      match JobOf(net, line, defaults)
      case None =>
      case Some(job) => AnsweredGrows(pr.log, Asked(job, now, Passes(pr.log, job, now, window)), window);
    }
  }

  lemma {:induction false} IngestAnswered(net: Net, defaults: Defaults, window: Time, pr: Progress, lines: seq<string>,
                                          moments: nat -> Moment)
    requires Answered(pr.log, window)
    ensures Answered(TakeLines(net, defaults, window, pr, lines, moments).log, window)
  {
    if lines != [] {
      var n := |lines| - 1;
      IngestAnswered(net, defaults, window, pr, lines[..n], moments);
      var before := TakeLines(net, defaults, window, pr, lines[..n], moments);
      SweepsAnswerNothing(before.log, moments(n).sweeps, window);
      OfferLineAnswered(net, defaults, window, SweepAll(before, moments(n).sweeps), lines[n], moments(n).now, moments(n).turn);
    }
  }

  ghost predicate ColonFree(log: seq<Entry>) {
    forall i :: 0 <= i < |log| && log[i].Asked? ==> ':' !in log[i].job.protocol
  }

  /** The filter's guarantee, for jobs: whatever cleanups run in between and whatever they read,
      a job is turned away only because the very same job was let through less than the window
      earlier. */
  lemma RejectedJobWasSeen(log: seq<Entry>, window: Time, j: nat) returns (i: nat)
    requires Answered(log, window) && j < |log| && log[j].Asked? && !log[j].isNew
    requires ColonFree(log)
    ensures i < j && log[i].Asked? && log[i].job == log[j].job && log[i].isNew
    ensures log[j].now - log[i].now < window
  {
    i := Dedup.RejectionHasCause(Events(log), window, j);
    DedupKeyInjective(log[i].job, log[j].job);
  }

  // ----- Reading back the exporter's files -----

  /** url.Parse on the plain form scheme://host:port of the supported protocols. */
  ghost predicate ParsesPlainUrls(net: Net) {
    forall protocol, host, port: nat :: protocol in FileSets.PROTOCOLS && PlainHost(host) ==>
      net.urlParse(protocol + "://" + HostPort(host, port)) == Some(Url(protocol, HostPort(host, port)))
  }

  /** A proxy as the pipeline exports it from an IPv4 target. */
  predicate Exported(p: Exporter.Record) {
    FileSets.Supported(p) && PlainHost(p.ip) && |p.ip| <= 15 && 0 < p.port <= 65535
  }

  ghost predicate AllExported(ps: seq<Exporter.Record>) {
    forall i :: 0 <= i < |ps| ==> Exported(ps[i])
  }

  lemma TrimOfTight(s: string)
    requires s != [] && !IsSpace(s[0]) && !IsSpace(s[|s| - 1])
    ensures TrimSpace(s) == s
  {
  }

  lemma AddressText(p: Exporter.Record)
    requires Exported(p)
    ensures var s := p.Address();
            && s != [] && (IsDigit(s[0]) || s[0] == '.') && IsDigit(s[|s| - 1]) && |s| <= 21
            && ':' in s && '/' !in s && '\n' !in s && '\r' !in s && '#' != s[0]
  {
    var s, digits := p.Address(), Digits(p.port);
    assert Pow10(5) == 10 * Pow10(4) == 100 * Pow10(3) == 1000 * Pow10(2) == 10000 * Pow10(1) == 100000;
    DigitsLength(p.port, 5);
    assert s == p.ip + ":" + digits;
    assert s[|p.ip|] == ':';
    assert s[|s| - 1] == digits[|digits| - 1];
    forall c | c in s ensures c == ':' || c == '.' || IsDigit(c) {
      assert c in p.ip || c == ':' || c in digits;
    }
  }

  lemma {:induction false} NoUrlInside(s: string)
    requires '/' !in s
    ensures !Contains(s, "://")
  {
    forall i | 0 <= i <= |s| ensures !StartsAt(s, i, "://") {
      if i + 3 <= |s| {
        assert s[i..][1] == s[i + 1] != "://"[1];
      }
    }
  }

  /** A line of alive.txt is read back as its proxy, with the default protocol. */
  lemma AddressReadsBack(net: Net, defaults: Defaults, p: Exporter.Record)
    requires Exported(p)
    ensures JobOf(net, p.Address(), defaults) == Some(Job(p.ip, p.port, defaults.protocol))
  {
    var s := p.Address();
    AddressText(p);
    TrimOfTight(s);
    NoUrlInside(s);
    HostPortParses(p.ip, p.port, defaults);
    AddressLine(net, defaults, s, Job(p.ip, p.port, defaults.protocol));
  }

  lemma HostPortParses(host: string, port: nat, defaults: Defaults)
    requires PlainHost(host) && 0 < port <= 65535
    ensures ParseHostPort(HostPort(host, port), defaults) == Some(Job(host, port, defaults.protocol))
  {
    SplitOfPlainHostPort(host, port);
    AtoiOfDigits(port);
  }

  /** A tight line with no URL in it that parses as host and port is that job. */
  lemma AddressLine(net: Net, defaults: Defaults, s: string, job: Job)
    requires s != [] && s[0] != '#' && TrimSpace(s) == s && ':' in s
    requires !Contains(s, "://") && ParseHostPort(s, defaults) == Some(job)
    ensures JobOf(net, s, defaults) == Some(job)
  {
  }

  lemma ProtocolText(protocol: string)
    requires protocol in FileSets.PROTOCOLS
    ensures protocol != [] && 'h' <= protocol[0] <= 's' && |protocol| <= 7
    ensures '\n' !in protocol && '\r' !in protocol
  {
    assert protocol in {Exporter.HTTP, Exporter.HTTPS, Exporter.SOCKS4, Exporter.SOCKS4A, Exporter.SOCKS5};
  }

  lemma JoinedText(a: string, b: string, c: string, s: string)
    requires a != [] && c != [] && s == a + b + c
    ensures s != [] && s[0] == a[0] && s[|s| - 1] == c[|c| - 1] && |s| == |a| + |b| + |c|
    ensures forall x :: x in s ==> x in a || x in b || x in c
  {
  }

  lemma UrlText(p: Exporter.Record)
    requires Exported(p)
    ensures var s := p.URLString();
            && s == p.protocol + "://" + p.Address()
            && 'h' <= s[0] <= 's' && IsDigit(s[|s| - 1]) && |s| <= 31
            && '\n' !in s && '\r' !in s
  {
    AddressText(p);
    ProtocolText(p.protocol);
    UrlIsJoined(p);
    JoinedText(p.protocol, "://", p.Address(), p.URLString());
  }

  lemma UrlIsJoined(p: Exporter.Record)
    ensures p.URLString() == p.protocol + "://" + p.Address()
  {
    assert p.protocol + "://" + p.ip + ":" + Itoa(p.port) == p.protocol + "://" + (p.ip + ":" + Itoa(p.port));
  }

  lemma ProtocolsAreLower(protocol: string)
    requires protocol in FileSets.PROTOCOLS
    ensures ToLower(protocol) == protocol
  {
    assert protocol in {Exporter.HTTP, Exporter.HTTPS, Exporter.SOCKS4, Exporter.SOCKS4A, Exporter.SOCKS5};
    ToLowerKeeps(protocol);
  }

  lemma UrlParses(net: Net, defaults: Defaults, p: Exporter.Record)
    requires Exported(p) && ParsesPlainUrls(net)
    ensures ParseUrl(net, p.URLString(), defaults) == Some(Job(p.ip, p.port, p.protocol))
  {
    UrlText(p);
    assert net.urlParse(p.protocol + "://" + HostPort(p.ip, p.port)) == Some(Url(p.protocol, HostPort(p.ip, p.port)));
    AddressText(p);
    SplitOfPlainHostPort(p.ip, p.port);
    AtoiOfDigits(p.port);
    ProtocolsAreLower(p.protocol);
  }

  /** A line of alive_url.txt is read back as exactly its proxy. */
  lemma UrlReadsBack(net: Net, defaults: Defaults, p: Exporter.Record)
    requires Exported(p) && ParsesPlainUrls(net)
    ensures JobOf(net, p.URLString(), defaults) == Some(Job(p.ip, p.port, p.protocol))
  {
    var s := p.URLString();
    UrlText(p);
    TrimOfTight(s);
    UrlInside(p.protocol, p.Address());
    UrlParses(net, defaults, p);
    UrlLine(net, defaults, s, Job(p.ip, p.port, p.protocol));
  }

  lemma UrlInside(protocol: string, rest: string)
    ensures Contains(protocol + "://" + rest, "://")
  {
    var s := protocol + "://" + rest;
    assert s[|protocol|..] == "://" + rest;
    assert StartsAt(s, |protocol|, "://");
  }

  /** A tight line that parses as a URL is that job. */
  lemma UrlLine(net: Net, defaults: Defaults, s: string, job: Job)
    requires s != [] && s[0] != '#' && TrimSpace(s) == s
    requires Contains(s, "://") && ParseUrl(net, s, defaults) == Some(job)
    ensures JobOf(net, s, defaults) == Some(job)
  {
  }

  function JobOfRecord(p: Exporter.Record): Job {
    Job(p.ip, p.port, p.protocol)
  }

  function JobOfAddress(p: Exporter.Record, defaults: Defaults): Job {
    Job(p.ip, p.port, defaults.protocol)
  }

  function Fresh(): Progress {
    Progress([], 0, [], false)
  }

  lemma LineOfJob(net: Net, defaults: Defaults, window: Time, pr: Progress, line: string, job: Job, moment: Moment)
    requires !pr.cancelled && JobOf(net, line, defaults) == Some(job) && moment.turn == Live
    ensures var after := TakeLine(net, defaults, window, pr, line, moment);
      Offered(after.log) == Offered(pr.log) + [job] && !after.cancelled
  {
    var swept := SweepAll(pr, moment.sweeps);
    SweepsOfferNothing(pr.log, moment.sweeps);
    LogGrows(swept.log, Asked(job, moment.now, Passes(swept.log, job, moment.now, window)));
  }

  /** What has been done when the first `i` lines are read. */
  function Taken(net: Net, defaults: Defaults, window: Time, lines: seq<string>, moments: nat -> Moment): nat -> Progress {
    (i: nat) => TakeLines(net, defaults, window, Fresh(), if i <= |lines| then lines[..i] else lines, moments)
  }

  lemma {:induction false} OneJobEach(taken: nat -> Progress, jobs: seq<Job>, n: nat)
    requires n <= |jobs| && taken(0) == Fresh()
    requires forall i: nat :: i < |jobs| && !taken(i).cancelled ==>
      Offered(taken(i + 1).log) == Offered(taken(i).log) + [jobs[i]] && !taken(i + 1).cancelled
    ensures Offered(taken(n).log) == jobs[..n] && !taken(n).cancelled
  {
    if n > 0 {
      OneJobEach(taken, jobs, n - 1);
      Prefix(jobs, n - 1);
    }
  }

  lemma NextJob(net: Net, defaults: Defaults, window: Time, lines: seq<string>, job: Job, moments: nat -> Moment, i: nat)
    requires i < |lines| && JobOf(net, lines[i], defaults) == Some(job) && moments(i).turn == Live
    requires !Taken(net, defaults, window, lines, moments)(i).cancelled
    ensures var taken := Taken(net, defaults, window, lines, moments);
      Offered(taken(i + 1).log) == Offered(taken(i).log) + [job] && !taken(i + 1).cancelled
  {
    TakeLinesNext(net, defaults, window, Fresh(), lines, i, moments);
    LineOfJob(net, defaults, window, Taken(net, defaults, window, lines, moments)(i), lines[i], job, moments(i));
  }

  /** If every line is a job's, ingestion offers exactly those jobs, in order. */
  lemma LinesOfJobs(net: Net, defaults: Defaults, window: Time, lines: seq<string>, jobs: seq<Job>, moments: nat -> Moment)
    requires |lines| == |jobs| && forall i :: moments(i).turn == Live
    requires forall i :: 0 <= i < |lines| ==> JobOf(net, lines[i], defaults) == Some(jobs[i])
    ensures var pr := TakeLines(net, defaults, window, Fresh(), lines, moments);
            Offered(pr.log) == jobs && !pr.cancelled
  {
    var taken := Taken(net, defaults, window, lines, moments);
    forall i: nat | i < |jobs| && !taken(i).cancelled
      ensures Offered(taken(i + 1).log) == Offered(taken(i).log) + [jobs[i]] && !taken(i + 1).cancelled
    {
      NextJob(net, defaults, window, lines, jobs[i], moments, i);
    }
    OneJobEach(taken, jobs, |jobs|);
    assert lines[..|lines|] == lines && jobs[..|jobs|] == jobs;
  }

  /** The jobs of the lines that are one. */
  function JobsIn(net: Net, defaults: Defaults, lines: seq<string>): seq<Job> {
    if lines == [] then []
    else
      var n := |lines| - 1;
      JobsIn(net, defaults, lines[..n]) + match JobOf(net, lines[n], defaults) case Some(job) => [job] case None => []
  }

  lemma NextLine(net: Net, defaults: Defaults, window: Time, pr: Progress, line: string, moment: Moment)
    requires !pr.cancelled && moment.turn == Live
    ensures var after := TakeLine(net, defaults, window, pr, line, moment);
      !after.cancelled
      && Offered(after.log) == Offered(pr.log) + match JobOf(net, line, defaults) case Some(job) => [job] case None => []
  {
    match JobOf(net, line, defaults)
    case None =>
      SweepsOfferNothing(pr.log, moment.sweeps);
      assert Offered(pr.log) + [] == Offered(pr.log);
    case Some(job) => LineOfJob(net, defaults, window, pr, line, job, moment);
  }

  /** A cancellation seen before a line leaves the line alone; one seen at the push leaves a new job
      counted and not pushed, and passes by a line that has none. */
  lemma CancellationStops(net: Net, defaults: Defaults, window: Time, pr: Progress, line: string, moment: Moment)
    requires !pr.cancelled
    ensures var after := TakeLine(net, defaults, window, pr, line, moment);
      && (moment.turn == CancelledBeforeLine ==>
            after.cancelled && after.queued == pr.queued && after.sent == pr.sent && Offered(after.log) == Offered(pr.log))
      && (moment.turn == CancelledBeforePush ==>
            after.sent == pr.sent && (after.cancelled <==> after.queued == pr.queued + 1)
            && (!after.cancelled ==> after.queued == pr.queued))
      && (moment.turn == Live ==> !after.cancelled)
  {
    SweepsOfferNothing(pr.log, moment.sweeps);
  }

  /** Of any input, uncancelled, the filter is asked about exactly the jobs of its lines, in
      order. */
  lemma {:induction false} AllJobsAreOffered(net: Net, defaults: Defaults, window: Time, lines: seq<string>,
                                             moments: nat -> Moment)
    requires forall i :: moments(i).turn == Live
    ensures var pr := TakeLines(net, defaults, window, Fresh(), lines, moments);
      Offered(pr.log) == JobsIn(net, defaults, lines) && !pr.cancelled
  {
    if lines != [] {
      var n := |lines| - 1;
      AllJobsAreOffered(net, defaults, window, lines[..n], moments);
      NextLine(net, defaults, window, TakeLines(net, defaults, window, Fresh(), lines[..n], moments), lines[n], moments(n));
    }
  }

  /** The jobs read back from a file of given lines, and what is kept of them. */
  ghost predicate ReadsBack(net: Net, defaults: Defaults, window: Time, content: string, jobs: seq<Job>,
                            moments: nat -> Moment)
  {
    var pr := TakeLines(net, defaults, window, Fresh(), Scan(content).0, moments);
    && !Scan(content).1
    && Offered(pr.log) == jobs
    && pr.sent == Kept(pr.log)
    && Answered(pr.log, window)
  }

  lemma RenderedJobsReadBack(net: Net, defaults: Defaults, window: Time, lines: seq<string>, jobs: seq<Job>,
                             moments: nat -> Moment)
    requires |lines| == |jobs| && forall i :: moments(i).turn == Live
    requires forall i :: 0 <= i < |lines| ==> PlainLine(lines[i]) && JobOf(net, lines[i], defaults) == Some(jobs[i])
    ensures ReadsBack(net, defaults, window, Render(lines), jobs, moments)
  {
    ScanOfRender(lines);
    LinesOfJobs(net, defaults, window, lines, jobs, moments);
    IngestAccounted(net, defaults, window, Fresh(), lines, moments);
    IngestAnswered(net, defaults, window, Fresh(), lines, moments);
  }

  /** Re-ingest: what WriteAlive has written to alive_url.txt is read back, whatever cleanups of
      the filter fall in between, as exactly the original jobs, in order; those pushed are the
      ones the filter lets pass. */
  lemma AliveUrlRoundTrip(net: Net, defaults: Defaults, window: Time, cfg: Exporter.Config, ps: seq<Exporter.Record>,
                          moments: nat -> Moment)
    requires ParsesPlainUrls(net) && AllExported(ps) && forall i :: moments(i).turn == Live
    ensures ReadsBack(net, defaults, window, Exporter.Content(FileSets.WriteEach(cfg, map[], ps), "alive_url.txt"),
                      seq(|ps|, i requires 0 <= i < |ps| => JobOfRecord(ps[i])), moments)
  {
    var lines := FileSets.Lines(ps, (p: Exporter.Record) => p.URLString());
    FileSets.AliveUrlContent(cfg, ps);
    FileSets.LinesAt(ps, (p: Exporter.Record) => p.URLString());
    var jobs := seq(|ps|, i requires 0 <= i < |ps| => JobOfRecord(ps[i]));
    forall i | 0 <= i < |ps| ensures PlainLine(lines[i]) && JobOf(net, lines[i], defaults) == Some(jobs[i]) {
      UrlText(ps[i]);
      UrlReadsBack(net, defaults, ps[i]);
    }
    RenderedJobsReadBack(net, defaults, window, lines, jobs, moments);
  }

  /** The same for alive.txt, with the default protocol in place of the original. */
  lemma AliveRoundTrip(net: Net, defaults: Defaults, window: Time, cfg: Exporter.Config, ps: seq<Exporter.Record>,
                       moments: nat -> Moment)
    requires AllExported(ps) && forall i :: moments(i).turn == Live
    ensures ReadsBack(net, defaults, window, Exporter.Content(FileSets.WriteEach(cfg, map[], ps), "alive.txt"),
                      seq(|ps|, i requires 0 <= i < |ps| => JobOfAddress(ps[i], defaults)), moments)
  {
    var lines := FileSets.Lines(ps, (p: Exporter.Record) => p.Address());
    FileSets.AliveContent(cfg, ps);
    FileSets.LinesAt(ps, (p: Exporter.Record) => p.Address());
    var jobs := seq(|ps|, i requires 0 <= i < |ps| => JobOfAddress(ps[i], defaults));
    forall i | 0 <= i < |ps| ensures PlainLine(lines[i]) && JobOf(net, lines[i], defaults) == Some(jobs[i]) {
      AddressText(ps[i]);
      AddressReadsBack(net, defaults, ps[i]);
    }
    RenderedJobsReadBack(net, defaults, window, lines, jobs, moments);
  }

  function JobOfBare(s: string, defaults: Defaults): Job {
    Job(s, if defaults.port <= 0 then 8080 else defaults.port, defaults.protocol)
  }

  /** A file of addresses alone is read as exactly these, in order, with the default port and
      protocol. */
  lemma AddressesReadBack(net: Net, defaults: Defaults, window: Time, lines: seq<string>, moments: nat -> Moment)
    requires forall i :: moments(i).turn == Live
    requires forall i :: 0 <= i < |lines| ==>
      PlainLine(lines[i]) && Line(lines[i]) && net.isIP(lines[i]) && ':' !in lines[i]
    ensures ReadsBack(net, defaults, window, Render(lines),
                      seq(|lines|, i requires 0 <= i < |lines| => JobOfBare(lines[i], defaults)), moments)
  {
    var jobs := seq(|lines|, i requires 0 <= i < |lines| => JobOfBare(lines[i], defaults));
    forall i | 0 <= i < |lines| ensures PlainLine(lines[i]) && JobOf(net, lines[i], defaults) == Some(jobs[i]) {
      BareAddress(net, lines[i], defaults);
    }
    RenderedJobsReadBack(net, defaults, window, lines, jobs, moments);
  }

  lemma {:induction false} OfferedHas(log: seq<Entry>, i: nat)
    requires i < |log| && log[i].Asked?
    ensures log[i].job in Offered(log)
  {
    if i < |log| - 1 { OfferedHas(log[..|log| - 1], i); }
  }

  lemma AnsweredPrefix(log: seq<Entry>, window: Time)
    requires log != [] && Answered(log, window)
    ensures Answered(log[..|log| - 1], window)
  {
    var before := log[..|log| - 1];
    forall i | 0 <= i < |before| && before[i].Asked?
      ensures before[i].isNew == Dedup.Accepted(Events(before), window, i)
    {
      AcceptedIsPasses(before, window, i);
      AcceptedIsPasses(log, window, i);
      assert before[..i] == log[..i];
    }
  }

  predicate Distinct(jobs: seq<Job>) {
    forall i, j :: 0 <= i < j < |jobs| ==> jobs[i] != jobs[j]
  }

  lemma DistinctInit(jobs: seq<Job>, job: Job)
    requires Distinct(jobs + [job])
    ensures Distinct(jobs) && job !in jobs
  {
    var all := jobs + [job];
    forall i | 0 <= i < |jobs| ensures jobs[i] != job {
      assert all[i] != all[|jobs|];
    }
    forall i, j | 0 <= i < j < |jobs| ensures jobs[i] != jobs[j] {
      assert all[i] != all[j];
    }
  }

  /** When no two of the jobs are the same, the filter lets all of them pass. */
  lemma {:induction false} DistinctJobsAllPass(log: seq<Entry>, window: Time)
    requires Answered(log, window)
    requires ColonFree(log) && Distinct(Offered(log))
    ensures Kept(log) == Offered(log)
  {
    if log != [] {
      var n := |log| - 1;
      var before := log[..n];
      if log[n].Asked? {
        DistinctInit(Offered(before), log[n].job);
      } else {
        assert Offered(log) == Offered(before);
      }
      AnsweredPrefix(log, window);
      DistinctJobsAllPass(before, window);
      if log[n].Asked? && !log[n].isNew {
        var i := RejectedJobWasSeen(log, window, n);
        OfferedHas(before, i);
      }
    }
  }
}
