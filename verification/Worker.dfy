/** What a pipeline worker does with one job (pkg/pipeline/pipeline.go, processJob): the
    check, the counters, the files and the store. */
module Worker {
  import opened PipelineRun
  import opened Text
  import Checker
  import Exporter
  import FileSets
  import Ingest
  import Rows
  import Score
  import Stats
  import Store
  import StoreProtocol

  /** The protocols as they are written in files and rows. */
  function ProtocolName(p: Protocol): string {
    match p
    case HTTP => Exporter.HTTP
    case HTTPS => Exporter.HTTPS
    case SOCKS4 => Exporter.SOCKS4
    case SOCKS4A => Exporter.SOCKS4A
    case SOCKS5 => Exporter.SOCKS5
    case OtherProtocol => "unknown"
  }

  /** What a job's protocol string asks of the check. */
  function AskedBy(protocol: string): Checker.Asked {
    if protocol == "" || protocol == "unknown" then Checker.Detect
    else if protocol == Exporter.HTTP then Checker.Specific(HTTP)
    else if protocol == Exporter.HTTPS then Checker.Specific(HTTPS)
    else if protocol == Exporter.SOCKS4 then Checker.Specific(SOCKS4)
    else if protocol == Exporter.SOCKS4A then Checker.Specific(SOCKS4A)
    else if protocol == Exporter.SOCKS5 then Checker.Specific(SOCKS5)
    else Checker.Specific(OtherProtocol)
  }

  function AnonymityName(a: Anonymity): string {
    match a
    case Elite => Exporter.ELITE
    case Anonymous => "anonymous"
    case Transparent => "transparent"
    case UnknownAnonymity => "unknown"
  }

  /** time.Duration.Milliseconds, which truncates. */
  function Milliseconds(d: int): int {
    if d >= 0 then d / 1_000_000 else -(-d / 1_000_000)
  }

  /** Of a duration in nanoseconds the whole milliseconds, whatever its sign. */
  lemma MillisecondsTruncate(d: int, ms: int)
    requires d >= 0
    ensures Milliseconds(d) == ms <==> 1_000_000 * ms <= d < 1_000_000 * (ms + 1)
    ensures Milliseconds(-d) == -Milliseconds(d)
  {
  }

  /** The fields the score reads of a proxy just found, `idle` hours after it was. */
  function Scored(r: Checker.CheckResult, idle: real): Score.Record {
    Score.Record(Milliseconds(r.latency), r.result.anonymity, r.result.protocol, r.ssl, 0, 1, 0, Some(idle), r.judges)
  }

  function RecordOf(job: Ingest.Job, r: Checker.CheckResult, score: int): Exporter.Record {
    Exporter.Record(job.ip, job.port, ProtocolName(r.result.protocol), AnonymityName(r.result.anonymity),
                    r.result.country, Milliseconds(r.latency), score, true)
  }

  function KeyOf(job: Ingest.Job, r: Checker.CheckResult): Rows.Key {
    Rows.Key(job.ip, job.port, ProtocolName(r.result.protocol))
  }

  function RowOf(r: Checker.CheckResult, net: Checker.Answers, score: int, seen: Rows.Time): Rows.Row {
    StoreProtocol.PipelineRow(
      Rows.Info(AnonymityName(r.result.anonymity), net.location.country, r.result.country, net.location.city,
                net.location.asn, net.location.org, Milliseconds(r.latency), r.ssl, false, score),
      seen)
  }

  /** The values a new proxy is stored with, column by column. */
  predicate StoredNew(row: Rows.Row, r: Checker.CheckResult, net: Checker.Answers, score: int, seen: Rows.Time) {
    && Rows.PipelineInsert(row) && row.consecutiveFail == 0 && row.uptime == 0.0
    && row.firstSeen == seen && row.lastAlive == seen
    && Measured(row.info, r, net, score)
  }

  predicate Measured(info: Rows.Info, r: Checker.CheckResult, net: Checker.Answers, score: int) {
    && info.latencyMs == Milliseconds(r.latency) && info.score == score && info.ssl == r.ssl && !info.targetOk
    && info.countryCode == r.result.country && info.country == net.location.country
    && info.city == net.location.city && info.asn == net.location.asn && info.org == net.location.org
    && (info.anonymity == "elite" <==> r.result.anonymity == Elite)
    && (info.anonymity == "anonymous" <==> r.result.anonymity == Anonymous)
    && (info.anonymity == "transparent" <==> r.result.anonymity == Transparent)
  }

  predicate KeyFor(key: Rows.Key, job: Ingest.Job, r: Checker.CheckResult) {
    key.ip == job.ip && key.port == job.port
    && (WellFormed(r.result) && r.result.success ==> AskedBy(key.protocol) == Checker.Specific(r.result.protocol))
  }

  /** What a success leaves in the table when there is no room in the queue: a new row counts one
      success, an old one one more. */
  predicate SavedAtOnce(row: Rows.Row, before: Rows.Table, key: Rows.Key, now: Rows.Time) {
    && row.alive && row.consecutiveFail == 0 && row.lastAlive == now && row.lastChecked == now
    && (if key in before then row.success == before[key].success + 1 && row.failed == before[key].failed
        else row.success == 1 && row.failed == 0)
  }

  /** Hands a new proxy to the store. */
  method SaveNew(key: Rows.Key, row: Rows.Row, now: Rows.Time, store: Store.SQLiteStore)
    modifies store
    ensures |old(store.batchChan)| < Rows.CAPACITY ==>
      && |store.batchChan| == |old(store.batchChan)| + 1
      && old(store.batchChan) <= store.batchChan && store.table == old(store.table)
      && var p := store.batchChan[|old(store.batchChan)|]; fresh(p) && p.key == key && p.Value() == row
    ensures |old(store.batchChan)| >= Rows.CAPACITY ==>
      && store.batchChan == old(store.batchChan)
      && store.table == Rows.Upsert(old(store.table), Rows.Commit(key, Rows.Stamp(row, now)))
      && key in store.table && Rows.WrittenAt(store.table[key], old(store.table), key, row, now)
  {
    var proxy := new Store.Proxy(key, row);
    store.SaveOrUpdateProxy(proxy, now);
  }

  /** Hands a proxy just found to the store: one success, and what the check measured. */
  method SaveFound(job: Ingest.Job, check: Checker.CheckResult, net: Checker.Answers, score: int, seen: Rows.Time,
                   now: Rows.Time, store: Store.SQLiteStore)
    modifies store
    ensures |old(store.batchChan)| < Rows.CAPACITY ==>
      && |store.batchChan| == |old(store.batchChan)| + 1
      && old(store.batchChan) <= store.batchChan && store.table == old(store.table)
      && var p := store.batchChan[|old(store.batchChan)|];
         fresh(p) && p.key == KeyOf(job, check) && p.Value() == RowOf(check, net, score, seen)
         && KeyFor(p.key, job, check) && StoredNew(p.Value(), check, net, score, seen)
    ensures |old(store.batchChan)| >= Rows.CAPACITY ==>
      && store.batchChan == old(store.batchChan)
      && store.table == Rows.Upsert(old(store.table),
           Rows.Commit(KeyOf(job, check), Rows.Stamp(RowOf(check, net, score, seen), now)))
      && var key := KeyOf(job, check);
         KeyFor(key, job, check) && key in store.table && Measured(store.table[key].info, check, net, score)
         && SavedAtOnce(store.table[key], old(store.table), key, now)
  {
    KeyOfFits(job, check);
    RowOfFits(check, net, score, seen);
    SaveNew(KeyOf(job, check), RowOf(check, net, score, seen), now, store);
  }

  /** One job from check to store.  A failure is counted and leaves files and store alone; a
      success is counted once at every level, appended to every file it belongs to, and
      accepted by the store as a row with one success; and it can be read in again. */
  method ProcessJob(
    job: Ingest.Job, fastFail: bool, net: Checker.Answers, curves: Score.Curves, idle: real,
    seen: Rows.Time, now: Rows.Time,
    stats: Stats.Stats, exporter: Exporter.Exporter?, store: Store.SQLiteStore?)
    returns (check: Checker.CheckResult, score: int)
    requires curves.log(51.0) > 0.0
    modifies stats, exporter, store
    ensures stats.Value() == Stats.Recorded(old(stats.Value()), check.result)
    ensures net.location.code != "" ==> WellFormed(check.result)
    ensures check.result.success ==> score == Score.ScoreOf(curves, Scored(check, idle)) && 0 <= score <= 100
    ensures exporter != null ==>
      exporter.disk == if check.result.success
        then Exporter.AppendAll(old(exporter.disk), FileSets.Written(exporter.cfg, RecordOf(job, check, score)))
        else old(exporter.disk)
    ensures store != null && !check.result.success ==>
      store.table == old(store.table) && store.batchChan == old(store.batchChan)
    ensures store != null && check.result.success && |old(store.batchChan)| < Rows.CAPACITY ==>
      && |store.batchChan| == |old(store.batchChan)| + 1
      && old(store.batchChan) <= store.batchChan && store.table == old(store.table)
      && var p := store.batchChan[|old(store.batchChan)|];
         fresh(p) && p.key == KeyOf(job, check) && p.Value() == RowOf(check, net, score, seen)
         && KeyFor(p.key, job, check) && StoredNew(p.Value(), check, net, score, seen)
    ensures store != null && check.result.success && |old(store.batchChan)| >= Rows.CAPACITY ==>
      && store.batchChan == old(store.batchChan)
      && store.table == Rows.Upsert(old(store.table),
           Rows.Commit(KeyOf(job, check), Rows.Stamp(RowOf(check, net, score, seen), now)))
      && var key := KeyOf(job, check);
         KeyFor(key, job, check) && key in store.table && Measured(store.table[key].info, check, net, score)
         && SavedAtOnce(store.table[key], old(store.table), key, now)
  {
    score := 0;
    check := Checker.CheckIPPort(AskedBy(job.protocol), job.port, fastFail, net);
    stats.RecordResult(check.result);
    if check.result.success {
      score := Score.CalculateScore(curves, Scored(check, idle));
      if exporter != null {
        exporter.WriteAlive(RecordOf(job, check, score));
      }
      if store != null {
        SaveFound(job, check, net, score, seen, now, store);
      }
    }
  }

  lemma KeyOfFits(job: Ingest.Job, r: Checker.CheckResult)
    ensures KeyFor(KeyOf(job, r), job, r)
  {
  }

  lemma RowOfFits(r: Checker.CheckResult, net: Checker.Answers, score: int, seen: Rows.Time)
    ensures StoredNew(RowOf(r, net, score, seen), r, net, score, seen)
  {
  }

  /** What the score of a proxy just found is made of: neither failures nor history count yet. */
  lemma FreshScore(c: Score.Curves, r: Checker.CheckResult, idle: real)
    requires c.log(51.0) > 0.0 && r.judges <= 1
    ensures Score.ScoreOf(c, Scored(r, idle)) == Score.Clamped(
      100.0 - Score.LatencyPenalty(c, Milliseconds(r.latency)) + Score.AnonymityBonus(r.result.anonymity)
      + Score.ProtocolBonus(r.result.protocol) + (if r.ssl then 6.0 else 0.0) - Score.IdlePenalty(c, Some(idle)))
  {
  }

  /** The files that a check's measurements decide, with the latency in nanoseconds. */
  lemma MeasurementsFile(cfg: Exporter.Config, job: Ingest.Job, r: Checker.CheckResult, score: int)
    requires r.result.protocol != OtherProtocol
    ensures var p := RecordOf(job, r, score);
      var lines := (file: string) => Exporter.LinesFor(Exporter.Emissions(cfg, p), file);
      && lines("alive.txt") == [HostPort(job.ip, job.port)]
      && lines("elite.txt") == FileSets.One(r.result.anonymity == Elite, HostPort(job.ip, job.port))
      && lines("fast.txt") == FileSets.One(1_000_000 <= r.latency < 501_000_000, HostPort(job.ip, job.port))
      && lines("high_quality.txt") == FileSets.One(score >= 80, HostPort(job.ip, job.port))
  {
    var p := RecordOf(job, r, score);
    NamesAreProtocols(r.result.protocol);
    FileSets.FixedFile(cfg, p, 0);
    FileSets.FixedFile(cfg, p, 3);
    FileSets.FixedFile(cfg, p, 5);
    FileSets.FixedFile(cfg, p, 6);
  }

  /** The country file that a check's location decides. */
  lemma CountryFiles(cfg: Exporter.Config, job: Ingest.Job, r: Checker.CheckResult, score: int, code: string)
    requires r.result.protocol != OtherProtocol && '_' !in code
    ensures Exporter.LinesFor(Exporter.Emissions(cfg, RecordOf(job, r, score)), "countries/" + code + ".txt")
      == FileSets.One(cfg.splitByCountry && r.result.country == code && code != "" && code != "XX",
                      HostPort(job.ip, job.port))
  {
    NamesAreProtocols(r.result.protocol);
    FileSets.OneCountryFile(cfg, RecordOf(job, r, score), code);
  }

  /** What a worker exports of an IPv4 target is read back by the ingester as that target
      with the protocol that was found. */
  lemma ExportedIsReadBack(net: Ingest.Net, defaults: Ingest.Defaults, job: Ingest.Job, r: Checker.CheckResult, score: int)
    requires Ingest.ParsesPlainUrls(net)
    requires WellFormed(r.result) && r.result.success
    requires PlainHost(job.ip) && |job.ip| <= 15 && 0 < job.port <= 65535
    ensures Ingest.JobOf(net, RecordOf(job, r, score).URLString(), defaults)
      == Some(Ingest.Job(job.ip, job.port, ProtocolName(r.result.protocol)))
    ensures Ingest.JobOf(net, RecordOf(job, r, score).Address(), defaults)
      == Some(Ingest.Job(job.ip, job.port, defaults.protocol))
  {
    NamesAreProtocols(r.result.protocol);
    Ingest.UrlReadsBack(net, defaults, RecordOf(job, r, score));
    Ingest.AddressReadsBack(net, defaults, RecordOf(job, r, score));
  }

  lemma NamesAreProtocols(p: Protocol)
    ensures p != OtherProtocol ==> ProtocolName(p) in FileSets.PROTOCOLS
  {
    var names := FileSets.PROTOCOLS;
    assert names[0] in names && names[1] in names && names[2] in names && names[3] in names && names[4] in names;
  }

  /** The name of a protocol asks for exactly that protocol: what was found is what a
      recheck or a second ingestion checks. */
  lemma NameAsksForIt(p: Protocol)
    requires p != OtherProtocol
    ensures AskedBy(ProtocolName(p)) == Checker.Specific(p)
  {
  }

  /** What a job's protocol asks for: detection without one, the protocol of that name, and
      nothing that is ever probed for any other text. */
  lemma AskedFor(protocol: string)
    ensures AskedBy(protocol).Detect? <==> protocol == "" || protocol == "unknown"
    ensures AskedBy(protocol) == Checker.Specific(HTTP) <==> protocol == "http"
    ensures AskedBy(protocol) == Checker.Specific(HTTPS) <==> protocol == "https"
    ensures AskedBy(protocol) == Checker.Specific(SOCKS4) <==> protocol == "socks4"
    ensures AskedBy(protocol) == Checker.Specific(SOCKS4A) <==> protocol == "socks4a"
    ensures AskedBy(protocol) == Checker.Specific(SOCKS5) <==> protocol == "socks5"
  {
  }
}
