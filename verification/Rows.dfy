/** The proxies table and the upsert statement of pkg/storage/sqlite.go: what one
    commit does to a row, what a purge removes, and what a row therefore says
    about the commits that made it. */
module Rows {

  /** An instant.  ZERO_TIME stands for Go's zero time.Time. */
  type Time = int

  const ZERO_TIME: Time := 0

  /** Room in the store's queue, and the size of a full batch. */
  const CAPACITY: nat := 50000
  const BATCH_SIZE: nat := 200

  /** The columns of the table's UNIQUE constraint. */
  datatype Key = Key(ip: string, port: int, protocol: string)

  /** The columns that every upsert overwrites. */
  datatype Info = Info(
    anonymity: string, country: string, countryCode: string, city: string, asn: string, org: string,
    latencyMs: int, ssl: bool, targetOk: bool, score: int)

  /** One row, and equally the values an upsert binds (SQL's `excluded`).  The
      counters are naturals: every writer starts from 0 or 1 and only adds. */
  datatype Row = Row(
    info: Info, success: nat, failed: nat, consecutiveFail: nat, uptime: real,
    lastAlive: Time, lastChecked: Time, firstSeen: Time, alive: bool)

  type Table = map<Key, Row>

  /** One executed upsert: the key and the bound values. */
  datatype Commit = Commit(key: Key, row: Row)

  /** What happens to the table: an upsert, or a purge with its two bounds. */
  datatype Event = Upserted(commit: Commit) | Purged(maxFail: int, cutoff: Time)

  /** SQLite's ROUND(x, 2) for x >= 0: to the nearest hundredth, halves up. */
  function Round2(x: real): real {
    (x * 100.0 + 0.5).Floor as real / 100.0
  }

  function AliveUnit(row: Row): nat {
    if row.alive then 1 else 0
  }

  function DeadUnit(row: Row): nat {
    if row.alive then 0 else 1
  }

  /** The DO UPDATE branch of the upsert. */
  function Merge(stored: Row, excluded: Row): Row {
    Row(
      excluded.info,
      stored.success + AliveUnit(excluded),
      stored.failed + DeadUnit(excluded),
      if excluded.alive then 0 else stored.consecutiveFail + 1,
      Round2((stored.success + AliveUnit(excluded)) as real / (stored.success + stored.failed + 1) as real * 100.0),
      if excluded.alive then excluded.lastAlive else stored.lastAlive,
      excluded.lastChecked,
      stored.firstSeen,
      excluded.alive)
  }

  /** INSERT ... ON CONFLICT(ip, port, protocol) DO UPDATE. */
  function Upsert(t: Table, c: Commit): Table {
    t[c.key := if c.key in t then Merge(t[c.key], c.row) else c.row]
  }

  /** The WHERE clause of the purge. */
  predicate Purgeable(row: Row, maxFail: int, cutoff: Time) {
    !row.alive && (row.consecutiveFail >= maxFail || row.lastAlive < cutoff)
  }

  function Purge(t: Table, maxFail: int, cutoff: Time): Table {
    map k | k in t && !Purgeable(t[k], maxFail, cutoff) :: t[k]
  }

  function Happen(t: Table, e: Event): Table {
    match e
    case Upserted(c) => Upsert(t, c)
    case Purged(maxFail, cutoff) => Purge(t, maxFail, cutoff)
  }

  /** The table after a whole run of events, oldest first. */
  function Replay(t: Table, events: seq<Event>): Table {
    if events == [] then t else Happen(Replay(t, events[..|events| - 1]), events[|events| - 1])
  }

  /** The table after a run of commits, oldest first. */
  function Commits(t: Table, log: seq<Commit>): Table {
    if log == [] then t else Upsert(Commits(t, log[..|log| - 1]), log[|log| - 1])
  }

  /** The values a commit binds at `now`: both commit paths stamp the proxy first. */
  function Stamp(row: Row, now: Time): Row {
    row.(firstSeen := if row.firstSeen == ZERO_TIME then now else row.firstSeen,
         lastChecked := now,
         lastAlive := if row.alive then now else row.lastAlive)
  }

  // ----- What a commit path writes, column by column -----

  /** `row` is what a commit path at `now` leaves of the values `bound`, over the row `before` if
      there was one. */
  predicate WrittenAt(row: Row, before: Table, key: Key, bound: Row, now: Time) {
    && row.info == bound.info && row.alive == bound.alive && row.lastChecked == now
    && (if key in before then
          && row.lastAlive == (if bound.alive then now else before[key].lastAlive)
          && row.firstSeen == before[key].firstSeen
          && row.success == before[key].success + (if bound.alive then 1 else 0)
          && row.failed == before[key].failed + (if bound.alive then 0 else 1)
          && row.consecutiveFail == (if bound.alive then 0 else before[key].consecutiveFail + 1)
        else
          && row.lastAlive == (if bound.alive then now else bound.lastAlive)
          && row.firstSeen == (if bound.firstSeen == ZERO_TIME then now else bound.firstSeen)
          && row.success == bound.success && row.failed == bound.failed
          && row.consecutiveFail == bound.consecutiveFail && row.uptime == bound.uptime)
  }

  /** One commit writes its own row so, and no other. */
  lemma StampedUpsert(t: Table, key: Key, bound: Row, now: Time)
    ensures var after := Upsert(t, Commit(key, Stamp(bound, now)));
      && key in after && WrittenAt(after[key], t, key, bound, now)
      && (forall k :: k != key ==> (k in after <==> k in t) && (k in t ==> after[k] == t[k]))
  {
  }

  // ----- What a row remembers of its commits -----

  /** The values committed for `k` since the row was last absent; a row that was
      already in `t` stands for its own insert. */
  function History(t: Table, events: seq<Event>, k: Key): seq<Row> {
    if events == [] then
      if k in t then [t[k]] else []
    else
      var before := events[..|events| - 1];
      var earlier := History(t, before, k);
      match events[|events| - 1]
      case Upserted(c) => if c.key == k then earlier + [c.row] else earlier
      case Purged(maxFail, cutoff) =>
        if k in Replay(t, before) && Purgeable(Replay(t, before)[k], maxFail, cutoff) then [] else earlier
  }

  /** The exact success percentage. */
  function Percent(success: nat, failed: nat): real
    requires success + failed > 0
  {
    success as real / (success + failed) as real * 100.0
  }

  function CountAlive(h: seq<Row>): nat {
    if h == [] then 0 else CountAlive(h[..|h| - 1]) + AliveUnit(h[|h| - 1])
  }

  /** Position of the latest alive commit after the insert, or 0 for the insert itself. */
  function LatestAlive(h: seq<Row>): (i: nat)
    requires h != []
    ensures i < |h|
    ensures i > 0 ==> h[i].alive
    ensures forall j :: i < j < |h| ==> !h[j].alive
  {
    if |h| == 1 || h[|h| - 1].alive then |h| - 1 else LatestAlive(h[..|h| - 1])
  }

  /** `row` is what the table must hold after the commits `h`, said without the upsert. */
  ghost predicate Summarizes(row: Row, h: seq<Row>)
    requires h != []
  {
    var n := |h|;
    var i := LatestAlive(h);
    && row.info == h[n - 1].info
    && row.alive == h[n - 1].alive
    && row.lastChecked == h[n - 1].lastChecked
    && row.firstSeen == h[0].firstSeen
    && row.success == h[0].success + CountAlive(h[1..])
    && row.failed == h[0].failed + (n - 1 - CountAlive(h[1..]))
    && row.lastAlive == h[i].lastAlive
    && row.consecutiveFail == n - 1 - i + (if i == 0 then h[0].consecutiveFail else 0)
    && row.uptime == if n == 1 then h[0].uptime
                     else Round2(Percent(row.success, row.failed))
  }

  lemma CountAliveBound(h: seq<Row>)
    ensures CountAlive(h) <= |h|
  {
  }

  lemma OneMoreCounted(h: seq<Row>, c: Row)
    requires h != []
    ensures CountAlive((h + [c])[1..]) == CountAlive(h[1..]) + AliveUnit(c)
    ensures CountAlive(h[1..]) <= |h| - 1
  {
    assert (h + [c])[1..] == h[1..] + [c];
    assert (h[1..] + [c])[..|h| - 1] == h[1..];
    CountAliveBound(h[1..]);
  }

  lemma OneMoreAlive(h: seq<Row>, c: Row)
    requires h != []
    ensures LatestAlive(h + [c]) == if c.alive then |h| else LatestAlive(h)
  {
    assert (h + [c])[..|h|] == h;
  }

  lemma {:induction false} MergeSummarizes(row: Row, h: seq<Row>, c: Row)
    requires h != [] && Summarizes(row, h)
    ensures Summarizes(Merge(row, c), h + [c])
  {
    OneMoreCounted(h, c);
    OneMoreAlive(h, c);
  }

  /** A row is a function of its commit history, over every run of upserts and purges. */
  lemma {:induction false} RowIsItsHistory(t: Table, events: seq<Event>, k: Key)
    ensures k in Replay(t, events) <==> History(t, events, k) != []
    ensures k in Replay(t, events) ==> Summarizes(Replay(t, events)[k], History(t, events, k))
  {
    if events == [] {
    } else {
      var before := events[..|events| - 1];
      RowIsItsHistory(t, before, k);
      match events[|events| - 1]
      case Upserted(c) =>
        if c.key == k && k in Replay(t, before) {
          MergeSummarizes(Replay(t, before)[k], History(t, before, k), c.row);
        }
      case Purged(maxFail, cutoff) =>
    }
  }

  lemma PositiveTimes(x: real, n: real)
    requires x > 0.0 && n > 0.0
    ensures x * n > 0.0
  {
  }

  lemma RateInRange(s: real, n: real)
    requires 0.0 <= s <= n && n > 0.0
    ensures 0.0 <= s / n <= 1.0
  {
    var q := s / n;
    assert q * n == s;
    assert (q - 1.0) * n == s - n && (-q) * n == -s;
    if q > 1.0 {
      PositiveTimes(q - 1.0, n);
    } else if q < 0.0 {
      PositiveTimes(-q, n);
    }
  }

  lemma WholeHundredths(k: int)
    ensures (k as real / 100.0 * 100.0).Floor == k
  {
    assert k as real / 100.0 * 100.0 == k as real;
  }

  /** Rounding a rate leaves it in range, within half a hundredth, and with two places. */
  lemma UptimeBounds(s: nat, f: nat)
    requires s + f > 0
    ensures 0.0 <= Round2(Percent(s, f)) <= 100.0
    ensures -0.005 < Round2(Percent(s, f)) - Percent(s, f) <= 0.005
    ensures Round2(Percent(s, f)) == (Round2(Percent(s, f)) * 100.0).Floor as real / 100.0
  {
    WholeHundredths((Percent(s, f) * 100.0 + 0.5).Floor);
    RateInRange(s as real, (s + f) as real);
    assert 0.0 <= Percent(s, f) <= 100.0;
  }

  /** After at least one update the stored uptime is the success percentage, rounded and in range. */
  lemma UptimeIsSuccessRate(t: Table, events: seq<Event>, k: Key)
    requires |History(t, events, k)| > 1
    ensures k in Replay(t, events)
    ensures var row := Replay(t, events)[k];
            && row.success + row.failed > 0
            && 0.0 <= row.uptime <= 100.0
            && -0.005 < row.uptime - Percent(row.success, row.failed) <= 0.005
  {
    RowIsItsHistory(t, events, k);
    var row, h := Replay(t, events)[k], History(t, events, k);
    CountAliveBound(h[1..]);
    assert row.success + row.failed > 0;
    assert row.uptime == Round2(Percent(row.success, row.failed));
    UptimeBounds(row.success, row.failed);
  }

  // ----- Liveness and consecutive failures -----

  /** The agreement every writer starts from. */
  predicate Consistent(row: Row) {
    row.alive <==> row.consecutiveFail == 0
  }

  ghost predicate ConsistentTable(t: Table) {
    forall k :: k in t ==> Consistent(t[k])
  }

  ghost predicate ConsistentEvents(events: seq<Event>) {
    forall i :: 0 <= i < |events| && events[i].Upserted? ==> Consistent(events[i].commit.row)
  }

  /** In every reachable table a row is alive exactly when it has no consecutive failure. */
  lemma {:induction false} AliveIffNoFailures(t: Table, events: seq<Event>)
    requires ConsistentTable(t) && ConsistentEvents(events)
    ensures ConsistentTable(Replay(t, events))
  {
    if events == [] {
    } else {
      var before := events[..|events| - 1];
      assert ConsistentEvents(before) by {
        forall i | 0 <= i < |before| && before[i].Upserted? ensures Consistent(before[i].commit.row) {
          assert before[i] == events[i];
        }
      }
      AliveIffNoFailures(t, before);
    }
  }

  /** A purge removes the dead rows that have failed too often in a row or were last alive before
      the cutoff, all of them and nothing else. */
  lemma PurgeKeepsAlive(t: Table, maxFail: int, cutoff: Time, k: Key)
    requires k in t
    ensures k in Purge(t, maxFail, cutoff)
      <==> t[k].alive || (t[k].consecutiveFail < maxFail && t[k].lastAlive >= cutoff)
    ensures k in Purge(t, maxFail, cutoff) ==> Purge(t, maxFail, cutoff)[k] == t[k]
  {
  }

  /** A row that was inserted alive and is over the failure bound, whatever its age, has just
      had `maxFail` dead commits in a row, none of them the insert. */
  lemma PurgedByFailures(t: Table, events: seq<Event>, k: Key, maxFail: nat)
    requires k in Replay(t, events)
    requires !Replay(t, events)[k].alive && Replay(t, events)[k].consecutiveFail >= maxFail
    requires var h := History(t, events, k); h != [] && h[0].alive && Consistent(h[0])
    ensures var h := History(t, events, k);
            && |h| > maxFail
            && (forall i :: |h| - maxFail <= i < |h| ==> !h[i].alive)
  {
    RowIsItsHistory(t, events, k);
  }

  // ----- Order and batching -----

  function AliveFor(log: seq<Commit>, k: Key): nat {
    if log == [] then 0
    else AliveFor(log[..|log| - 1], k) + if log[|log| - 1].key == k then AliveUnit(log[|log| - 1].row) else 0
  }

  function DeadFor(log: seq<Commit>, k: Key): nat {
    if log == [] then 0
    else DeadFor(log[..|log| - 1], k) + if log[|log| - 1].key == k then DeadUnit(log[|log| - 1].row) else 0
  }

  /** The commits of `k`, oldest first. */
  function OfKey(log: seq<Commit>, k: Key): seq<Row> {
    if log == [] then []
    else OfKey(log[..|log| - 1], k) + if log[|log| - 1].key == k then [log[|log| - 1].row] else []
  }

  /** How far the counters an insert binds are from the check it reports. */
  function Excess(row: Row): (int, int) {
    (row.success - AliveUnit(row), row.failed - DeadUnit(row))
  }

  /** A row that already exists counts each commit once, whatever the order. */
  lemma {:induction false} ExistingRowCounts(t: Table, log: seq<Commit>, k: Key)
    requires k in t
    ensures k in Commits(t, log)
    ensures Commits(t, log)[k].success == t[k].success + AliveFor(log, k)
    ensures Commits(t, log)[k].failed == t[k].failed + DeadFor(log, k)
  {
    if log != [] {
      ExistingRowCounts(t, log[..|log| - 1], k);
    }
  }

  /** A row inserted by its first commit is off by exactly what that insert bound. */
  lemma {:induction false} InsertedRowCounts(t: Table, log: seq<Commit>, k: Key)
    requires k !in t
    ensures k in Commits(t, log) <==> OfKey(log, k) != []
    ensures OfKey(log, k) != [] ==>
              && Commits(t, log)[k].success == AliveFor(log, k) + Excess(OfKey(log, k)[0]).0
              && Commits(t, log)[k].failed == DeadFor(log, k) + Excess(OfKey(log, k)[0]).1
    ensures OfKey(log, k) == [] ==> AliveFor(log, k) == DeadFor(log, k) == 0
  {
    if log != [] {
      InsertedRowCounts(t, log[..|log| - 1], k);
    }
  }

  lemma {:induction false} CountSplit(a: seq<Commit>, b: seq<Commit>, k: Key)
    ensures AliveFor(a + b, k) == AliveFor(a, k) + AliveFor(b, k)
    ensures DeadFor(a + b, k) == DeadFor(a, k) + DeadFor(b, k)
    decreases |b|
  {
    if b == [] {
      assert a + b == a;
    } else {
      CountSplit(a, b[..|b| - 1], k);
      assert (a + b)[..|a + b| - 1] == a + b[..|b| - 1];
    }
  }

  lemma WithoutAt<T>(s: seq<T>, j: nat)
    requires j < |s|
    ensures multiset(s[..j] + s[j + 1..]) == multiset(s) - multiset{s[j]}
  {
    assert s == s[..j] + [s[j]] + s[j + 1..];
  }

  lemma CountWithoutAt(log: seq<Commit>, j: nat, k: Key)
    requires j < |log|
    ensures AliveFor(log, k) == AliveFor(log[..j] + log[j + 1..], k) + AliveFor([log[j]], k)
    ensures DeadFor(log, k) == DeadFor(log[..j] + log[j + 1..], k) + DeadFor([log[j]], k)
  {
    assert log == log[..j] + ([log[j]] + log[j + 1..]);
    CountSplit(log[..j], [log[j]] + log[j + 1..], k);
    CountSplit([log[j]], log[j + 1..], k);
    CountSplit(log[..j], log[j + 1..], k);
  }

  /** The first of one order, somewhere in another. */
  lemma FirstElsewhere<T>(a: seq<T>, b: seq<T>) returns (j: nat)
    requires multiset(a) == multiset(b) && a != []
    ensures j < |b| && b[j] == a[0]
    ensures multiset(a[..0] + a[1..]) == multiset(b[..j] + b[j + 1..])
  {
    assert a[0] in multiset(b);
    j :| j < |b| && b[j] == a[0];
    WithoutAt(a, 0);
    WithoutAt(b, j);
  }

  lemma {:induction false} CountsIgnoreOrder(a: seq<Commit>, b: seq<Commit>, k: Key)
    requires multiset(a) == multiset(b)
    ensures AliveFor(a, k) == AliveFor(b, k) && DeadFor(a, k) == DeadFor(b, k)
    decreases |a|
  {
    if a == [] {
      assert |b| == |multiset(b)| == |multiset(a)| == 0;
    } else {
      var j := FirstElsewhere(a, b);
      CountsIgnoreOrder(a[..0] + a[1..], b[..j] + b[j + 1..], k);
      CountWithoutAt(a, 0, k);
      CountWithoutAt(b, j, k);
    }
  }

  /** Commit order never matters to the counters of a row that already exists. */
  lemma ExistingRowIgnoresOrder(t: Table, a: seq<Commit>, b: seq<Commit>, k: Key)
    requires multiset(a) == multiset(b) && k in t
    ensures k in Commits(t, a) && k in Commits(t, b)
    ensures Commits(t, a)[k].success == Commits(t, b)[k].success
    ensures Commits(t, a)[k].failed == Commits(t, b)[k].failed
  {
    ExistingRowCounts(t, a, k);
    ExistingRowCounts(t, b, k);
    CountsIgnoreOrder(a, b, k);
  }

  lemma {:induction false} OfKeyMembers(log: seq<Commit>, k: Key, row: Row)
    ensures row in OfKey(log, k) <==> Commit(k, row) in log
  {
    if log != [] {
      OfKeyMembers(log[..|log| - 1], k, row);
      assert log == log[..|log| - 1] + [log[|log| - 1]];
    }
  }

  /** For a row not there yet, two orders give the same counters exactly when the
      commits that come first were bound with the same excess.  Inserts from the
      pipeline bind (1, 0) for an alive check, so their excess is (0, 0). */
  lemma InsertedRowIgnoresOrderIff(t: Table, a: seq<Commit>, b: seq<Commit>, k: Key)
    requires multiset(a) == multiset(b) && k !in t && OfKey(a, k) != []
    ensures OfKey(b, k) != [] && k in Commits(t, a) && k in Commits(t, b)
    ensures (Commits(t, a)[k].success == Commits(t, b)[k].success && Commits(t, a)[k].failed == Commits(t, b)[k].failed)
        <==> Excess(OfKey(a, k)[0]) == Excess(OfKey(b, k)[0])
  {
    InsertedRowCounts(t, a, k);
    InsertedRowCounts(t, b, k);
    CountsIgnoreOrder(a, b, k);
    var first := OfKey(a, k)[0];
    OfKeyMembers(a, k, first);
    assert Commit(k, first) in multiset(a);
    assert Commit(k, first) in multiset(b);
    OfKeyMembers(b, k, first);
  }

  /** A row as the pipeline inserts it: alive, with counters (1, 0). */
  predicate PipelineInsert(row: Row) {
    row.alive && row.success == 1 && row.failed == 0
  }

  /** A row inserted by the pipeline counts exactly its alive and its dead commits, so their
      order does not matter as long as the insert is the pipeline's. */
  lemma PipelineInsertIgnoresOrder(t: Table, a: seq<Commit>, b: seq<Commit>, k: Key)
    requires multiset(a) == multiset(b) && k !in t && OfKey(a, k) != [] && OfKey(b, k) != []
    requires PipelineInsert(OfKey(a, k)[0]) && PipelineInsert(OfKey(b, k)[0])
    ensures k in Commits(t, a) && k in Commits(t, b)
    ensures Commits(t, a)[k].success == Commits(t, b)[k].success == AliveFor(a, k)
    ensures Commits(t, a)[k].failed == Commits(t, b)[k].failed == DeadFor(a, k)
  {
    InsertedRowCounts(t, a, k);
    InsertedRowCounts(t, b, k);
    CountsIgnoreOrder(a, b, k);
  }

  lemma {:induction false} CommitsSplit(t: Table, a: seq<Commit>, b: seq<Commit>)
    ensures Commits(t, a + b) == Commits(Commits(t, a), b)
    decreases |b|
  {
    if b == [] {
      assert a + b == a;
    } else {
      CommitsSplit(t, a, b[..|b| - 1]);
      assert (a + b)[..|a + b| - 1] == a + b[..|b| - 1];
    }
  }

  function Concat(batches: seq<seq<Commit>>): seq<Commit> {
    if batches == [] then [] else Concat(batches[..|batches| - 1]) + batches[|batches| - 1]
  }

  /** The table after committing each batch in turn; a batch of one is the synchronous fallback. */
  function CommitBatches(t: Table, batches: seq<seq<Commit>>): Table {
    if batches == [] then t else Commits(CommitBatches(t, batches[..|batches| - 1]), batches[|batches| - 1])
  }

  /** Splitting a run of commits into batches changes nothing. */
  lemma {:induction false} BatchingIsInvisible(t: Table, batches: seq<seq<Commit>>)
    ensures CommitBatches(t, batches) == Commits(t, Concat(batches))
  {
    if batches != [] {
      BatchingIsInvisible(t, batches[..|batches| - 1]);
      CommitsSplit(t, Concat(batches[..|batches| - 1]), batches[|batches| - 1]);
    }
  }
}
