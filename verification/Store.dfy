/** The store of pkg/storage/sqlite.go as it runs: the queue of proxies, the loops
    that drain it, and the table they commit to.  Clock readings are parameters and
    transactions succeed. */
module Store {
  import opened Rows

  /** A checked proxy; workers and the commit paths both write its fields. */
  class Proxy {
    const key: Key
    var info: Info
    var success: nat
    var failed: nat
    var consecutiveFail: nat
    var uptime: real
    var lastAlive: Time
    var lastChecked: Time
    var firstSeen: Time
    var isAlive: bool

    constructor (key: Key, row: Row)
      ensures this.key == key && Value() == row
    {
      this.key := key;
      info, success, failed, consecutiveFail := row.info, row.success, row.failed, row.consecutiveFail;
      uptime, lastAlive, lastChecked, firstSeen := row.uptime, row.lastAlive, row.lastChecked, row.firstSeen;
      isAlive := row.alive;
    }

    /** The values an upsert of this proxy binds. */
    function Value(): Row
      reads this
    {
      Row(info, success, failed, consecutiveFail, uptime, lastAlive, lastChecked, firstSeen, isAlive)
    }
  }

  /** The upserts a batch stands for, before they are stamped. */
  function Snapshot(proxies: seq<Proxy>): (commits: seq<Commit>)
    reads proxies
    ensures |commits| == |proxies|
    ensures forall i :: 0 <= i < |proxies| ==> commits[i] == Commit(proxies[i].key, proxies[i].Value())
  {
    seq(|proxies|, i requires 0 <= i < |proxies| reads proxies => Commit(proxies[i].key, proxies[i].Value()))
  }

  function Stamped(commits: seq<Commit>, now: Time): (stamped: seq<Commit>)
    ensures |stamped| == |commits|
    ensures forall i :: 0 <= i < |commits| ==> stamped[i] == Commit(commits[i].key, Stamp(commits[i].row, now))
  {
    seq(|commits|, i requires 0 <= i < |commits| => Commit(commits[i].key, Stamp(commits[i].row, now)))
  }

  lemma StampTwice(row: Row, now: Time)
    ensures Stamp(Stamp(row, now), now) == Stamp(row, now)
  {
  }

  /** What a purge leaves: alive rows, and dead ones within both bounds. */
  predicate Stays(row: Row, maxFail: int, cutoff: Time) {
    row.alive || (row.consecutiveFail < maxFail && row.lastAlive >= cutoff)
  }

  ghost predicate SomeAlive(rows: seq<Row>) {
    exists i :: 0 <= i < |rows| && rows[i].alive
  }

  lemma SomeAliveGrows(rows: seq<Row>, row: Row)
    ensures SomeAlive(rows + [row]) <==> SomeAlive(rows) || row.alive
  {
    var more := rows + [row];
    assert more[|rows|] == row;
    assert forall i :: 0 <= i < |rows| ==> more[i] == rows[i];
  }

  /** What a batch at `now` leaves under a key, given the values it committed for it, in order. */
  ghost predicate BatchWritten(after: Table, before: Table, key: Key, rows: seq<Row>, now: Time) {
    if rows == [] then (key in after <==> key in before) && (key in after ==> after[key] == before[key])
    else
      && key in after && after[key].lastChecked == now
      && after[key].info == rows[|rows| - 1].info && after[key].alive == rows[|rows| - 1].alive
      && after[key].lastAlive == (if SomeAlive(rows) then now
                                  else if key in before then before[key].lastAlive else rows[0].lastAlive)
      && after[key].firstSeen == (if key in before then before[key].firstSeen
                                  else if rows[0].firstSeen == ZERO_TIME then now else rows[0].firstSeen)
  }

  lemma OneMoreWritten(mid: Table, before: Table, key: Key, rows: seq<Row>, row: Row, now: Time)
    requires BatchWritten(mid, before, key, rows, now)
    ensures BatchWritten(Upsert(mid, Commit(key, Stamp(row, now))), before, key, rows + [row], now)
  {
    StampedUpsert(mid, key, row, now);
    SomeAliveGrows(rows, row);
  }

  lemma {:induction false} BatchIsWritten(t: Table, commits: seq<Commit>, key: Key, now: Time)
    ensures BatchWritten(Commits(t, Stamped(commits, now)), t, key, OfKey(commits, key), now)
  {
    if commits != [] {
      var n := |commits| - 1;
      BatchIsWritten(t, commits[..n], key, now);
      var mid := Commits(t, Stamped(commits[..n], now));
      assert Stamped(commits, now)[..n] == Stamped(commits[..n], now);
      StampedUpsert(mid, commits[n].key, commits[n].row, now);
      var rows := OfKey(commits[..n], key);
      if commits[n].key == key {
        OneMoreWritten(mid, t, key, rows, commits[n].row, now);
        assert OfKey(commits, key) == rows + [commits[n].row];
      } else {
        assert OfKey(commits, key) == rows;
      }
    }
  }

  /** `row` reports the same check as `original`, stamped at `now`; a first-seen time
      already there is kept. */
  predicate ReportsAt(row: Row, original: Row, now: Time) {
    && row == Stamp(original, now).(firstSeen := row.firstSeen)
    && (original.firstSeen != ZERO_TIME ==> row.firstSeen == original.firstSeen)
  }

  /** The same check, whatever the stamps. */
  predicate SameCheck(row: Row, original: Row) {
    && row == original.(lastAlive := row.lastAlive, lastChecked := row.lastChecked, firstSeen := row.firstSeen)
    && (!original.alive ==> row.lastAlive == original.lastAlive)
    && (original.firstSeen != ZERO_TIME ==> row.firstSeen == original.firstSeen)
  }

  /** The choice made by the select of the committer's main loop. */
  datatype Choice = Receive | Tick

  class SQLiteStore {
    var table: Table
    var batchChan: seq<Proxy>

    constructor (table: Table)
      ensures this.table == table && batchChan == []
    {
      this.table := table;
      batchChan := [];
    }

    /** One execution of the upsert: the proxy is stamped, then bound. */
    method Execute(p: Proxy, now: Time)
      modifies this`table, p
      ensures table == Upsert(old(table), Commit(p.key, Stamp(old(p.Value()), now)))
      ensures p.Value() == Stamp(old(p.Value()), now)
      ensures p.key in table && WrittenAt(table[p.key], old(table), p.key, old(p.Value()), now)
      ensures forall k :: k != p.key ==> (k in table <==> k in old(table)) && (k in table ==> table[k] == old(table)[k])
      ensures p.lastChecked == now && p.lastAlive == if p.isAlive then now else old(p.lastAlive)
      ensures p.firstSeen == if old(p.firstSeen) == ZERO_TIME then now else old(p.firstSeen)
    {
      StampedUpsert(table, p.key, p.Value(), now);
      if p.firstSeen == ZERO_TIME {
        p.firstSeen := now;
      }
      p.lastChecked := now;
      if p.isAlive {
        p.lastAlive := now;
      }
      table := Upsert(table, Commit(p.key, p.Value()));
    }

    /** Commits a batch in order; a proxy may occur in it more than once. */
    method FlushBatch(proxies: seq<Proxy>, now: Time)
      modifies this`table, proxies
      ensures table == Commits(old(table), Stamped(old(Snapshot(proxies)), now))
      ensures forall p :: p in proxies ==> p.Value() == Stamp(old(p.Value()), now)
      ensures forall k :: BatchWritten(table, old(table), k, OfKey(old(Snapshot(proxies)), k), now)
      ensures forall p :: p in proxies ==> p.lastChecked == now && p.lastAlive == if p.isAlive then now else old(p.lastAlive)
    {
      forall k ensures BatchWritten(Commits(table, Stamped(Snapshot(proxies), now)), table, k, OfKey(Snapshot(proxies), k), now) {
        BatchIsWritten(table, Snapshot(proxies), k, now);
      }
      ghost var log := Stamped(Snapshot(proxies), now);
      for i := 0 to |proxies|
        invariant table == Commits(old(table), log[..i])
        invariant forall j :: 0 <= j < i ==> proxies[j].Value() == Stamp(old(proxies[j].Value()), now)
        invariant forall p :: p in proxies ==> p.Value() in {old(p.Value()), Stamp(old(p.Value()), now)}
      {
        assert log[..i + 1][..i] == log[..i];
        StampTwice(old(proxies[i].Value()), now);
        Execute(proxies[i], now);
      }
      assert log[..|proxies|] == log;
    }

    /** The path taken when the channel is full. */
    method CommitSingleProxy(p: Proxy, now: Time)
      modifies this`table, p
      ensures table == Upsert(old(table), Commit(p.key, Stamp(old(p.Value()), now)))
      ensures p.Value() == Stamp(old(p.Value()), now)
      ensures p.key in table && WrittenAt(table[p.key], old(table), p.key, old(p.Value()), now)
      ensures forall k :: k != p.key ==> (k in table <==> k in old(table)) && (k in table ==> table[k] == old(table)[k])
    {
      Execute(p, now);
    }

    /** Queued if there is room, committed on the spot otherwise; never refused. */
    method SaveOrUpdateProxy(p: Proxy, now: Time)
      modifies this, p
      ensures |old(batchChan)| < CAPACITY ==>
                batchChan == old(batchChan) + [p] && table == old(table) && p.Value() == old(p.Value())
      ensures |old(batchChan)| >= CAPACITY ==>
                batchChan == old(batchChan) && table == Upsert(old(table), Commit(p.key, Stamp(old(p.Value()), now)))
                && p.key in table && WrittenAt(table[p.key], old(table), p.key, old(p.Value()), now)
                && p.Value() == Stamp(old(p.Value()), now)
    {
      if |batchChan| < CAPACITY {
        batchChan := batchChan + [p];
      } else {
        CommitSingleProxy(p, now);
      }
    }

    /** Deletes the dead rows with too many failures or alive too long ago. */
    method PurgeDeadProxies(maxFail: int, olderThan: int, now: Time) returns (removed: nat)
      modifies this`table
      ensures table == Purge(old(table), maxFail, now - olderThan)
      ensures forall k :: k in table <==> k in old(table) && Stays(old(table)[k], maxFail, now - olderThan)
      ensures forall k :: k in table ==> table[k] == old(table)[k]
      ensures removed == |old(table)| - |table|
    {
      var kept := Purge(table, maxFail, now - olderThan);
      assert kept.Keys <= table.Keys;
      SubsetSize(kept.Keys, table.Keys);
      removed := |table| - |kept|;
      table := kept;
    }

    /** Empties the channel and commits what was in it, in order, as one batch. */
    method Flush(now: Time)
      modifies this, batchChan
      ensures batchChan == []
      ensures table == Commits(old(table), Stamped(old(Snapshot(batchChan)), now))
    {
      var buffer: seq<Proxy> := [];
      while batchChan != []
        invariant buffer + batchChan == old(batchChan)
        invariant table == old(table)
        invariant forall p :: p in old(batchChan) ==> p.Value() == old(p.Value())
        decreases |batchChan|
      {
        buffer, batchChan := buffer + [batchChan[0]], batchChan[1..];
      }
      assert buffer == old(batchChan);
      assert Snapshot(buffer) == old(Snapshot(batchChan));
      if |buffer| > 0 {
        FlushBatch(buffer, now);
      }
    }

    /** One turn of the committer's main loop. */
    method Iterate(buffer: seq<Proxy>, choice: Choice, now: Time) returns (rest: seq<Proxy>)
      requires |buffer| < BATCH_SIZE
      requires choice.Receive? ==> batchChan != []
      modifies this, buffer, batchChan
      ensures |rest| < BATCH_SIZE
      ensures choice.Receive? ==> old(batchChan) == [old(batchChan)[0]] + batchChan
      ensures choice.Tick? ==> batchChan == old(batchChan)
      ensures var grown := if choice.Receive? then buffer + [old(batchChan)[0]] else buffer;
              var commits := if choice.Receive? then |grown| >= BATCH_SIZE else grown != [];
              && rest == (if commits then [] else grown)
              && table == if commits then Commits(old(table), Stamped(old(Snapshot(grown)), now)) else old(table)
    {
      rest := buffer;
      match choice
      case Receive =>
        rest, batchChan := rest + [batchChan[0]], batchChan[1..];
        if |rest| >= BATCH_SIZE {
          FlushBatch(rest, now);
          rest := [];
        }
      case Tick =>
        if |rest| > 0 {
          FlushBatch(rest, now);
          rest := [];
        }
    }

    /** The committer after the close: it empties the channel and commits everything
        it held and found, in order, in full batches and a last partial one; batch n
        is stamped with the n-th clock reading.  A proxy may occur more than once. */
    method Drain(held: seq<Proxy>, clock: nat -> Time)
      requires |held| < BATCH_SIZE
      modifies this, set p | p in held + batchChan
      ensures batchChan == []
      ensures table == Commits(old(table), Batched(old(Snapshot(held + batchChan)), clock))
    {
      ghost var pr := Progress(table, held + batchChan, [], Snapshot(held + batchChan), []);
      var buffer := held;
      var n := 0;
      while batchChan != []
        invariant |buffer| < BATCH_SIZE && |pr.log| == n * BATCH_SIZE && OnTrack(pr, buffer, clock)
        invariant pr.start == old(table) && pr.all == held + old(batchChan) && pr.before == old(Snapshot(held + batchChan))
        decreases |batchChan|
      {
        buffer := ReceiveInto(buffer, clock, pr);
        if |buffer| >= BATCH_SIZE {
          pr := FlushNext(buffer, n, clock, pr);
          buffer, n := [], n + 1;
        }
      }
      if |buffer| > 0 {
        pr := FlushNext(buffer, n, clock, pr);
      }
      CommittedIsBatched(pr.start, pr.log, pr.before, clock);
    }

    /** How far a drain has come: everything done is committed, the rest is in the
        buffer and in the channel. */
    ghost predicate OnTrack(pr: Progress, buffer: seq<Proxy>, clock: nat -> Time)
      reads this, pr.all
    {
      && |pr.log| == |pr.done|
      && pr.all == pr.done + buffer + batchChan
      && table == Commits(pr.start, pr.log)
      && Unaltered(pr.all, pr.before, |pr.done|)
      && Committed(pr.log, pr.before, clock)
    }

    /** One receive. */
    method ReceiveInto(buffer: seq<Proxy>, clock: nat -> Time, ghost pr: Progress) returns (grown: seq<Proxy>)
      requires batchChan != [] && OnTrack(pr, buffer, clock)
      modifies this`batchChan
      ensures grown == buffer + [old(batchChan)[0]] && batchChan == old(batchChan)[1..]
      ensures OnTrack(pr, grown, clock)
    {
      HeadMoves(pr.done, buffer, batchChan);
      grown, batchChan := buffer + [batchChan[0]], batchChan[1..];
    }

    /** FlushBatch in the drain: what was in the buffer is now done. */
    method FlushNext(buffer: seq<Proxy>, n: nat, clock: nat -> Time, ghost pr: Progress) returns (ghost pr': Progress)
      requires |buffer| <= BATCH_SIZE && |pr.log| == n * BATCH_SIZE && OnTrack(pr, buffer, clock)
      modifies this`table, set p | p in pr.all
      ensures pr' == pr.(done := pr.done + buffer, log := pr'.log)
      ensures OnTrack(pr', [], clock)
    {
      ghost var batch := Snapshot(buffer);
      pr' := pr.(done := pr.done + buffer, log := pr.log + Stamped(batch, clock(n)));
      BatchUnaltered(pr.all, pr.done, buffer, pr.before);
      NextBatch(pr, batch, n, clock);
      assert pr'.done + [] == pr'.done;
      FlushAmong(buffer, clock(n), |pr.done|, pr.all, pr.before);
      assert table == Commits(pr'.start, pr'.log);
    }

    /** FlushBatch leaves every proxy in sight with the check it had, and those whose keys are
        still to come untouched. */
    method FlushAmong(buffer: seq<Proxy>, now: Time, ghost done: nat, ghost all: seq<Proxy>, ghost before: seq<Commit>)
      requires done + |buffer| <= |all| && buffer == all[done..done + |buffer|] && Unaltered(all, before, done)
      modifies this`table, set p | p in all
      ensures table == Commits(old(table), Stamped(old(Snapshot(buffer)), now))
      ensures Unaltered(all, before, done + |buffer|)
    {
      FlushBatch(buffer, now);
      forall i | 0 <= i < |all|
        ensures SameCheck(all[i].Value(), before[i].row)
        ensures NewKey(before, done + |buffer|, i) ==> all[i].Value() == before[i].row
      {
        StampReports(old(all[i].Value()), before[i].row, now);
        if NewKey(before, done + |buffer|, i) { NewKeyNotInBatch(buffer, done, all, before, i); }
      }
    }
  }

  /** The proof state of a drain: the table it began with, the proxies it will commit
      and those already done, their checks at the start, and the commits made. */
  datatype Progress = Progress(start: Table, all: seq<Proxy>, done: seq<Proxy>, before: seq<Commit>, log: seq<Commit>)

  /** None of the first `n` commits has the key of commit `i`. */
  ghost predicate NewKey(commits: seq<Commit>, n: nat, i: nat)
    requires n <= |commits| && i < |commits|
  {
    forall j :: 0 <= j < n ==> commits[j].key != commits[i].key
  }

  /** Every proxy still reports the check it reported in `before`, and is as it was then
      unless one with its key is among the first `done`. */
  ghost predicate Unaltered(all: seq<Proxy>, before: seq<Commit>, done: nat)
    reads all
  {
    && |before| == |all| && done <= |all|
    && (forall i :: 0 <= i < |all| ==> before[i].key == all[i].key && SameCheck(all[i].Value(), before[i].row))
    && (forall i :: 0 <= i < |all| && NewKey(before, done, i) ==> all[i].Value() == before[i].row)
  }

  lemma HeadMoves<T>(a: seq<T>, b: seq<T>, c: seq<T>)
    requires c != []
    ensures a + b + c == a + (b + [c[0]]) + c[1..]
  {
  }

  lemma NewKeyNotInBatch(buffer: seq<Proxy>, done: nat, all: seq<Proxy>, before: seq<Commit>, i: nat)
    requires done + |buffer| <= |all| == |before| && buffer == all[done..done + |buffer|] && i < |all|
    requires forall j :: 0 <= j < |all| ==> before[j].key == all[j].key
    requires NewKey(before, done + |buffer|, i)
    ensures all[i] !in buffer && NewKey(before, done, i)
  {
    forall j | 0 <= j < |buffer| ensures buffer[j] != all[i] {
      assert before[done + j].key != before[i].key;
    }
  }

  lemma StampReports(row: Row, original: Row, now: Time)
    requires SameCheck(row, original)
    ensures ReportsAt(Stamp(row, now), original, now) && SameCheck(Stamp(row, now), original)
  {
  }

  lemma SubsetSize<T>(a: set<T>, b: set<T>)
    requires a <= b
    ensures |a| <= |b|
  {
    assert |b| == |a| + |b - a| by {
      assert b == a + (b - a);
    }
  }

  /** `batch` reports the checks of `originals` from position `n` on, and those whose keys have
      not come before as they were. */
  ghost predicate BatchAt(batch: seq<Commit>, originals: seq<Commit>, n: nat) {
    && n + |batch| <= |originals|
    && (forall j :: 0 <= j < |batch| ==>
          batch[j].key == originals[n + j].key && SameCheck(batch[j].row, originals[n + j].row))
    && (forall j :: 0 <= j < |batch| && NewKey(originals, n, n + j) ==> batch[j].row == originals[n + j].row)
  }

  lemma BatchUnaltered(all: seq<Proxy>, done: seq<Proxy>, buffer: seq<Proxy>, before: seq<Commit>)
    requires Unaltered(all, before, |done|) && done + buffer <= all
    ensures |done| + |buffer| <= |all| && buffer == all[|done|..|done| + |buffer|]
    ensures forall p :: p in buffer ==> p in all
    ensures BatchAt(Snapshot(buffer), before, |done|)
  {
    assert buffer == all[|done|..|done| + |buffer|];
    forall j | 0 <= j < |buffer| ensures buffer[j] == all[|done| + j] {
    }
  }

  lemma CommittedGrows(log: seq<Commit>, batch: seq<Commit>, originals: seq<Commit>, n: nat, clock: nat -> Time)
    requires |batch| <= BATCH_SIZE && |log| == n * BATCH_SIZE
    requires Committed(log, originals, clock) && BatchAt(batch, originals, |log|)
    ensures Committed(log + Stamped(batch, clock(n)), originals, clock)
  {
    var longer := log + Stamped(batch, clock(n));
    forall i | 0 <= i < |longer| ensures CommittedAt(longer[i], originals, i, clock) {
      if i < |log| {
        assert CommittedAt(log[i], originals, i, clock);
      } else {
        assert i / BATCH_SIZE == n;
        BatchCommittedAt(batch, originals, |log|, i - |log|, clock);
      }
    }
  }

  lemma BatchCommittedAt(batch: seq<Commit>, originals: seq<Commit>, n: nat, j: nat, clock: nat -> Time)
    requires j < |batch| && BatchAt(batch, originals, n)
    ensures CommittedAt(Stamped(batch, clock((n + j) / BATCH_SIZE))[j], originals, n + j, clock)
  {
    StampReports(batch[j].row, originals[n + j].row, clock((n + j) / BATCH_SIZE));
    if NewKey(originals, n + j, n + j) {
      assert NewKey(originals, n, n + j);
    }
  }

  /** What committing the next batch does to the proof state of a drain. */
  lemma NextBatch(pr: Progress, batch: seq<Commit>, n: nat, clock: nat -> Time)
    requires |batch| <= BATCH_SIZE && |pr.log| == n * BATCH_SIZE
    requires Committed(pr.log, pr.before, clock) && BatchAt(batch, pr.before, |pr.log|)
    ensures var log := pr.log + Stamped(batch, clock(n));
      && |log| == |pr.log| + |batch|
      && Committed(log, pr.before, clock)
      && Commits(pr.start, log) == Commits(Commits(pr.start, pr.log), Stamped(batch, clock(n)))
  {
    CommittedGrows(pr.log, batch, pr.before, n, clock);
    CommitsSplit(pr.start, pr.log, Stamped(batch, clock(n)));
  }

  /** Commit `c` reports the i-th check, stamped with the reading of its batch; only the
      first-seen time may differ, and only if the key has come before. */
  ghost predicate CommittedAt(c: Commit, originals: seq<Commit>, i: nat, clock: nat -> Time)
    requires i < |originals|
  {
    var now := clock(i / BATCH_SIZE);
    && c.key == originals[i].key && ReportsAt(c.row, originals[i].row, now)
    && (NewKey(originals, i, i) ==> c.row == Stamp(originals[i].row, now))
  }

  /** `log` commits the first checks of `originals`. */
  ghost predicate Committed(log: seq<Commit>, originals: seq<Commit>, clock: nat -> Time) {
    |log| <= |originals| && forall i :: 0 <= i < |log| ==> CommittedAt(log[i], originals, i, clock)
  }

  /** The checks of `originals`, batch n stamped with the n-th reading. */
  function Batched(originals: seq<Commit>, clock: nat -> Time): (stamped: seq<Commit>)
    ensures |stamped| == |originals|
    ensures forall i :: 0 <= i < |originals| ==>
      stamped[i] == Commit(originals[i].key, Stamp(originals[i].row, clock(i / BATCH_SIZE)))
  {
    seq(|originals|, i requires 0 <= i < |originals| =>
      Commit(originals[i].key, Stamp(originals[i].row, clock(i / BATCH_SIZE))))
  }

  /** Two commits of one key that differ in the first-seen time at most. */
  predicate SameButFirstSeen(a: Commit, b: Commit) {
    a.key == b.key && a.row == b.row.(firstSeen := a.row.firstSeen)
  }

  lemma {:induction false} KeysCommitted(t: Table, log: seq<Commit>, j: nat)
    requires j < |log|
    ensures log[j].key in Commits(t, log)
  {
    if j < |log| - 1 { KeysCommitted(t, log[..|log| - 1], j); }
  }

  lemma FirstSeenIsKept(t: Table, a: Commit, b: Commit)
    requires SameButFirstSeen(a, b) && (a == b || b.key in t)
    ensures Upsert(t, a) == Upsert(t, b)
  {
  }

  /** Either the commit is the same or its key has come before. */
  lemma NextFirstSeen(t: Table, a: Commit, b: seq<Commit>, n: nat)
    requires n < |b| && SameButFirstSeen(a, b[n]) && (NewKey(b, n, n) ==> a == b[n])
    ensures Upsert(Commits(t, b[..n]), a) == Upsert(Commits(t, b[..n]), b[n])
  {
    if !NewKey(b, n, n) {
      var j :| 0 <= j < n && b[j].key == b[n].key;
      KeysCommitted(t, b[..n], j);
    }
    FirstSeenIsKept(Commits(t, b[..n]), a, b[n]);
  }

  /** Two logs that differ in first-seen times at most, and not where a key comes first. */
  ghost predicate Alike(a: seq<Commit>, b: seq<Commit>) {
    && |a| == |b|
    && (forall i :: 0 <= i < |a| ==> SameButFirstSeen(a[i], b[i]))
    && (forall i :: 0 <= i < |a| && NewKey(b, i, i) ==> a[i] == b[i])
  }

  lemma AlikePrefix(a: seq<Commit>, b: seq<Commit>)
    requires Alike(a, b) && a != []
    ensures Alike(a[..|a| - 1], b[..|b| - 1])
  {
    forall i | 0 <= i < |a| - 1 && NewKey(b[..|b| - 1], i, i) ensures a[i] == b[i] {
      assert NewKey(b, i, i);
    }
  }

  /** The first-seen time of a commit matters only when its key comes first. */
  lemma {:induction false} FirstSeenOnce(t: Table, a: seq<Commit>, b: seq<Commit>)
    requires Alike(a, b)
    ensures Commits(t, a) == Commits(t, b)
  {
    if a != [] {
      var n := |a| - 1;
      AlikePrefix(a, b);
      FirstSeenOnce(t, a[..n], b[..n]);
      NextFirstSeen(t, a[n], b, n);
    }
  }

  lemma CommittedIsBatched(t: Table, log: seq<Commit>, originals: seq<Commit>, clock: nat -> Time)
    requires |log| == |originals| && Committed(log, originals, clock)
    ensures Commits(t, log) == Commits(t, Batched(originals, clock))
  {
    var stamped := Batched(originals, clock);
    forall i | 0 <= i < |log| ensures SameButFirstSeen(log[i], stamped[i]) && (NewKey(stamped, i, i) ==> log[i] == stamped[i]) {
      assert CommittedAt(log[i], originals, i, clock);
      if NewKey(stamped, i, i) { SameKeysNew(stamped, originals, i); }
    }
    FirstSeenOnce(t, log, stamped);
  }

  lemma SameKeysNew(a: seq<Commit>, b: seq<Commit>, i: nat)
    requires |a| == |b| && i < |a| && forall j :: 0 <= j < |a| ==> a[j].key == b[j].key
    requires NewKey(a, i, i)
    ensures NewKey(b, i, i)
  {
    forall j | 0 <= j < i ensures b[j].key != b[i].key {
      assert a[j].key != a[i].key;
    }
  }
}
