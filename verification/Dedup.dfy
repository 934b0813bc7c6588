/** The 64-shard time-window filter of pkg/pipeline/dedup.go, and the single plain
    map it has to agree with. */
module Dedup {
  /** Clock readings and durations, in nanoseconds. */
  type Time = int

  const SHARDS: nat := 64
  const DEFAULT_WINDOW: Time := 600_000_000_000

  type Entries = map<string, Time>

  // ----- Hashing -----

  const WORD: nat := 0x1_0000_0000

  /** 32-bit FNV-1a.  A char stands for one byte of the key. */
  function Fnv32(key: string): (h: nat)
    ensures h < WORD
  {
    if key == [] then 2166136261 else Mix(Fnv32(key[..|key| - 1]), key[|key| - 1])
  }

  /** One round: xor the byte into the low end, multiply, keep 32 bits. */
  function Mix(h: nat, c: char): (mixed: nat)
    ensures mixed < WORD
  {
    (h - h % 256 + XorByte(h % 256, c as int % 256)) * 16777619 % WORD
  }

  function XorByte(a: nat, b: nat): nat
    requires a < 256 && b < 256
  {
    ((a as bv8) ^ (b as bv8)) as nat
  }

  function ShardOf(key: string): (i: nat)
    ensures i < SHARDS
  {
    Fnv32(key) % SHARDS
  }

  /** One round worked out: `x` is the exclusive or of the low byte and the character. */
  predicate Round(h: nat, c: char, x: nat, next: nat) {
    XorByte(h % 256, c as int % 256) == x && (h - h % 256 + x) * 16777619 % WORD == next
  }

  lemma {:induction false} HashAlong(key: string, hs: seq<nat>, xs: seq<nat>)
    requires |hs| == |key| + 1 && |xs| == |key| && hs[0] == 0x811C9DC5
    requires forall i :: 0 <= i < |key| ==> Round(hs[i], key[i], xs[i], hs[i + 1])
    ensures Fnv32(key) == hs[|key|]
  {
    if key != [] {
      var n := |key| - 1;
      HashAlong(key[..n], hs[..n + 1], xs[..n]);
      assert Round(hs[n], key[n], xs[n], hs[n + 1]);
    }
  }

  lemma Xors()
    ensures XorByte(197, 102) == 163
    ensures XorByte(153, 111) == 246
    ensures XorByte(66, 111) == 45
    ensures XorByte(215, 98) == 181
    ensures XorByte(239, 97) == 142
    ensures XorByte(138, 114) == 248
  {
    assert 197 as bv8 ^ 102 as bv8 == 163 as bv8;
    assert 153 as bv8 ^ 111 as bv8 == 246 as bv8;
    assert 66 as bv8 ^ 111 as bv8 == 45 as bv8;
    assert 215 as bv8 ^ 98 as bv8 == 181 as bv8;
    assert 239 as bv8 ^ 97 as bv8 == 142 as bv8;
    assert 138 as bv8 ^ 114 as bv8 == 248 as bv8;
  }

  lemma Round0()
    ensures Round(2166136261, 'f', 163, 3809224601)
  {
    Xors();
    assert 2166136261 % 256 == 197 && 'f' as int % 256 == 102;
  }

  lemma Round1()
    ensures Round(3809224601, 'o', 246, 1646454850)
  {
    Xors();
    assert 3809224601 % 256 == 153 && 'o' as int % 256 == 111;
  }

  lemma Round2()
    ensures Round(1646454850, 'o', 45, 2851307223)
  {
    Xors();
    assert 1646454850 % 256 == 66 && 'o' as int % 256 == 111;
  }

  lemma Round3()
    ensures Round(2851307223, 'b', 181, 1062237935)
  {
    Xors();
    assert 2851307223 % 256 == 215 && 'b' as int % 256 == 98;
  }

  lemma Round4()
    ensures Round(1062237935, 'a', 142, 967483786)
  {
    Xors();
    assert 1062237935 % 256 == 239 && 'a' as int % 256 == 97;
  }

  lemma Round5()
    ensures Round(967483786, 'r', 248, 3214735720)
  {
    Xors();
    assert 967483786 % 256 == 138 && 'r' as int % 256 == 114;
  }

  /** The published test vectors of 32-bit FNV-1a. */
  lemma KnownHashes(s: string)
    ensures s == "" ==> Fnv32(s) == 0x811C9DC5
    ensures s == "foobar" ==> Fnv32(s) == 0xBF9CF968
  {
    if s == "foobar" {
      Round0(); Round1(); Round2(); Round3(); Round4(); Round5();
      HashAlong(s, [2166136261, 3809224601, 1646454850, 2851307223, 1062237935, 967483786, 3214735720], [163, 246, 45, 181, 142, 248]);
    }
  }

  method HashKey(key: string) returns (h: nat)
    ensures h == Fnv32(key)
  {
    h := 2166136261;
    for i := 0 to |key|
      invariant h == Fnv32(key[..i])
    {
      assert key[..i + 1][..i] == key[..i];
      h := Mix(h, key[i]);
    }
    assert key[..|key|] == key;
  }

  // ----- One map -----

  /** Whether `key` counts as new at `now`. */
  predicate IsNew(entries: Entries, key: string, now: Time, window: Time) {
    key !in entries || now - entries[key] >= window
  }

  function Set(entries: Entries, key: string, now: Time, window: Time): Entries {
    if IsNew(entries, key, now, window) then entries[key := now] else entries
  }

  function Sweep(entries: Entries, now: Time, window: Time): Entries {
    map k | k in entries && now - entries[k] < window :: entries[k]
  }

  // ----- The sharded filter -----

  /** One critical section: a check of a key, or the cleanup of one shard. */
  datatype Event = Check(key: string, now: Time) | Cleanup(shard: nat, now: Time)

  function Happen(shards: seq<Entries>, e: Event, window: Time): (after: seq<Entries>)
    requires |shards| == SHARDS
    ensures |after| == SHARDS
  {
    match e
    case Check(key, now) => shards[ShardOf(key) := Set(shards[ShardOf(key)], key, now, window)]
    case Cleanup(i, now) => if i < SHARDS then shards[i := Sweep(shards[i], now, window)] else shards
  }

  class ShardedDeduplicator {
    const shards: array<Entries>
    const window: Time

    ghost predicate Valid() {
      shards.Length == SHARDS
    }

    constructor (window: Time)
      ensures Valid() && fresh(shards)
      ensures this.window == if window <= 0 then 600_000_000_000 else window
      ensures shards[..] == Empty()
    {
      this.window := if window <= 0 then DEFAULT_WINDOW else window;
      shards := new Entries[SHARDS](_ => map[]);
    }

    /** True, and remembered, exactly when the key's shard does not hold it within the window. */
    method CheckAndSet(key: string, now: Time) returns (isNew: bool)
      requires Valid()
      modifies shards
      ensures isNew == IsNew(old(shards[ShardOf(key)]), key, now, window)
      ensures shards[..] == Happen(old(shards[..]), Check(key, now), window)
    {
      var h := HashKey(key);
      var i := h % SHARDS;
      var entries := shards[i];
      if key in entries && now - entries[key] < window {
        return false;
      }
      shards[i] := entries[key := now];
      return true;
    }

    /** The cleanup of one shard, under its lock. */
    method CleanupShard(i: nat, now: Time)
      requires Valid() && i < SHARDS
      modifies shards
      ensures shards[..] == Happen(old(shards[..]), Cleanup(i, now), window)
    {
      var entries := shards[i];
      var left := entries;
      var todo := entries.Keys;
      while todo != {}
        invariant todo <= entries.Keys
        invariant left == map k | k in entries && (k in todo || now - entries[k] < window) :: entries[k]
        decreases |todo|
      {
        var k :| k in todo;
        if now - entries[k] >= window {
          left := left - {k};
        }
        todo := todo - {k};
      }
      assert left == Sweep(entries, now, window);
      shards[i] := left;
    }

    /** One tick of the cleanup loop: every shard in turn, all with the same reading. */
    method CleanupPass(now: Time)
      requires Valid()
      modifies shards
      ensures forall i :: 0 <= i < SHARDS ==> shards[i] == Sweep(old(shards[i]), now, window)
    {
      for i := 0 to SHARDS
        invariant forall j :: 0 <= j < i ==> shards[j] == Sweep(old(shards[j]), now, window)
        invariant forall j :: i <= j < SHARDS ==> shards[j] == old(shards[j])
      {
        ghost var before := shards[..];
        CleanupShard(i, now);
        assert forall j :: 0 <= j < SHARDS ==> shards[j] == shards[..][j] && before[j] == before[..][j];
      }
    }
  }

  // ----- Runs -----

  function Empty(): seq<Entries> {
    seq(SHARDS, _ => map[])
  }

  /** The shards after a run of events. */
  function Shards(events: seq<Event>, window: Time): (shards: seq<Entries>)
    ensures |shards| == SHARDS
  {
    if events == [] then Empty() else Happen(Shards(events[..|events| - 1], window), events[|events| - 1], window)
  }

  /** One unsharded map that sees the same checks and is never cleaned. */
  function Plain(events: seq<Event>, window: Time): Entries {
    if events == [] then map[]
    else
      var before := Plain(events[..|events| - 1], window);
      match events[|events| - 1]
      case Check(key, now) => Set(before, key, now, window)
      case Cleanup(_, _) => before
  }

  /** What CheckAndSet answers to the i-th event. */
  predicate Accepted(events: seq<Event>, window: Time, i: nat)
    requires i < |events| && events[i].Check?
  {
    IsNew(Shards(events[..i], window)[ShardOf(events[i].key)], events[i].key, events[i].now, window)
  }

  /** What the plain map would answer. */
  predicate PlainAccepted(events: seq<Event>, window: Time, i: nat)
    requires i < |events| && events[i].Check?
  {
    IsNew(Plain(events[..i], window), events[i].key, events[i].now, window)
  }

  /** No check uses a reading older than that of a cleanup already done. */
  ghost predicate Timely(events: seq<Event>) {
    forall i, j :: 0 <= i < j < |events| && events[i].Cleanup? && events[j].Check? ==> events[i].now <= events[j].now
  }

  /** The shards hold what the plain map holds, except entries that were already
      outside the window for every time from which `late` holds. */
  ghost predicate Agree(shards: seq<Entries>, plain: Entries, events: seq<Event>, window: Time)
    requires |shards| == SHARDS
  {
    && (forall k :: k in shards[ShardOf(k)] ==> k in plain && plain[k] == shards[ShardOf(k)][k])
    && (forall k :: k in plain && k !in shards[ShardOf(k)] ==>
          exists i :: 0 <= i < |events| && events[i].Cleanup? && events[i].now - plain[k] >= window)
  }

  lemma AgreeAfterCheck(shards: seq<Entries>, plain: Entries, events: seq<Event>, key: string, now: Time, window: Time)
    requires |shards| == SHARDS && Agree(shards, plain, events, window)
    requires IsNew(shards[ShardOf(key)], key, now, window) == IsNew(plain, key, now, window)
    ensures Agree(Happen(shards, Check(key, now), window), Set(plain, key, now, window), events + [Check(key, now)], window)
  {
    var shards', plain' := Happen(shards, Check(key, now), window), Set(plain, key, now, window);
    var events' := events + [Check(key, now)];
    forall k | k in plain' && k !in shards'[ShardOf(k)]
      ensures exists i :: 0 <= i < |events'| && events'[i].Cleanup? && events'[i].now - plain'[k] >= window
    {
      var i :| 0 <= i < |events| && events[i].Cleanup? && events[i].now - plain[k] >= window;
      assert events'[i] == events[i];
    }
  }

  lemma AgreeAfterCleanup(shards: seq<Entries>, plain: Entries, events: seq<Event>, shard: nat, now: Time, window: Time)
    requires |shards| == SHARDS && Agree(shards, plain, events, window)
    ensures Agree(Happen(shards, Cleanup(shard, now), window), plain, events + [Cleanup(shard, now)], window)
  {
    var shards' := Happen(shards, Cleanup(shard, now), window);
    var events' := events + [Cleanup(shard, now)];
    forall k | k in plain && k !in shards'[ShardOf(k)]
      ensures exists i :: 0 <= i < |events'| && events'[i].Cleanup? && events'[i].now - plain[k] >= window
    {
      if k in shards[ShardOf(k)] {
        assert events'[|events|].Cleanup?;
      } else {
        var i :| 0 <= i < |events| && events[i].Cleanup? && events[i].now - plain[k] >= window;
        assert events'[i] == events[i];
      }
    }
  }

  lemma SameAnswer(shards: seq<Entries>, plain: Entries, events: seq<Event>, key: string, now: Time, window: Time)
    requires |shards| == SHARDS && Agree(shards, plain, events, window)
    requires forall i :: 0 <= i < |events| && events[i].Cleanup? ==> events[i].now <= now
    ensures IsNew(shards[ShardOf(key)], key, now, window) == IsNew(plain, key, now, window)
  {
  }

  lemma {:induction false} ShardsAgree(events: seq<Event>, window: Time)
    requires Timely(events)
    ensures Agree(Shards(events, window), Plain(events, window), events, window)
  {
    if events != [] {
      var n := |events| - 1;
      var before := events[..n];
      ShardsAgree(before, window);
      assert events == before + [events[n]];
      match events[n]
      case Check(key, now) =>
        SameAnswer(Shards(before, window), Plain(before, window), before, key, now, window);
        AgreeAfterCheck(Shards(before, window), Plain(before, window), before, key, now, window);
      case Cleanup(shard, now) =>
        AgreeAfterCleanup(Shards(before, window), Plain(before, window), before, shard, now, window);
    }
  }

  /** Refinement: with cleanups at any moments and on any shards, every answer is the
      one a single map that is never cleaned would give. */
  lemma ShardingIsInvisible(events: seq<Event>, window: Time, i: nat)
    requires Timely(events) && i < |events| && events[i].Check?
    ensures Accepted(events, window, i) <==> PlainAccepted(events, window, i)
  {
    ShardsAgree(events[..i], window);
    SameAnswer(Shards(events[..i], window), Plain(events[..i], window), events[..i], events[i].key, events[i].now, window);
  }

  /** A check that read the clock before a cleanup but runs after it can be answered
      differently: the condition above cannot be dropped. */
  lemma StaleReadingDiffers(key: string, window: Time)
    requires window > 0
    ensures var events := [Check(key, 0), Cleanup(ShardOf(key), window), Check(key, window - 1)];
            !Timely(events) && Accepted(events, window, 2) && !PlainAccepted(events, window, 2)
  {
    var events := [Check(key, 0), Cleanup(ShardOf(key), window), Check(key, window - 1)];
    assert events[1].Cleanup? && events[2].Check? && events[1].now > events[2].now;
    assert events[..2] == [Check(key, 0), Cleanup(ShardOf(key), window)];
    assert events[..2][..1] == [Check(key, 0)];
    assert events[..2][..1][..0] == [];
    assert Plain(events[..2][..1], window) == map[key := 0];
    assert Shards(events[..2][..1], window)[ShardOf(key)] == map[key := 0];
    assert Shards(events[..2], window)[ShardOf(key)] == Sweep(map[key := 0], window, window);
  }

  // ----- Exactly when sharding shows -----

  /** Position of the last check of `key` that the plain map accepted, or -1. */
  function LastAccepted(events: seq<Event>, window: Time, key: string): (at: int)
    ensures -1 <= at < |events|
    ensures at >= 0 ==> events[at].Check? && events[at].key == key
  {
    if events == [] then -1
    else
      var n := |events| - 1;
      if events[n].Check? && events[n].key == key && PlainAccepted(events, window, n) then n
      else LastAccepted(events[..n], window, key)
  }

  /** After position `at` some cleanup of the key's shard read a time at least the window later. */
  ghost predicate Swept(events: seq<Event>, window: Time, key: string, at: int)
    requires 0 <= at < |events|
  {
    exists i :: at < i < |events| && events[i].Cleanup? && events[i].shard == ShardOf(key)
      && events[i].now - events[at].now >= window
  }

  /** The first `n` events were answered as one plain map would. */
  ghost predicate AgreedBefore(events: seq<Event>, window: Time, n: nat)
    requires n <= |events|
  {
    forall i :: 0 <= i < n && events[i].Check? ==> (Accepted(events, window, i) <==> PlainAccepted(events, window, i))
  }

  lemma {:induction false} PlainRemembersLast(events: seq<Event>, window: Time, key: string)
    ensures var at := LastAccepted(events, window, key);
      && (key in Plain(events, window) <==> at >= 0)
      && (at >= 0 ==> Plain(events, window)[key] == events[at].now)
  {
    if events != [] {
      PlainRemembersLast(events[..|events| - 1], window, key);
    }
  }

  /** While the answers agree, a shard holds of a key what the plain map holds, unless it was
      swept since. */
  ghost predicate ShardExact(entries: Entries, events: seq<Event>, window: Time, key: string) {
    var at := LastAccepted(events, window, key);
    && (key in entries <==> at >= 0 && !Swept(events, window, key, at))
    && (key in entries ==> entries[key] == events[at].now)
  }

  lemma SweptGrows(before: seq<Event>, e: Event, window: Time, key: string, at: int)
    requires 0 <= at < |before|
    ensures Swept(before + [e], window, key, at) <==>
      Swept(before, window, key, at)
      || (e.Cleanup? && e.shard == ShardOf(key) && e.now - before[at].now >= window)
  {
    var events := before + [e];
    assert events[|before|] == e;
    if Swept(before, window, key, at) {
      var i :| at < i < |before| && before[i].Cleanup? && before[i].shard == ShardOf(key)
        && before[i].now - before[at].now >= window;
      assert events[i] == before[i];
    }
  }

  lemma ShardExactAfterCheck(before: seq<Event>, e: Event, entries: Entries, window: Time, key: string)
    requires e.Check? && ShardExact(entries, before, window, key)
    requires e.key == key ==>
      (IsNew(entries, key, e.now, window) <==> IsNew(Plain(before, window), key, e.now, window))
    ensures ShardExact(if e.key == key then Set(entries, key, e.now, window) else entries, before + [e], window, key)
  {
    var events := before + [e];
    assert events[..|before|] == before;
    var at := LastAccepted(before, window, key);
    if at >= 0 { SweptGrows(before, e, window, key, at); }
  }

  lemma ShardExactAfterCleanup(before: seq<Event>, e: Event, entries: Entries, window: Time, key: string)
    requires e.Cleanup? && ShardExact(entries, before, window, key)
    ensures ShardExact(if e.shard == ShardOf(key) then Sweep(entries, e.now, window) else entries,
      before + [e], window, key)
  {
    assert (before + [e])[..|before|] == before;
    var at := LastAccepted(before, window, key);
    if at >= 0 { SweptGrows(before, e, window, key, at); }
  }

  lemma AgreedPrefix(events: seq<Event>, window: Time, n: nat)
    requires n <= |events| && AgreedBefore(events, window, n)
    ensures AgreedBefore(events[..n], window, n)
  {
    forall i | 0 <= i < n && events[i].Check?
      ensures Accepted(events[..n], window, i) <==> PlainAccepted(events[..n], window, i)
    {
      assert events[..n][..i] == events[..i];
    }
  }

  lemma {:induction false} ShardsAreExact(events: seq<Event>, window: Time, key: string)
    requires AgreedBefore(events, window, |events|)
    ensures ShardExact(Shards(events, window)[ShardOf(key)], events, window, key)
  {
    if events != [] {
      var n := |events| - 1;
      var before, e := events[..n], events[n];
      assert events == before + [e];
      assert AgreedBefore(events, window, n);
      AgreedPrefix(events, window, n);
      ShardsAreExact(before, window, key);
      var entries := Shards(before, window)[ShardOf(key)];
      if e.Check? {
        assert Accepted(events, window, n) <==> PlainAccepted(events, window, n);
        ShardExactAfterCheck(before, e, entries, window, key);
        HappenAt(Shards(before, window), e, window, key);
      } else {
        ShardExactAfterCleanup(before, e, entries, window, key);
        HappenAt(Shards(before, window), e, window, key);
      }
    }
  }

  /** What one event does to the entry of one key. */
  lemma HappenAt(shards: seq<Entries>, e: Event, window: Time, key: string)
    requires |shards| == SHARDS
    ensures var after, entries := Happen(shards, e, window)[ShardOf(key)], shards[ShardOf(key)];
      match e
      case Check(k, now) =>
        if k == key then after == Set(entries, key, now, window)
        else (key in after <==> key in entries) && (key in entries ==> after[key] == entries[key])
      case Cleanup(shard, now) => after == if shard == ShardOf(key) then Sweep(entries, now, window) else entries
  {
  }

  /** As long as all answers so far were those of one plain map, the next one differs exactly
      if the plain map rejects it and, since the acceptance it remembers, a cleanup of the
      key's shard read a time at least the window later. */
  lemma AnswerDiffersIff(events: seq<Event>, window: Time, j: nat)
    requires j < |events| && events[j].Check? && AgreedBefore(events, window, j)
    ensures var at := LastAccepted(events[..j], window, events[j].key);
      (Accepted(events, window, j) != PlainAccepted(events, window, j)) <==>
        !PlainAccepted(events, window, j) && at >= 0 && Swept(events[..j], window, events[j].key, at)
  {
    AgreedPrefix(events, window, j);
    ShardsAreExact(events[..j], window, events[j].key);
    PlainRemembersLast(events[..j], window, events[j].key);
  }

  /** A check the plain map rejects although its shard was swept since. */
  ghost predicate Shows(events: seq<Event>, window: Time, j: nat)
    requires j < |events| && events[j].Check?
  {
    var at := LastAccepted(events[..j], window, events[j].key);
    !PlainAccepted(events, window, j) && at >= 0 && Swept(events[..j], window, events[j].key, at)
  }

  lemma AgreedBeforeNext(events: seq<Event>, window: Time, n: nat)
    requires n < |events|
    ensures AgreedBefore(events, window, n + 1) <==>
      AgreedBefore(events, window, n)
      && (events[n].Check? ==> (Accepted(events, window, n) <==> PlainAccepted(events, window, n)))
  {
  }

  /** Why a check shows: its answer is the first to differ. */
  lemma ShowsIff(events: seq<Event>, window: Time, j: nat)
    requires j < |events| && events[j].Check? && AgreedBefore(events, window, j)
    ensures Shows(events, window, j) <==> Accepted(events, window, j) != PlainAccepted(events, window, j)
  {
    AnswerDiffersIff(events, window, j);
  }

  /** The exact condition, on readings and the plain map alone: sharding and cleanups are
      invisible over a run exactly if no check shows a sweep. */
  lemma {:induction false} ShardingIsInvisibleIff(events: seq<Event>, window: Time, n: nat)
    requires n <= |events|
    ensures AgreedBefore(events, window, n) <==> forall j :: 0 <= j < n && events[j].Check? ==> !Shows(events, window, j)
  {
    if n > 0 {
      ShardingIsInvisibleIff(events, window, n - 1);
      AgreedBeforeNext(events, window, n - 1);
      if AgreedBefore(events, window, n - 1) && events[n - 1].Check? {
        ShowsIff(events, window, n - 1);
      }
    }
  }

  // ----- The window, over a whole run -----

  /** What the plain map remembers is the latest acceptance of each key. */
  lemma {:induction false} LatestAcceptance(events: seq<Event>, window: Time, key: string) returns (at: nat)
    ensures key !in Plain(events, window) ==>
              forall i :: 0 <= i < |events| ==> events[i].Cleanup? || events[i].key != key
    ensures key in Plain(events, window) ==>
              && at < |events| && events[at].Check? && events[at].key == key && PlainAccepted(events, window, at)
              && Plain(events, window)[key] == events[at].now
              && (forall i :: at < i < |events| && events[i].Check? && events[i].key == key ==>
                    !PlainAccepted(events, window, i))
  {
    at := 0;
    if events != [] {
      var n := |events| - 1;
      var before := events[..n];
      at := LatestAcceptance(before, window, key);
      assert forall i :: 0 <= i < n ==> events[i] == before[i] && events[..i] == before[..i];
      if events[n].Check? && events[n].key == key && PlainAccepted(events, window, n) {
        at := n;
      }
    }
  }

  /** Two acceptances by the plain map are apart: each step back to the one before is. */
  lemma {:induction false} PlainAcceptancesAreApart(events: seq<Event>, window: Time, i: nat, j: nat)
    requires window > 0 && i < j < |events|
    requires events[i].Check? && events[j].Check? && events[i].key == events[j].key
    requires PlainAccepted(events, window, i) && PlainAccepted(events, window, j)
    ensures events[j].now - events[i].now >= window
    decreases j
  {
    var before := events[..j];
    var at := LatestAcceptance(before, window, events[j].key);
    assert before[i] == events[i] && before[..i] == events[..i];
    assert before[at] == events[at] && before[..at] == events[..at];
    if at > i { PlainAcceptancesAreApart(events, window, i, at); }
  }

  predicate SameKey(events: seq<Event>, i: nat, j: nat)
    requires i < |events| && j < |events|
  {
    events[i].Check? && events[j].Check? && events[i].key == events[j].key
  }

  /** All acceptances of one key are at least the window apart. */
  ghost predicate Apart(events: seq<Event>, window: Time) {
    forall i, j :: 0 <= i < j < |events| && SameKey(events, i, j) && Accepted(events, window, i) && Accepted(events, window, j)
      ==> events[j].now - events[i].now >= window
  }

  /** The first check that shows a sweep is let through less than the window after the
      acceptance that was forgotten. */
  lemma ShownIsTooSoon(events: seq<Event>, window: Time, j: nat)
    requires j < |events| && events[j].Check? && AgreedBefore(events, window, j) && Shows(events, window, j)
    ensures !Apart(events, window)
  {
    var before := events[..j];
    var at := LastAccepted(before, window, events[j].key);
    AnswerDiffersIff(events, window, j);
    PlainRemembersLast(before, window, events[j].key);
    LastWasAccepted(before, window, events[j].key);
    assert before[at] == events[at] && before[..at] == events[..at];
    assert Accepted(events, window, at) <==> PlainAccepted(events, window, at);
  }

  lemma {:induction false} LastWasAccepted(events: seq<Event>, window: Time, key: string)
    ensures var at := LastAccepted(events, window, key);
      at >= 0 ==> PlainAccepted(events, window, at)
  {
    if events != [] {
      var n := |events| - 1;
      LastWasAccepted(events[..n], window, key);
      assert forall i :: 0 <= i < n ==> events[..n][..i] == events[..i];
    }
  }

  /** The exact condition for the window to be kept over a whole run, on the readings and the
      plain map alone: no check shows a sweep. */
  lemma AcceptancesAreApartIff(events: seq<Event>, window: Time)
    requires window > 0
    ensures Apart(events, window) <==> forall j :: 0 <= j < |events| && events[j].Check? ==> !Shows(events, window, j)
  {
    ShardingIsInvisibleIff(events, window, |events|);
    if AgreedBefore(events, window, |events|) {
      forall i, j | 0 <= i < j < |events| && SameKey(events, i, j)
        && Accepted(events, window, i) && Accepted(events, window, j)
        ensures events[j].now - events[i].now >= window
      {
        PlainAcceptancesAreApart(events, window, i, j);
      }
    } else {
      var j := FirstShown(events, window, |events|);
      ShownIsTooSoon(events, window, j);
    }
  }

  lemma {:induction false} FirstShown(events: seq<Event>, window: Time, n: nat) returns (j: nat)
    requires n <= |events| && !AgreedBefore(events, window, n)
    ensures j < n && events[j].Check? && AgreedBefore(events, window, j) && Shows(events, window, j)
  {
    if AgreedBefore(events, window, n - 1) {
      j := n - 1;
      AnswerDiffersIff(events, window, j);
    } else {
      j := FirstShown(events, window, n - 1);
    }
  }

  /** With timely readings, checks between the shards of one cleanup pass included, two
      acceptances of one key are at least the window apart. */
  lemma AcceptancesAreApart(events: seq<Event>, window: Time, i: nat, j: nat)
    requires Timely(events) && window > 0 && i < j < |events|
    requires events[i].Check? && events[j].Check? && events[i].key == events[j].key
    requires Accepted(events, window, i) && Accepted(events, window, j)
    ensures events[j].now - events[i].now >= window
  {
    ShardingIsInvisible(events, window, i);
    ShardingIsInvisible(events, window, j);
    PlainAcceptancesAreApart(events, window, i, j);
  }

  /** Whatever a shard holds of a key is the time of an acceptance. */
  lemma {:induction false} EntryWasAccepted(events: seq<Event>, window: Time, key: string) returns (at: nat)
    ensures var entries := Shards(events, window)[ShardOf(key)];
      key in entries ==>
        && at < |events| && events[at].Check? && events[at].key == key
        && Accepted(events, window, at) && entries[key] == events[at].now
  {
    at := 0;
    if events != [] {
      var n := |events| - 1;
      var before, e := events[..n], events[n];
      at := EntryWasAccepted(before, window, key);
      assert forall i :: 0 <= i < n ==> events[i] == before[i] && events[..i] == before[..i];
      HappenAt(Shards(before, window), e, window, key);
      if e.Check? && e.key == key && Accepted(events, window, n) { at := n; }
    }
  }

  /** In every run, whatever cleanups do, a rejection has an acceptance of the same key less
      than the window before it. */
  lemma RejectionHasCause(events: seq<Event>, window: Time, j: nat) returns (i: nat)
    requires j < |events| && events[j].Check? && !Accepted(events, window, j)
    ensures i < j && events[i].Check? && events[i].key == events[j].key && Accepted(events, window, i)
    ensures events[j].now - events[i].now < window
  {
    var before := events[..j];
    i := EntryWasAccepted(before, window, events[j].key);
    assert before[i] == events[i] && before[..i] == events[..i];
  }
}
