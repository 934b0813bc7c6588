/** The telemetry of pkg/model/stats.go: the counters as RecordResult leaves them, and
    the ring buffer of history points. */
module Stats {
  import opened PipelineRun

  const HISTORY_SIZE: nat := 120

  datatype HistoryPoint = HistoryPoint(timestamp: int, alive: int, scanned: int, speed: real)

  /** A whole RecordResult call, from the scan to the country. */
  function Recorded(c: Counters, r: Result): Counters {
    var classified := CountedAt(c.(scanned := c.scanned + 1), r, Scanned);
    if r.success then Described(classified, r) else classified
  }

  /** The part of the call that only a success reaches. */
  function Described(c: Counters, r: Result): Counters {
    CountedAt(CountedAt(CountedAt(c, r, Classified), r, WithProtocol), r, WithAnonymity)
  }

  /** The totals of the levels of the counters. */
  datatype Totals = Totals(queued: nat, scanned: nat, alive: nat, dead: nat, protocols: nat, anonymities: nat, countries: nat)

  ghost function TotalsOf(c: Counters): Totals {
    Totals(c.queued, c.scanned, c.alive, c.dead, ProtocolSum(c), AnonymitySum(c), CountrySum(c.countries))
  }

  lemma ClassifiedAddsOne(c: Counters, r: Result)
    ensures var n := TotalsOf(c);
      TotalsOf(CountedAt(c.(scanned := c.scanned + 1), r, Scanned))
      == n.(scanned := n.scanned + 1, alive := n.alive + Bit(r.success), dead := n.dead + Bit(!r.success))
  {
  }

  /** The three stages after a success has been counted. */
  lemma DescribedAddsOne(c: Counters, r: Result)
    requires WellFormed(r) && r.success
    ensures var n := TotalsOf(c);
      TotalsOf(Described(c, r))
      == n.(protocols := n.protocols + 1, anonymities := n.anonymities + 1, countries := n.countries + 1)
  {
    StageAddsOne(c, r, Classified);
    var c3 := CountedAt(c, r, Classified);
    StageAddsOne(c3, r, WithProtocol);
    StageAddsOne(CountedAt(c3, r, WithProtocol), r, WithAnonymity);
  }

  /** A call made alone keeps every level of the counters in step. */
  lemma RecordedAddsOne(c: Counters, r: Result)
    requires WellFormed(r)
    ensures var n, one := TotalsOf(c), Bit(r.success);
      TotalsOf(Recorded(c, r))
      == Totals(n.queued, n.scanned + 1, n.alive + one, n.dead + 1 - one,
                n.protocols + one, n.anonymities + one, n.countries + one)
  {
    ClassifiedAddsOne(c, r);
    if r.success {
      DescribedAddsOne(CountedAt(c.(scanned := c.scanned + 1), r, Scanned), r);
    }
  }

  /** From `c` to `after` exactly the counters that are for the result were raised, by one. */
  ghost predicate Raises(c: Counters, after: Counters, r: Result) {
    forall kind :: CounterOf(after, kind) == CounterOf(c, kind) + if IsFor(kind, r) then 1 else 0
  }

  lemma FirstRaises(c: Counters, r: Result, kind: Kind)
    requires StageOf(kind) == Scanned
    ensures CounterOf(Recorded(c, r), kind) == CounterOf(c, kind) + if IsFor(kind, r) then 1 else 0
  {
  }

  lemma ProtocolRaises(c: Counters, r: Result, kind: Kind)
    requires StageOf(kind) == Classified
    ensures CounterOf(Recorded(c, r), kind) == CounterOf(c, kind) + if IsFor(kind, r) then 1 else 0
  {
  }

  lemma AnonymityRaises(c: Counters, r: Result, kind: Kind)
    requires StageOf(kind) == WithProtocol
    ensures CounterOf(Recorded(c, r), kind) == CounterOf(c, kind) + if IsFor(kind, r) then 1 else 0
  {
  }

  lemma CountryRaises(c: Counters, r: Result, kind: Kind)
    requires StageOf(kind) == WithAnonymity
    ensures CounterOf(Recorded(c, r), kind) == CounterOf(c, kind) + if IsFor(kind, r) then 1 else 0
  {
  }

  /** A whole call does that. */
  lemma RecordedRaises(c: Counters, r: Result)
    ensures Raises(c, Recorded(c, r), r)
  {
    forall kind ensures CounterOf(Recorded(c, r), kind) == CounterOf(c, kind) + if IsFor(kind, r) then 1 else 0 {
      match StageOf(kind)
      case Scanned => FirstRaises(c, r, kind);
      case Classified => ProtocolRaises(c, r, kind);
      case WithProtocol => AnonymityRaises(c, r, kind);
      case WithAnonymity => CountryRaises(c, r, kind);
    }
  }

  /** A whole call counts one scan and nothing queued. */
  lemma RecordedScans(c: Counters, r: Result)
    ensures Recorded(c, r).scanned == c.scanned + 1 && Recorded(c, r).queued == c.queued
  {
  }

  // ----- The ring -----

  /** The points the ring starts with: one per slot, a second apart, ending before `now`. */
  function Prefill(now: int): (points: seq<HistoryPoint>)
    ensures |points| == HISTORY_SIZE
  {
    seq(HISTORY_SIZE, i => HistoryPoint(now - (HISTORY_SIZE - i), 0, 0, 0.0))
  }

  /** The slots after a number of pushes; the first push goes to slot 1. */
  function Ring(prefill: seq<HistoryPoint>, pushes: seq<HistoryPoint>): (ring: seq<HistoryPoint>)
    requires |prefill| == HISTORY_SIZE
    ensures |ring| == HISTORY_SIZE
  {
    if pushes == [] then prefill
    else Ring(prefill, pushes[..|pushes| - 1])[|pushes| % HISTORY_SIZE := pushes[|pushes| - 1]]
  }

  /** GetHistory: the slots from the one after the latest push around to it. */
  function Unrolled(ring: seq<HistoryPoint>, index: nat): (points: seq<HistoryPoint>)
    requires |ring| == HISTORY_SIZE
    ensures |points| == HISTORY_SIZE
  {
    seq(HISTORY_SIZE, i requires 0 <= i < HISTORY_SIZE => ring[(index + i + 1) % HISTORY_SIZE])
  }

  lemma DifferentSlots(k: nat, n: nat)
    requires k < n < k + HISTORY_SIZE
    ensures k % HISTORY_SIZE != n % HISTORY_SIZE
  {
  }

  lemma {:induction false} RingHolds(prefill: seq<HistoryPoint>, pushes: seq<HistoryPoint>, k: nat)
    requires |prefill| == HISTORY_SIZE && 0 < k <= |pushes| && |pushes| - k < HISTORY_SIZE
    ensures Ring(prefill, pushes)[k % HISTORY_SIZE] == pushes[k - 1]
    decreases |pushes|
  {
    if k < |pushes| {
      RingHolds(prefill, pushes[..|pushes| - 1], k);
      DifferentSlots(k, |pushes|);
    }
  }

  lemma {:induction false} RingKeepsPrefill(prefill: seq<HistoryPoint>, pushes: seq<HistoryPoint>, slot: nat)
    requires |prefill| == HISTORY_SIZE && |pushes| < HISTORY_SIZE
    requires slot == 0 || |pushes| < slot < HISTORY_SIZE
    ensures Ring(prefill, pushes)[slot] == prefill[slot]
    decreases |pushes|
  {
    if pushes != [] {
      RingKeepsPrefill(prefill, pushes[..|pushes| - 1], slot);
    }
  }

  function Min(a: nat, b: nat): nat {
    if a < b then a else b
  }

  lemma UnrolledAt(ring: seq<HistoryPoint>, index: nat, i: nat, slot: nat)
    requires |ring| == HISTORY_SIZE && i < HISTORY_SIZE && slot < HISTORY_SIZE
    requires (index + i + 1) % HISTORY_SIZE == slot
    ensures Unrolled(ring, index)[i] == ring[slot]
  {
  }

  lemma FullTurn(k: nat)
    ensures (k + HISTORY_SIZE) % HISTORY_SIZE == k % HISTORY_SIZE
  {
  }

  lemma PushUnrolled(prefill: seq<HistoryPoint>, pushes: seq<HistoryPoint>, i: nat)
    requires |prefill| == HISTORY_SIZE && HISTORY_SIZE - Min(|pushes|, HISTORY_SIZE) <= i < HISTORY_SIZE
    ensures Unrolled(Ring(prefill, pushes), |pushes|)[i] == pushes[|pushes| - HISTORY_SIZE + i]
  {
    var k := |pushes| - HISTORY_SIZE + i + 1;
    RingHolds(prefill, pushes, k);
    FullTurn(k);
    UnrolledAt(Ring(prefill, pushes), |pushes|, i, k % HISTORY_SIZE);
  }

  /** For every number of pushes, GetHistory ends with the latest of them, at most 120,
      in push order; from 120 pushes on they are all it returns. */
  lemma HistoryEndsWithPushes(prefill: seq<HistoryPoint>, pushes: seq<HistoryPoint>)
    requires |prefill| == HISTORY_SIZE
    ensures var points, m := Unrolled(Ring(prefill, pushes), |pushes|), Min(|pushes|, HISTORY_SIZE);
            points[HISTORY_SIZE - m..] == pushes[|pushes| - m..]
    ensures |pushes| >= HISTORY_SIZE ==>
              Unrolled(Ring(prefill, pushes), |pushes|) == pushes[|pushes| - HISTORY_SIZE..]
  {
    var points := Unrolled(Ring(prefill, pushes), |pushes|);
    forall i | HISTORY_SIZE - Min(|pushes|, HISTORY_SIZE) <= i < HISTORY_SIZE
      ensures points[i] == pushes[|pushes| - HISTORY_SIZE + i]
    {
      PushUnrolled(prefill, pushes, i);
    }
    EndsAlike(points, pushes);
  }

  lemma EndsAlike(points: seq<HistoryPoint>, pushes: seq<HistoryPoint>)
    requires |points| == HISTORY_SIZE
    requires forall i :: HISTORY_SIZE - Min(|pushes|, HISTORY_SIZE) <= i < HISTORY_SIZE ==>
               points[i] == pushes[|pushes| - HISTORY_SIZE + i]
    ensures var m := Min(|pushes|, HISTORY_SIZE); points[HISTORY_SIZE - m..] == pushes[|pushes| - m..]
    ensures |pushes| >= HISTORY_SIZE ==> points == pushes[|pushes| - HISTORY_SIZE..]
  {
    var n, m := |pushes|, Min(|pushes|, HISTORY_SIZE);
    assert points[HISTORY_SIZE - m..] == pushes[n - m..];
  }

  ghost predicate Chronological(points: seq<HistoryPoint>) {
    forall i, j :: 0 <= i < j < |points| ==> points[i].timestamp <= points[j].timestamp
  }

  /** Pushes are made in time order, none before the start. */
  ghost predicate PushedSince(pushes: seq<HistoryPoint>, start: int) {
    Chronological(pushes) && forall i :: 0 <= i < |pushes| ==> pushes[i].timestamp >= start
  }

  lemma SlotsBeforeFull(n: nat)
    requires n < HISTORY_SIZE
    ensures n < HISTORY_SIZE - 1 ==> (n + 0 + 1) % HISTORY_SIZE == n + 1
    ensures (n + (HISTORY_SIZE - 1 - n) + 1) % HISTORY_SIZE == 0
  {
  }

  /** The first point returned, and the point of slot 0, while slots are still prefilled. */
  lemma PrefillUnrolled(prefill: seq<HistoryPoint>, pushes: seq<HistoryPoint>)
    requires |prefill| == HISTORY_SIZE && |pushes| < HISTORY_SIZE
    ensures |pushes| < HISTORY_SIZE - 1 ==> Unrolled(Ring(prefill, pushes), |pushes|)[0] == prefill[|pushes| + 1]
    ensures Unrolled(Ring(prefill, pushes), |pushes|)[HISTORY_SIZE - 1 - |pushes|] == prefill[0]
  {
    var n := |pushes|;
    SlotsBeforeFull(n);
    RingKeepsPrefill(prefill, pushes, 0);
    UnrolledAt(Ring(prefill, pushes), n, HISTORY_SIZE - 1 - n, 0);
    if n < HISTORY_SIZE - 1 {
      RingKeepsPrefill(prefill, pushes, n + 1);
      UnrolledAt(Ring(prefill, pushes), n, 0, n + 1);
    }
  }

  /** What GetHistory returns is ordered oldest to newest exactly from the 119th push on. */
  lemma ChronologicalIff(start: int, pushes: seq<HistoryPoint>)
    requires PushedSince(pushes, start)
    ensures Chronological(Unrolled(Ring(Prefill(start), pushes), |pushes|)) <==> |pushes| >= 119
  {
    HistoryEndsWithPushes(Prefill(start), pushes);
    if |pushes| < HISTORY_SIZE {
      PrefillUnrolled(Prefill(start), pushes);
    }
    OrderedIff(start, Unrolled(Ring(Prefill(start), pushes), |pushes|), pushes);
  }

  lemma OrderedIff(start: int, points: seq<HistoryPoint>, pushes: seq<HistoryPoint>)
    requires PushedSince(pushes, start) && |points| == HISTORY_SIZE
    requires var m := Min(|pushes|, HISTORY_SIZE); points[HISTORY_SIZE - m..] == pushes[|pushes| - m..]
    requires |pushes| < HISTORY_SIZE - 1 ==> points[0] == Prefill(start)[|pushes| + 1]
    requires |pushes| < HISTORY_SIZE ==> points[HISTORY_SIZE - 1 - |pushes|] == Prefill(start)[0]
    ensures Chronological(points) <==> |pushes| >= HISTORY_SIZE - 1
  {
    var n := |pushes|;
    if n < HISTORY_SIZE - 1 {
      assert points[0].timestamp > points[HISTORY_SIZE - 1 - n].timestamp;
    } else if n == HISTORY_SIZE - 1 {
      assert points == [points[0]] + points[1..];
      assert points[1..] == pushes[0..] == pushes;
    } else {
      assert points == points[0..] == pushes[n - HISTORY_SIZE..];
    }
  }

  // ----- The collector -----

  class Stats {
    var totalQueued: nat
    var totalScanned: nat
    var totalAlive: nat
    var totalDead: nat
    var httpAlive: nat
    var httpsAlive: nat
    var socks4Alive: nat
    var socks5Alive: nat
    var eliteAlive: nat
    var anonymousAlive: nat
    var transparentAlive: nat
    var countryCounts: map<string, nat>
    const history: array<HistoryPoint>
    var historyIdx: nat
    ghost const start: int
    ghost var pushes: seq<HistoryPoint>

    function Value(): Counters
      reads this
    {
      Counters(totalQueued, totalScanned, totalAlive, totalDead, httpAlive, httpsAlive, socks4Alive, socks5Alive,
               eliteAlive, anonymousAlive, transparentAlive, countryCounts)
    }

    ghost predicate Valid()
      reads this, history
    {
      && history.Length == HISTORY_SIZE
      && historyIdx == |pushes|
      && history[..] == Ring(Prefill(start), pushes)
    }

    constructor (now: int)
      ensures Valid() && fresh(history) && Value() == NoCounts() && pushes == [] && start == now
    {
      totalQueued, totalScanned, totalAlive, totalDead := 0, 0, 0, 0;
      httpAlive, httpsAlive, socks4Alive, socks5Alive := 0, 0, 0, 0;
      eliteAlive, anonymousAlive, transparentAlive := 0, 0, 0;
      countryCounts := map[];
      history := new HistoryPoint[HISTORY_SIZE](i => HistoryPoint(now - (HISTORY_SIZE - i), 0, 0, 0.0));
      historyIdx, start, pushes := 0, now, [];
      new;
      assert history[..] == Prefill(now);
    }

    method IncQueued()
      modifies this`totalQueued
      ensures Value() == old(Value()).(queued := old(totalQueued) + 1)
    {
      totalQueued := totalQueued + 1;
    }

    method RecordResult(r: Result)
      modifies `totalScanned, `totalAlive, `totalDead, `httpAlive, `httpsAlive, `socks4Alive, `socks5Alive,
               `eliteAlive, `anonymousAlive, `transparentAlive, `countryCounts
      ensures Value() == Recorded(old(Value()), r)
      ensures totalScanned == old(totalScanned) + 1
      ensures Raises(old(Value()), Value(), r)
    {
      RecordedScans(Value(), r);
      RecordedRaises(Value(), r);
      Classify(r.success);
      if r.success {
        Describe(r);
      }
    }

    method Classify(success: bool)
      modifies `totalScanned, `totalAlive, `totalDead
      ensures forall r: Result :: r.success == success ==>
        Value() == CountedAt(old(Value()).(scanned := old(Value()).scanned + 1), r, Scanned)
    {
      totalScanned := totalScanned + 1;
      if success {
        totalAlive := totalAlive + 1;
      } else {
        totalDead := totalDead + 1;
      }
    }

    method Describe(r: Result)
      modifies `httpAlive, `httpsAlive, `socks4Alive, `socks5Alive,
               `eliteAlive, `anonymousAlive, `transparentAlive, `countryCounts
      ensures Value() == Described(old(Value()), r)
    {
      CountProtocol(r.protocol);
      CountAnonymity(r.anonymity);
      if r.country != "" {
        countryCounts := countryCounts[r.country := CountOf(countryCounts, r.country) + 1];
      }
    }

    method CountProtocol(p: Protocol)
      modifies `httpAlive, `httpsAlive, `socks4Alive, `socks5Alive
      ensures Value() == ProtocolCounted(old(Value()), p)
    {
      match p
      case HTTP => httpAlive := httpAlive + 1;
      case HTTPS => httpsAlive := httpsAlive + 1;
      case SOCKS4 => socks4Alive := socks4Alive + 1;
      case SOCKS4A => socks4Alive := socks4Alive + 1;
      case SOCKS5 => socks5Alive := socks5Alive + 1;
      case OtherProtocol =>
    }

    method CountAnonymity(a: Anonymity)
      modifies `eliteAlive, `anonymousAlive, `transparentAlive
      ensures Value() == AnonymityCounted(old(Value()), a)
    {
      match a
      case Elite => eliteAlive := eliteAlive + 1;
      case Anonymous => anonymousAlive := anonymousAlive + 1;
      case Transparent => transparentAlive := transparentAlive + 1;
      case UnknownAnonymity =>
    }

    method PushHistoryPoint(now: int, speed: real)
      requires Valid()
      modifies `historyIdx, `pushes, history
      ensures Valid()
      ensures pushes == old(pushes) + [HistoryPoint(now, totalAlive, totalScanned, speed)]
    {
      var point := HistoryPoint(now, totalAlive, totalScanned, speed);
      historyIdx := historyIdx + 1;
      history[historyIdx % HISTORY_SIZE] := point;
      pushes := pushes + [point];
      assert pushes[..|pushes| - 1] == old(pushes);
    }

    method GetHistory() returns (result: array<HistoryPoint>)
      requires Valid()
      ensures fresh(result) && result[..] == Unrolled(Ring(Prefill(start), pushes), |pushes|)
    {
      result := new HistoryPoint[HISTORY_SIZE](_ => HistoryPoint(0, 0, 0, 0.0));
      for i := 0 to HISTORY_SIZE
        invariant forall j :: 0 <= j < i ==> result[j] == history[..][(historyIdx + j + 1) % HISTORY_SIZE]
        invariant history[..] == old(history[..])
      {
        result[i] := history[(historyIdx + i + 1) % HISTORY_SIZE];
      }
    }
  }
}
