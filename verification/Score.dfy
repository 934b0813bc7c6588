/** The quality score of pkg/checker/checker.go, over the reals, for any logarithm and any
    exponential with the few properties the score rests on. */
module Score {
  import opened PipelineRun
  import opened Text

  /** The fields of a proxy that the score reads; `hours` is the time since it was last alive,
      None when it never was. */
  datatype Record = Record(
    latencyMs: int, anonymity: Anonymity, protocol: Protocol, ssl: bool,
    consecutiveFail: int, success: nat, failed: nat, hours: Option<real>, judges: int)

  /** The logarithm and the exponential. */
  datatype Curves = Curves(log: real -> real, exp: real -> real)

  ghost predicate Reasonable(c: Curves) {
    && (forall x: real, y: real :: 1.0 <= x <= y ==> c.log(x) <= c.log(y))
    && c.log(1.0) == 0.0 && c.log(51.0) > 0.0
    && (forall x: real, y: real :: x <= y <= 0.0 ==> c.exp(x) <= c.exp(y))
    && (forall x: real :: x <= 0.0 ==> 0.0 < c.exp(x) <= 1.0)
  }

  function Cap(x: real, limit: real): real {
    if x > limit then limit else x
  }

  function Pow2(n: nat): real {
    if n == 0 then 1.0 else 2.0 * Pow2(n - 1)
  }

  // ----- The terms -----

  function LatencyPenalty(c: Curves, ms: int): real
    requires c.log(51.0) > 0.0
  {
    if ms > 0 then Cap(45.0 * c.log(ms as real / 100.0 + 1.0) / c.log(51.0), 45.0) else 0.0
  }

  function AnonymityBonus(a: Anonymity): real {
    match a
    case Elite => 8.0
    case Transparent => -30.0
    case _ => 0.0
  }

  function ProtocolBonus(p: Protocol): real {
    match p
    case SOCKS5 => 10.0
    case HTTPS => 6.0
    case SOCKS4 => 4.0
    case SOCKS4A => 4.0
    case _ => 0.0
  }

  function FailPenalty(n: int): real {
    if n > 0 then Cap(Pow2(n) * 8.0, 50.0) else 0.0
  }

  function HistoryPenalty(success: nat, failed: nat): real {
    if success + failed > 2 then (1.0 - success as real / (success + failed) as real) * 30.0 else 0.0
  }

  function IdlePenalty(c: Curves, hours: Option<real>): real {
    if hours.Some? && hours.value > 0.0 then (1.0 - c.exp(-hours.value / 24.0)) * 25.0 else 0.0
  }

  function JudgeBonus(judges: int): real {
    if judges > 1 then Cap((judges - 1) as real * 3.0, 10.0) else 0.0
  }

  function RawScore(c: Curves, p: Record): real
    requires c.log(51.0) > 0.0
  {
    100.0 - LatencyPenalty(c, p.latencyMs) + AnonymityBonus(p.anonymity) + ProtocolBonus(p.protocol)
    + (if p.ssl then 6.0 else 0.0) - FailPenalty(p.consecutiveFail) - HistoryPenalty(p.success, p.failed)
    - IdlePenalty(c, p.hours) + JudgeBonus(p.judges)
  }

  /** Clamped to 0..100 and rounded half up. */
  function Clamped(raw: real): int {
    ((if raw > 100.0 then 100.0 else if raw < 0.0 then 0.0 else raw) + 0.5).Floor
  }

  function ScoreOf(c: Curves, p: Record): int
    requires c.log(51.0) > 0.0
  {
    Clamped(RawScore(c, p))
  }

  /** The first half of the score: what a check measures. */
  method MeasuredPart(c: Curves, p: Record) returns (score: real)
    requires c.log(51.0) > 0.0
    ensures score == 100.0 - LatencyPenalty(c, p.latencyMs) + AnonymityBonus(p.anonymity)
      + ProtocolBonus(p.protocol) + (if p.ssl then 6.0 else 0.0)
  {
    score := 100.0;
    if p.latencyMs > 0 {
      var penalty := 45.0 * c.log(p.latencyMs as real / 100.0 + 1.0) / c.log(51.0);
      if penalty > 45.0 { penalty := 45.0; }
      score := score - penalty;
    }
    match p.anonymity {
      case Elite => score := score + 8.0;
      case Transparent => score := score - 30.0;
      case _ =>
    }
    match p.protocol {
      case SOCKS5 => score := score + 10.0;
      case HTTPS => score := score + 6.0;
      case SOCKS4 => score := score + 4.0;
      case SOCKS4A => score := score + 4.0;
      case _ =>
    }
    if p.ssl { score := score + 6.0; }
  }

  /** The second half: what the past adds or takes. */
  method WithPast(c: Curves, p: Record, measured: real) returns (score: real)
    ensures score == measured - FailPenalty(p.consecutiveFail) - HistoryPenalty(p.success, p.failed)
      - IdlePenalty(c, p.hours) + JudgeBonus(p.judges)
  {
    score := measured;
    if p.consecutiveFail > 0 {
      score := score - Cap(Pow2(p.consecutiveFail) * 8.0, 50.0);
    }
    var total := p.success + p.failed;
    if total > 2 {
      var rate := p.success as real / total as real;
      score := score - (1.0 - rate) * 30.0;
    }
    if p.hours.Some? {
      if p.hours.value > 0.0 {
        var decay := c.exp(-p.hours.value / 24.0);
        score := score - (1.0 - decay) * 25.0;
      }
    }
    if p.judges > 1 {
      var bonus := (p.judges - 1) as real * 3.0;
      if bonus > 10.0 { bonus := 10.0; }
      score := score + bonus;
    }
  }

  method CalculateScore(c: Curves, p: Record) returns (r: int)
    requires c.log(51.0) > 0.0
    ensures r == ScoreOf(c, p) && 0 <= r <= 100
  {
    var measured := MeasuredPart(c, p);
    var score := WithPast(c, p, measured);
    assert score == RawScore(c, p);
    if score > 100.0 { score := 100.0; }
    if score < 0.0 { score := 0.0; }
    r := (score + 0.5).Floor;
  }

  // ----- Each penalty is monotone -----

  lemma LatencyPenaltyGrows(c: Curves, a: int, b: int)
    requires Reasonable(c) && a <= b
    ensures 0.0 <= LatencyPenalty(c, a) <= LatencyPenalty(c, b) <= 45.0
  {
    if b > 0 {
      var x := if a > 0 then a as real / 100.0 + 1.0 else 1.0;
      var y := b as real / 100.0 + 1.0;
      assert 1.0 <= x <= y;
      assert 0.0 == c.log(1.0) <= c.log(x) <= c.log(y);
      QuotientsGrow(45.0 * c.log(x), 45.0 * c.log(y), c.log(51.0));
    }
  }

  lemma QuotientsGrow(x: real, y: real, d: real)
    requires 0.0 <= x <= y && d > 0.0
    ensures 0.0 <= x / d <= y / d
  {
    assert (y - x) / d >= 0.0;
    assert y / d - x / d == (y - x) / d;
  }

  lemma {:induction false} Pow2Grows(a: nat, b: nat)
    requires a <= b
    ensures 1.0 <= Pow2(a) <= Pow2(b)
    decreases b
  {
    if a > 0 { Pow2Grows(a - 1, b - 1); }
    else if b > 0 { Pow2Grows(0, b - 1); }
  }

  lemma FailPenaltyGrows(a: int, b: int)
    requires a <= b
    ensures 0.0 <= FailPenalty(a) <= FailPenalty(b) <= 50.0
  {
    if a > 0 { Pow2Grows(a, b); } else if b > 0 { Pow2Grows(0, b); }
  }

  /** From the third failure in a row on, further ones cost nothing more. */
  lemma FailPenaltySaturates(n: int)
    ensures FailPenalty(n) == 50.0 <==> n >= 3
  {
    if n >= 3 { Pow2Grows(3, n); }
    assert Pow2(1) == 2.0 * Pow2(0) && Pow2(2) == 2.0 * Pow2(1) && Pow2(3) == 2.0 * Pow2(2);
  }

  lemma SignOf(x: real, y: real)
    requires y > 0.0 && x * y <= 0.0
    ensures x <= 0.0
  {
  }

  lemma FractionsCompare(a: real, b: real, c: real, d: real)
    requires b > 0.0 && d > 0.0 && a * d <= c * b
    ensures a / b <= c / d
  {
    var u, v := a / b, c / d;
    assert u * b == a && v * d == c;
    assert (u - v) * (b * d) == (u * b) * d - (v * d) * b;
    SignOf(u - v, b * d);
  }

  lemma QuotientOfEquals(y: real)
    requires y > 0.0
    ensures y / y == 1.0
  {
    var q := y / y;
    assert q * y == y;
    assert (q - 1.0) * y == 0.0;
    SignOf(q - 1.0, y);
    SignOf(1.0 - q, y);
  }

  lemma RateFalls(s: nat, f: nat, g: nat)
    requires f <= g && s + f > 0
    ensures 0.0 <= s as real / (s + g) as real <= s as real / (s + f) as real <= 1.0
  {
    var x, y, z := s as real, (s + f) as real, (s + g) as real;
    assert x * y <= x * z;
    FractionsCompare(x, z, x, y);
    QuotientsGrow(x, y, y);
    QuotientsGrow(0.0, x, z);
    QuotientOfEquals(y);
  }

  lemma HistoryPenaltyGrows(s: nat, f: nat, g: nat)
    requires f <= g
    ensures 0.0 <= HistoryPenalty(s, f) <= HistoryPenalty(s, g) <= 30.0
  {
    if s + g > 2 {
      RateFalls(s, g, g);
      if s + f > 2 { RateFalls(s, f, g); }
    }
  }

  lemma IdlePenaltyGrows(c: Curves, a: Option<real>, b: Option<real>)
    requires Reasonable(c) && (a.Some? ==> b.Some? && a.value <= b.value)
    ensures 0.0 <= IdlePenalty(c, a) <= IdlePenalty(c, b) <= 25.0
  {
    if b.Some? && b.value > 0.0 {
      var y := -b.value / 24.0;
      assert y <= 0.0;
      if a.Some? && a.value > 0.0 {
        var x := -a.value / 24.0;
        assert y <= x <= 0.0;
        assert c.exp(y) <= c.exp(x);
      }
    }
  }

  // ----- The score -----

  /** `q` is no better than `p`: slower, more failures, idle for longer, otherwise the same. */
  predicate NoBetter(q: Record, p: Record) {
    && q.latencyMs >= p.latencyMs && q.consecutiveFail >= p.consecutiveFail && q.failed >= p.failed
    && (p.hours.Some? ==> q.hours.Some? && q.hours.value >= p.hours.value)
    && q == p.(latencyMs := q.latencyMs, consecutiveFail := q.consecutiveFail, failed := q.failed, hours := q.hours)
  }

  lemma ClampedGrows(x: real, y: real)
    requires x <= y
    ensures 0 <= Clamped(x) <= Clamped(y) <= 100
  {
  }

  /** The score is a whole number from 0 to 100 and never rises when latency, failures in a
      row, failed checks or idle time grow, one of them or several at once. */
  lemma ScoreNeverRises(c: Curves, p: Record, q: Record)
    requires Reasonable(c) && NoBetter(q, p)
    ensures 0 <= ScoreOf(c, q) <= ScoreOf(c, p) <= 100
  {
    LatencyPenaltyGrows(c, p.latencyMs, q.latencyMs);
    FailPenaltyGrows(p.consecutiveFail, q.consecutiveFail);
    HistoryPenaltyGrows(p.success, p.failed, q.failed);
    IdlePenaltyGrows(c, p.hours, q.hours);
    ClampedGrows(RawScore(c, q), RawScore(c, p));
  }

  /** From five seconds on latency costs the full 45 points, at zero nothing. */
  lemma LatencyEndpoints(c: Curves, ms: int)
    requires Reasonable(c)
    ensures ms <= 0 ==> LatencyPenalty(c, ms) == 0.0
    ensures ms >= 5000 ==> LatencyPenalty(c, ms) == 45.0
  {
    if ms >= 5000 {
      LatencyPenaltyGrows(c, 5000, ms);
      assert 5000 as real / 100.0 + 1.0 == 51.0;
      assert 45.0 * c.log(51.0) / c.log(51.0) == 45.0;
    }
  }

  /** The score when a bonus term changes and all else stays. */
  lemma BetterBonus(c: Curves, worse: Record, better: Record)
    requires c.log(51.0) > 0.0 && better == worse.(
      protocol := better.protocol, anonymity := better.anonymity, ssl := better.ssl, judges := better.judges)
    requires AnonymityBonus(worse.anonymity) <= AnonymityBonus(better.anonymity)
    requires ProtocolBonus(worse.protocol) <= ProtocolBonus(better.protocol)
    requires (worse.ssl ==> better.ssl) && worse.judges <= better.judges
    ensures ScoreOf(c, worse) <= ScoreOf(c, better)
  {
    ClampedGrows(RawScore(c, worse), RawScore(c, better));
  }

  /** All else equal SOCKS5 scores at least as well as HTTPS, HTTPS as SOCKS4, SOCKS4 as HTTP. */
  lemma ProtocolsAreOrdered(c: Curves, p: Record)
    requires c.log(51.0) > 0.0
    ensures ScoreOf(c, p.(protocol := SOCKS5)) >= ScoreOf(c, p.(protocol := HTTPS))
      >= ScoreOf(c, p.(protocol := SOCKS4)) >= ScoreOf(c, p.(protocol := HTTP))
  {
    BetterBonus(c, p.(protocol := HTTP), p.(protocol := SOCKS4));
    BetterBonus(c, p.(protocol := SOCKS4), p.(protocol := HTTPS));
    BetterBonus(c, p.(protocol := HTTPS), p.(protocol := SOCKS5));
  }

  /** All else equal elite scores at least as well as anonymous, and anonymous as transparent. */
  lemma AnonymityIsOrdered(c: Curves, p: Record)
    requires c.log(51.0) > 0.0
    ensures ScoreOf(c, p.(anonymity := Elite)) >= ScoreOf(c, p.(anonymity := Anonymous))
      >= ScoreOf(c, p.(anonymity := Transparent))
  {
    BetterBonus(c, p.(anonymity := Transparent), p.(anonymity := Anonymous));
    BetterBonus(c, p.(anonymity := Anonymous), p.(anonymity := Elite));
  }

  // ----- What each term is worth -----

  /** Where nothing is clamped: far enough from both ends for any bonus. */
  predicate Unclamped(raw: real) {
    0.0 <= raw <= 100.0
  }

  /** The score is the nearest whole number, halves up, and never leaves 0 to 100. */
  lemma ClampedIsNearest(raw: real)
    ensures Unclamped(raw) ==> raw - 0.5 < Clamped(raw) as real <= raw + 0.5
    ensures raw > 100.0 ==> Clamped(raw) == 100
    ensures raw < 0.0 ==> Clamped(raw) == 0
  {
  }

  /** What is left of a hundred points after three failures in a row and nothing else. */
  lemma HalfScore(c: Curves, judges: int)
    requires c.log(51.0) > 0.0 && judges <= 1
    ensures ScoreOf(c, Record.Record(0, Anonymous, HTTP, false, 3, 1, 1, None, judges)) == 50
  {
    assert Pow2(1) == 2.0 * Pow2(0) && Pow2(2) == 2.0 * Pow2(1) && Pow2(3) == 2.0 * Pow2(2);
  }

  /** Scores that differ by whole points differ by exactly those. */
  lemma ClampedShifts(x: real, y: real, points: int)
    requires Unclamped(x) && Unclamped(y) && x - y == points as real
    ensures Clamped(x) - Clamped(y) == points
  {
  }

  /** All else equal, and unclamped: SOCKS5 scores four points above HTTPS, HTTPS two above SOCKS4
      and SOCKS4A, and these four above HTTP. */
  lemma ProtocolPoints(c: Curves, p: Record)
    requires c.log(51.0) > 0.0
    requires Unclamped(RawScore(c, p.(protocol := HTTP))) && Unclamped(RawScore(c, p.(protocol := SOCKS5)))
    ensures var points := (protocol: Protocol) requires c.log(51.0) > 0.0 => ScoreOf(c, p.(protocol := protocol));
      && points(SOCKS5) == points(HTTPS) + 4 && points(HTTPS) == points(SOCKS4) + 2
      && points(SOCKS4) == points(SOCKS4A) == points(HTTP) + 4 && points(HTTP) == points(OtherProtocol)
  {
    var raw := (protocol: Protocol) requires c.log(51.0) > 0.0 => RawScore(c, p.(protocol := protocol));
    ClampedShifts(raw(SOCKS5), raw(HTTPS), 4);
    ClampedShifts(raw(HTTPS), raw(SOCKS4), 2);
    ClampedShifts(raw(HTTPS), raw(SOCKS4A), 2);
    ClampedShifts(raw(SOCKS4), raw(HTTP), 4);
  }

  /** Elite scores eight points above anonymous, and anonymous thirty above transparent. */
  lemma AnonymityPoints(c: Curves, p: Record)
    requires c.log(51.0) > 0.0
    requires Unclamped(RawScore(c, p.(anonymity := Elite))) && Unclamped(RawScore(c, p.(anonymity := Transparent)))
    ensures ScoreOf(c, p.(anonymity := Elite)) == ScoreOf(c, p.(anonymity := Anonymous)) + 8
    ensures ScoreOf(c, p.(anonymity := Anonymous)) == ScoreOf(c, p.(anonymity := Transparent)) + 30
    ensures ScoreOf(c, p.(anonymity := Anonymous)) == ScoreOf(c, p.(anonymity := UnknownAnonymity))
  {
    var raw := (anonymity: Anonymity) requires c.log(51.0) > 0.0 => RawScore(c, p.(anonymity := anonymity));
    ClampedShifts(raw(Elite), raw(Anonymous), 8);
    ClampedShifts(raw(Anonymous), raw(Transparent), 30);
  }

  /** TLS is worth six points; a second judge three, a third and a fourth three more each, and a
      fifth the last one. */
  lemma TlsAndJudgePoints(c: Curves, p: Record, judges: int)
    requires c.log(51.0) > 0.0
    requires Unclamped(RawScore(c, p.(ssl := false, judges := 1))) && Unclamped(RawScore(c, p.(ssl := true, judges := judges)))
    requires judges >= 1
    ensures ScoreOf(c, p.(ssl := true, judges := judges)) == ScoreOf(c, p.(ssl := false, judges := 1)) + 6
      + (if judges == 1 then 0 else if judges == 2 then 3 else if judges == 3 then 6 else if judges == 4 then 9 else 10)
  {
    ClampedShifts(RawScore(c, p.(ssl := true, judges := judges)), RawScore(c, p.(ssl := false, judges := 1)),
      6 + if judges == 1 then 0 else if judges == 2 then 3 else if judges == 3 then 6 else if judges == 4 then 9 else 10);
  }

  /** The first failure in a row costs sixteen points, the second as many again, the third the
      eighteen left to fifty. */
  lemma FailurePoints(c: Curves, p: Record)
    requires c.log(51.0) > 0.0
    requires Unclamped(RawScore(c, p.(consecutiveFail := 0))) && Unclamped(RawScore(c, p.(consecutiveFail := 3)))
    ensures var points := (n: int) requires c.log(51.0) > 0.0 => ScoreOf(c, p.(consecutiveFail := n));
      points(0) - points(1) == 16 && points(1) - points(2) == 16 && points(2) - points(3) == 18
  {
    assert Pow2(1) == 2.0 * Pow2(0) && Pow2(2) == 2.0 * Pow2(1) && Pow2(3) == 2.0 * Pow2(2);
    var raw := (n: int) requires c.log(51.0) > 0.0 => RawScore(c, p.(consecutiveFail := n));
    ClampedShifts(raw(0), raw(1), 16);
    ClampedShifts(raw(1), raw(2), 16);
    ClampedShifts(raw(2), raw(3), 18);
  }

  /** From the third check on each tenth of failed checks costs three points: the penalty times the
      number of checks is thirty for each failed one. */
  lemma HistoryPoints(success: nat, failed: nat)
    ensures success + failed <= 2 ==> HistoryPenalty(success, failed) == 0.0
    ensures success + failed > 2 ==>
      HistoryPenalty(success, failed) * (success + failed) as real == 30.0 * failed as real
  {
    if success + failed > 2 {
      var s, n := success as real, (success + failed) as real;
      var rate := s / n;
      assert rate * n == s;
      assert (1.0 - rate) * n == n - s == failed as real;
      assert ((1.0 - rate) * 30.0) * n == 30.0 * ((1.0 - rate) * n);
    }
  }

  /** A logarithm and an exponential are what their names say. */
  ghost predicate TrueCurves(c: Curves) {
    Reasonable(c) && (forall x: real, y: real :: LogSplits(c, x, y)) && (forall x: real, y: real :: ExpSplits(c, x, y))
  }

  predicate LogSplits(c: Curves, x: real, y: real) {
    x >= 1.0 && y >= 1.0 ==> c.log(x * y) == c.log(x) + c.log(y)
  }

  predicate ExpSplits(c: Curves, x: real, y: real) {
    c.exp(x + y) == c.exp(x) * c.exp(y)
  }

  /** Below five seconds the latency penalty is logarithmic in tenths of a second: latencies whose
      tenths, plus one, multiply to those of a third cost together what that costs. */
  lemma LatencyIsLogarithmic(c: Curves, a: nat, b: nat, both: nat)
    requires TrueCurves(c) && both <= 5000
    requires (a as real / 100.0 + 1.0) * (b as real / 100.0 + 1.0) == both as real / 100.0 + 1.0
    ensures LatencyPenalty(c, a) + LatencyPenalty(c, b) == LatencyPenalty(c, both)
  {
    var x, y := a as real / 100.0 + 1.0, b as real / 100.0 + 1.0;
    LogOfProduct(c, x, y, both as real / 100.0 + 1.0);
    UncappedLatency(c, a);
    UncappedLatency(c, b);
    UncappedLatency(c, both);
    SumOfQuotients(45.0 * c.log(x), 45.0 * c.log(y), c.log(51.0));
  }

  lemma LogOfProduct(c: Curves, x: real, y: real, z: real)
    requires TrueCurves(c) && x >= 1.0 && y >= 1.0 && x * y == z
    ensures c.log(z) == c.log(x) + c.log(y) && x <= z && y <= z
  {
    assert LogSplits(c, x, y);
    FactorIsLess(x, y, z);
    assert y * x == z;
    FactorIsLess(y, x, z);
  }

  lemma FactorIsLess(x: real, y: real, z: real)
    requires x >= 1.0 && y >= 1.0 && x * y == z
    ensures y <= z
  {
    assert y - z <= 0.0 by {
      assert z - y == (x - 1.0) * y;
      ProductIsPositive(x - 1.0, y);
    }
  }

  lemma ProductIsPositive(p: real, q: real)
    requires p >= 0.0 && q >= 0.0
    ensures p * q >= 0.0
  {
  }

  lemma TimesThenBy(k: real, d: real)
    requires d > 0.0
    ensures k * d / d == k
  {
  }

  lemma UncappedLatency(c: Curves, ms: nat)
    requires Reasonable(c) && ms <= 5000
    ensures LatencyPenalty(c, ms) == 45.0 * c.log(ms as real / 100.0 + 1.0) / c.log(51.0)
  {
    var x := ms as real / 100.0 + 1.0;
    assert 1.0 <= x <= 51.0;
    assert 0.0 <= c.log(x) <= c.log(51.0);
    QuotientsGrow(45.0 * c.log(x), 45.0 * c.log(51.0), c.log(51.0));
    TimesThenBy(45.0, c.log(51.0));
  }

  lemma SumOfQuotients(x: real, y: real, d: real)
    requires d > 0.0
    ensures x / d + y / d == (x + y) / d
  {
  }

  lemma ProductOfLefts(u: real, v: real)
    ensures (25.0 * u) * (25.0 * v) == 25.0 * (25.0 * (u * v))
  {
  }

  lemma LeftOf(c: Curves, a: real)
    requires a > 0.0
    ensures 25.0 - IdlePenalty(c, Some(a)) == 25.0 * c.exp(-a / 24.0)
  {
  }

  /** What idle time leaves of twenty-five points shrinks by the same factor in every hour, and by
      the base of the exponential in a day. */
  lemma IdleDecays(c: Curves, a: real, b: real)
    requires TrueCurves(c) && a > 0.0 && b > 0.0
    ensures (25.0 - IdlePenalty(c, Some(a))) * (25.0 - IdlePenalty(c, Some(b)))
      == 25.0 * (25.0 - IdlePenalty(c, Some(a + b)))
    ensures IdlePenalty(c, Some(24.0)) == 25.0 * (1.0 - c.exp(-1.0))
    ensures IdlePenalty(c, None) == 0.0 == IdlePenalty(c, Some(-a))
  {
    var x, y := -a / 24.0, -b / 24.0;
    assert -(a + b) / 24.0 == x + y;
    assert ExpSplits(c, x, y);
    LeftOf(c, a);
    LeftOf(c, b);
    LeftOf(c, a + b);
    ProductOfLefts(c.exp(x), c.exp(y));
    assert -24.0 / 24.0 == -1.0;
  }

  /** What a failed recheck does to the fields the score reads; `waited` hours have passed
      since a score was last computed from them. */
  function AfterFailure(p: Record, waited: real): Record {
    p.(consecutiveFail := p.consecutiveFail + 1,
       hours := if p.hours.Some? then Some(p.hours.value + waited) else None)
  }

  /** A failed recheck never raises the score, and from the third failure in a row on it can
      only fall through idle time. */
  lemma FailureNeverRaises(c: Curves, p: Record, waited: real)
    requires Reasonable(c) && waited >= 0.0
    ensures ScoreOf(c, AfterFailure(p, waited)) <= ScoreOf(c, p)
    ensures p.consecutiveFail >= 3 ==> ScoreOf(c, AfterFailure(p, 0.0)) == ScoreOf(c, p)
  {
    ScoreNeverRises(c, p, AfterFailure(p, waited));
    FailPenaltySaturates(p.consecutiveFail);
    FailPenaltySaturates(p.consecutiveFail + 1);
    if p.consecutiveFail >= 3 { assert RawScore(c, AfterFailure(p, 0.0)) == RawScore(c, p); }
  }

  /** A further success can cost points: exactly when it is the third check of a proxy that
      failed before, since the success rate counts from the third check on. */
  lemma SuccessHelpsIff(s: nat, f: nat)
    ensures HistoryPenalty(s + 1, f) <= HistoryPenalty(s, f) <==> !(s + f == 2 && f > 0)
  {
    if s + f > 2 {
      var x, n := s as real, (s + f) as real;
      assert x * (n + 1.0) <= (x + 1.0) * n;
      FractionsCompare(x, n, x + 1.0, n + 1.0);
    } else if s + f == 2 {
      assert (s + 1) as real / 3.0 == 1.0 <==> f == 0;
    }
  }
}
