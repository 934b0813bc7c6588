/** The judge pool of pkg/judge/judge.go: smoothed latencies, health, and the choice of judge. */
module Judge {
  import opened Text

  const FIRST_ESTIMATE: nat := 500

  /** One judge: its smoothed latency in milliseconds and whether its last check succeeded. */
  datatype Judge = Judge(latency: nat, healthy: bool)

  // ----- Smoothing -----

  /** 0.3 of the new sample and 0.7 of the old estimate, rounded down. */
  function Smooth(estimate: nat, sample: nat): nat {
    (3 * sample + 7 * estimate) / 10
  }

  lemma SmoothBounds(estimate: nat, sample: nat)
    ensures 0 <= 3 * sample + 7 * estimate - 10 * Smooth(estimate, sample) < 10
  {
  }

  function Smoothed(start: nat, samples: seq<nat>): nat {
    if samples == [] then start else Smooth(Smoothed(start, samples[..|samples| - 1]), samples[|samples| - 1])
  }

  /** An estimate never leaves the range of its start and its samples. */
  lemma {:induction false} SmoothedStaysBetween(start: nat, samples: seq<nat>, low: int, high: int)
    requires low <= start <= high && forall k :: 0 <= k < |samples| ==> low <= samples[k] <= high
    ensures low <= Smoothed(start, samples) <= high
  {
    if samples != [] { SmoothedStaysBetween(start, samples[..|samples| - 1], low, high); }
  }

  /** `n` checks with the same sample. */
  function Repeated(start: nat, sample: nat, n: nat): nat {
    if n == 0 then start else Smooth(Repeated(start, sample, n - 1), sample)
  }

  function Distance(a: int, b: int): nat {
    if a <= b then b - a else a - b
  }

  /** Where constant samples lead: estimates from above reach the sample, from below they
      stop three short, and those in between do not move. */
  function Limit(start: nat, sample: nat): nat {
    if start >= sample then sample else if start <= sample - 3 then sample - 3 else start
  }

  /** The estimates that a sample leaves alone. */
  lemma FixedIff(estimate: nat, sample: nat)
    ensures Smooth(estimate, sample) == estimate <==> sample - 3 <= estimate <= sample
  {
  }

  lemma SmoothCloses(start: nat, sample: nat)
    ensures Limit(Smooth(start, sample), sample) == Limit(start, sample)
    ensures Distance(start, sample) > 0 && !(sample - 3 <= start <= sample) ==>
      Distance(Smooth(start, sample), sample) < Distance(start, sample)
  {
  }

  lemma {:induction false} RepeatedFromNext(start: nat, sample: nat, n: nat)
    ensures Repeated(start, sample, n + 1) == Repeated(Smooth(start, sample), sample, n)
  {
    if n > 0 { RepeatedFromNext(start, sample, n - 1); }
  }

  lemma {:induction false} RepeatedFixed(start: nat, sample: nat, n: nat)
    requires sample - 3 <= start <= sample
    ensures Repeated(start, sample, n) == start
  {
    if n > 0 {
      RepeatedFixed(start, sample, n - 1);
      FixedIff(start, sample);
    }
  }

  /** After as many checks as the start was off in milliseconds the estimate is at its limit,
      within three milliseconds below the sample, and stays there. */
  lemma {:induction false} EstimateSettles(start: nat, sample: nat, n: nat)
    requires n >= Distance(start, sample)
    ensures Repeated(start, sample, n) == Limit(start, sample)
    ensures sample - 3 <= Repeated(start, sample, n) <= sample
    decreases n
  {
    if sample - 3 <= start <= sample {
      RepeatedFixed(start, sample, n);
    } else {
      SmoothCloses(start, sample);
      EstimateSettles(Smooth(start, sample), sample, n - 1);
      RepeatedFromNext(start, sample, n - 1);
    }
  }

  function Pow(b: nat, n: nat): nat {
    if n == 0 then 1 else b * Pow(b, n - 1)
  }

  lemma TimesGrows(p: nat, x: int, y: int)
    requires x <= y
    ensures p * x <= p * y
  {
  }

  lemma Regroup(k: int, p: int, x: int)
    ensures (k * p) * x == k * (p * x) == p * (k * x)
  {
  }

  /** How fast the estimate closes in from above: each check leaves seven tenths of the distance,
      so `n` of them (7/10)^n of it, and rounding takes less than three milliseconds more. */
  lemma {:induction false} EstimateDecays(start: nat, sample: nat, n: nat)
    requires start >= sample
    ensures var left := Repeated(start, sample, n) - sample;
      && left >= 0
      && Pow(10, n) * left <= Pow(7, n) * (start - sample) <= Pow(10, n) * (left + 3)
  {
    if n > 0 {
      EstimateDecays(start, sample, n - 1);
      var before, left := Repeated(start, sample, n - 1) - sample, Repeated(start, sample, n) - sample;
      var p, q, d := Pow(10, n - 1), Pow(7, n - 1), start - sample;
      assert 7 * before - 9 <= 10 * left <= 7 * before;
      DecayStep(p, q, d, before, left);
      assert Pow(10, n) == 10 * p && Pow(7, n) == 7 * q;
    }
  }

  lemma DecayStep(p: nat, q: nat, d: nat, before: int, left: int)
    requires p * before <= q * d <= p * (before + 3)
    requires 7 * before - 9 <= 10 * left <= 7 * before
    ensures (10 * p) * left <= (7 * q) * d <= (10 * p) * (left + 3)
  {
    TimesGrows(p, 10 * left, 7 * before);
    TimesGrows(p, 7 * before + 21, 10 * left + 30);
    Regroup(10, p, left);
    Regroup(10, p, left + 3);
    Regroup(7, p, before);
    Regroup(7, p, before + 3);
    Regroup(7, q, d);
  }

  // ----- Rounds of checks -----

  /** What a check makes of a judge: no sample when it failed. */
  function Checked(j: Judge, sample: Option<nat>): Judge {
    if sample.Some? then Judge(Smooth(j.latency, sample.value), true) else j.(healthy := false)
  }

  function Round(judges: seq<Judge>, samples: seq<Option<nat>>): (r: seq<Judge>)
    requires |judges| == |samples|
    ensures |r| == |judges|
  {
    seq(|judges|, k requires 0 <= k < |judges| => Checked(judges[k], samples[k]))
  }

  function Rounds(judges: seq<Judge>, samples: seq<Option<nat>>, n: nat): (r: seq<Judge>)
    requires |judges| == |samples|
    ensures |r| == |judges|
  {
    if n == 0 then judges else Round(Rounds(judges, samples, n - 1), samples)
  }

  lemma {:induction false} RoundsAt(judges: seq<Judge>, samples: seq<Option<nat>>, n: nat, k: nat)
    requires |judges| == |samples| && k < |judges| && n > 0
    ensures Rounds(judges, samples, n)[k].healthy == samples[k].Some?
    ensures samples[k].Some? ==>
      Rounds(judges, samples, n)[k].latency == Repeated(judges[k].latency, samples[k].value, n)
  {
    if n > 1 { RoundsAt(judges, samples, n - 1, k); }
    else if samples[k].Some? { assert Repeated(judges[k].latency, samples[k].value, 0) == judges[k].latency; }
  }

  /** `b` is the judge to use: healthy, as fast as any healthy one, and the first such. */
  predicate Fastest(judges: seq<Judge>, b: nat) {
    && b < |judges| && judges[b].healthy
    && (forall k :: 0 <= k < |judges| && judges[k].healthy ==> judges[b].latency <= judges[k].latency)
    && (forall k :: 0 <= k < b && judges[k].healthy ==> judges[b].latency < judges[k].latency)
  }

  lemma FastestIsUnique(judges: seq<Judge>, a: nat, b: nat)
    requires Fastest(judges, a) && Fastest(judges, b)
    ensures a == b
  {
  }

  /** With steady judges the pool settles on the one that answers faster than every other
      healthy one by more than three milliseconds, wherever it stands in the list. */
  lemma PoolSettles(judges: seq<Judge>, samples: seq<Option<nat>>, n: nat, w: nat)
    requires |judges| == |samples| && w < |judges| && samples[w].Some? && n > 0
    requires forall k :: 0 <= k < |samples| && samples[k].Some? ==>
      n >= Distance(judges[k].latency, samples[k].value)
    requires forall k :: 0 <= k < |samples| && k != w && samples[k].Some? ==> samples[k].value > samples[w].value + 3
    ensures forall b: nat :: Fastest(Rounds(judges, samples, n), b) <==> b == w
  {
    var now := Rounds(judges, samples, n);
    forall k | 0 <= k < |samples|
      ensures now[k].healthy == samples[k].Some?
      ensures samples[k].Some? ==> samples[k].value - 3 <= now[k].latency <= samples[k].value
    {
      RoundsAt(judges, samples, n, k);
      if samples[k].Some? { EstimateSettles(judges[k].latency, samples[k].value, n); }
    }
    assert Fastest(now, w);
    forall b: nat | Fastest(now, b) ensures b == w {
      FastestIsUnique(now, b, w);
    }
  }

  /** Three milliseconds are not enough: a judge three slower that was once fast, listed
      first, is preferred forever. */
  lemma ThreeIsNotEnough(slow: Judge, fast: Judge, sample: nat, n: nat)
    requires slow.latency <= sample <= fast.latency
    requires n > 0 && n >= Distance(slow.latency, sample + 3) && n >= Distance(fast.latency, sample)
    ensures Fastest(Rounds([slow, fast], [Some(sample + 3), Some(sample)], n), 0)
  {
    var judges, samples := [slow, fast], [Some(sample + 3), Some(sample)];
    RoundsAt(judges, samples, n, 0);
    RoundsAt(judges, samples, n, 1);
    EstimateSettles(slow.latency, sample + 3, n);
    EstimateSettles(fast.latency, sample, n);
  }

  // ----- The pool -----

  /** The judges that resolve to something, resolved, in order. */
  function Resolved(resolve: string -> string, urls: seq<string>): seq<string> {
    if urls == [] then []
    else Resolved(resolve, urls[..|urls| - 1])
         + if resolve(urls[|urls| - 1]) == "" then [] else [resolve(urls[|urls| - 1])]
  }

  function Builtin(resolve: string -> string): seq<string> {
    [resolve("/json"), resolve("/judge"), resolve("/ip")]
  }

  /** Without configured judges the three built-in ones replace the list, and a custom judge
      with it. */
  function Listed(judges: seq<string>, custom: string, resolve: string -> string): seq<string> {
    if judges == [] then Builtin(resolve)
    else (if custom == "" || resolve(custom) == "" then [] else [resolve(custom)]) + Resolved(resolve, judges)
  }

  /** The list keeps the order of the judges. */
  lemma {:induction false} ResolvedInOrder(resolve: string -> string, a: seq<string>, b: seq<string>)
    ensures Resolved(resolve, a + b) == Resolved(resolve, a) + Resolved(resolve, b)
    ensures |a| == 1 ==> Resolved(resolve, a) == if resolve(a[0]) == "" then [] else [resolve(a[0])]
    decreases |b|
  {
    if b == [] {
      assert a + b == a;
    } else {
      ResolvedInOrder(resolve, a, b[..|b| - 1]);
      assert (a + b)[..|a + b| - 1] == a + b[..|b| - 1];
    }
  }

  /** Nothing that resolves is lost, and nothing else is listed. */
  lemma {:induction false} ResolvedMembers(resolve: string -> string, urls: seq<string>, url: string)
    ensures url in Resolved(resolve, urls) <==> url != "" && exists k :: 0 <= k < |urls| && resolve(urls[k]) == url
  {
    if urls != [] {
      var last := |urls| - 1;
      ResolvedMembers(resolve, urls[..last], url);
      assert forall k :: 0 <= k < last ==> urls[..last][k] == urls[k];
    }
  }

  method AppendResolved(head: seq<string>, judges: seq<string>, resolve: string -> string)
    returns (list: seq<string>)
    ensures list == head + Resolved(resolve, judges)
  {
    list := head;
    var i := 0;
    while i < |judges|
      invariant 0 <= i <= |judges| && list == head + Resolved(resolve, judges[..i])
    {
      ghost var prefix := Resolved(resolve, judges[..i]);
      assert judges[..i + 1][..i] == judges[..i];
      var url := resolve(judges[i]);
      if url != "" {
        list := list + [url];
        assert head + prefix + [url] == head + (prefix + [url]);
      } else {
        assert prefix + [] == prefix;
      }
      i := i + 1;
    }
    assert judges[..|judges|] == judges;
  }

  method BuildList(judges: seq<string>, custom: string, resolve: string -> string) returns (list: seq<string>)
    ensures list == Listed(judges, custom, resolve)
    ensures judges == [] ==> list == [resolve("/json"), resolve("/judge"), resolve("/ip")]
    ensures judges != [] && custom != "" && resolve(custom) != "" ==>
      list != [] && list[0] == resolve(custom) && list[1..] == Resolved(resolve, judges)
    ensures judges != [] && (custom == "" || resolve(custom) == "") ==> list == Resolved(resolve, judges)
  {
    list := [];
    if custom != "" {
      var url := resolve(custom);
      if url != "" { list := [url]; }
    }
    if |judges| > 0 {
      list := AppendResolved(list, judges, resolve);
    } else {
      list := Builtin(resolve);
    }
  }

  class Evaluator {
    const resolve: string -> string
    var urls: seq<string>
    var latencyMs: array<nat>
    var healthy: array<bool>

    ghost predicate Valid()
      reads this
    {
      |urls| == latencyMs.Length == healthy.Length
    }

    ghost function Judges(): (r: seq<Judge>)
      requires Valid()
      reads this, latencyMs, healthy
      ensures |r| == |urls|
    {
      seq(|urls|, k requires 0 <= k < |urls| && Valid() reads this, latencyMs, healthy =>
        Judge(latencyMs[k], healthy[k]))
    }

    /** A pool over the listed judges, all taken for healthy and half a second away. */
    constructor (judges: seq<string>, custom: string, resolve: string -> string)
      ensures Valid() && fresh(latencyMs) && fresh(healthy) && this.resolve == resolve
      ensures urls == Listed(judges, custom, resolve)
      ensures forall k :: 0 <= k < |urls| ==> Judges()[k] == Judge(FIRST_ESTIMATE, true)
    {
      var list := BuildList(judges, custom, resolve);
      this.resolve := resolve;
      urls := list;
      latencyMs := new nat[|list|](_ => FIRST_ESTIMATE);
      healthy := new bool[|list|](_ => true);
    }

    /** One round: every judge is checked once; the checks touch only their own judge, so
        their order does not matter. */
    method CheckAllJudges(samples: seq<Option<nat>>)
      requires Valid() && |samples| == |urls|
      modifies latencyMs, healthy
      ensures Judges() == Round(old(Judges()), samples)
      ensures forall k :: 0 <= k < |urls| ==> healthy[k] == samples[k].Some?
      ensures forall k :: 0 <= k < |urls| && samples[k].None? ==> latencyMs[k] == old(latencyMs[k])
      ensures forall k :: 0 <= k < |urls| && samples[k].Some? ==>
        0 <= 3 * samples[k].value + 7 * old(latencyMs[k]) - 10 * latencyMs[k] < 10
    {
      var i := 0;
      while i < |urls|
        invariant 0 <= i <= |urls|
        invariant forall k :: 0 <= k < |urls| ==>
          Judges()[k] == if k < i then Checked(old(Judges())[k], samples[k]) else old(Judges())[k]
      {
        assert Judges()[i] == old(Judges())[i];
        CheckJudge(i, samples[i]);
        i := i + 1;
      }
      forall k | 0 <= k < |urls| && samples[k].Some?
        ensures 0 <= 3 * samples[k].value + 7 * old(latencyMs[k]) - 10 * latencyMs[k] < 10
      {
        assert Judges()[k] == Checked(old(Judges())[k], samples[k]);
        SmoothBounds(old(latencyMs[k]), samples[k].value);
      }
    }

    /** The check of one judge. */
    method CheckJudge(i: nat, sample: Option<nat>)
      requires Valid() && i < |urls|
      modifies latencyMs, healthy
      ensures Judges() == old(Judges())[i := Checked(old(Judges())[i], sample)]
    {
      if sample.None? {
        healthy[i] := false;
      } else {
        latencyMs[i] := Smooth(latencyMs[i], sample.value);
        healthy[i] := true;
      }
    }

    /** The fastest healthy judge, the first of them on a tie; the first judge when none is
        healthy; the built-in one when there is none at all. */
    method PickJudge() returns (url: string)
      requires Valid()
      ensures forall b: nat :: Fastest(Judges(), b) ==> url == urls[b]
      ensures (exists k :: 0 <= k < |urls| && Judges()[k].healthy) ==>
        exists b: nat :: Fastest(Judges(), b) && url == urls[b]
      ensures (forall k :: 0 <= k < |urls| ==> !Judges()[k].healthy) ==>
        url == if urls == [] then resolve("/json") else urls[0]
    {
      var best := -1;
      var i := 0;
      while i < |urls|
        invariant 0 <= i <= |urls| && -1 <= best < i
        invariant best == -1 ==> forall k :: 0 <= k < i ==> !Judges()[k].healthy
        invariant best >= 0 ==> Fastest(Judges()[..i], best)
      {
        if healthy[i] {
          if best == -1 || latencyMs[i] < latencyMs[best] {
            best := i;
          }
        }
        i := i + 1;
      }
      assert Judges()[..i] == Judges();
      if best >= 0 {
        forall b: nat | Fastest(Judges(), b) ensures b == best { FastestIsUnique(Judges(), b, best); }
        return urls[best];
      }
      if |urls| > 0 { return urls[0]; }
      return resolve("/json");
    }
  }
}
