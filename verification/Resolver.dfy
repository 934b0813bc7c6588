/** The resolver's own methods, run without interruption: Lookup, fallbackProvider and the
    worker's flush, tied to the step system of module GeoIP. */
module Resolver {
  import opened Text
  import opened GeoIP

  // ----- What a flush does -----

  /** Which requests of a batch the cache can answer. */
  function Hits(exact: map<string, Info>, batch: seq<Request>): seq<bool> {
    seq(|batch|, k requires 0 <= k < |batch| => batch[k].ip in exact)
  }

  /** The replies to the first `n` requests that come straight from the cache. */
  function CachedReplies(exact: map<string, Info>, batch: seq<Request>, n: nat): seq<(nat, Info)>
    requires n <= |batch|
  {
    if n == 0 then []
    else CachedReplies(exact, batch, n - 1)
         + if batch[n - 1].ip in exact then [(batch[n - 1].id, exact[batch[n - 1].ip])] else []
  }

  /** The caches and the replies after answering the misses among the first `n` requests. */
  function Answers(
    c: Caches, batch: seq<Request>, cached: seq<bool>, results: map<string, Info>, fallback: seq<Option<Info>>, n: nat
  ): (Caches, seq<(nat, Info)>)
    requires n <= |batch| == |cached| == |fallback|
  {
    if n == 0 then (c, [])
    else
      var before := Answers(c, batch, cached, results, fallback, n - 1);
      if cached[n - 1] then before
      else
        var found := Finds(batch[n - 1].ip, results, fallback[n - 1]);
        (ApplyAll(before.0, found.writes), before.1 + [(batch[n - 1].id, found.info)])
  }

  lemma AnswersNext(c: Caches, batch: seq<Request>, cached: seq<bool>, results: map<string, Info>,
                    fallback: seq<Option<Info>>, n: nat, earlier: seq<(nat, Info)>)
    requires n < |batch| == |cached| == |fallback|
    ensures var before, after := Answers(c, batch, cached, results, fallback, n),
                                 Answers(c, batch, cached, results, fallback, n + 1);
      var found := Finds(batch[n].ip, results, fallback[n]);
      if cached[n] then after == before
      else
        && after.0 == ApplyAll(before.0, found.writes)
        && earlier + after.1 == earlier + before.1 + [(batch[n].id, found.info)]
  {
    var before := Answers(c, batch, cached, results, fallback, n);
    var last := [(batch[n].id, Finds(batch[n].ip, results, fallback[n]).info)];
    assert earlier + (before.1 + last) == earlier + before.1 + last;
  }

  // ----- The class -----

  class Resolver {
    const world: World
    var cache: map<string, Info>
    var subnetCache: map<string, Info>
    var batch: seq<Request>
    var replies: seq<(nat, Info)>

    function Value(): Caches
      reads this`cache, this`subnetCache
    {
      Caches(cache, subnetCache)
    }

    constructor (world: World)
      ensures this.world == world && Value() == Start().caches && batch == [] && replies == []
    {
      this.world := world;
      cache, subnetCache, batch, replies := map[], map[], [], [];
    }

    method FallbackProvider(ip: string, answer: Option<Info>) returns (info: Info)
      modifies this`cache, this`subnetCache
      ensures Named(answer).None? ==> info == UNKNOWN && Value() == old(Value())
      ensures Named(answer).Some? ==> info == answer.value && Value() == StoreBoth(old(Value()), ip, answer.value)
    {
      if answer.None? || answer.value.code == "" { return UNKNOWN; }
      info := answer.value;
      cache := cache[ip := info];
      if Subnet24(ip) != "" { subnetCache := subnetCache[Subnet24(ip) := info]; }
    }

    /** One call: the database's answer if it has one, the worker's reply if it came within
        the second, and the fallback's answer if there is one. */
    method Lookup(ip: string, database: Option<Info>, reply: Option<Info>, fallback: Option<Info>)
      returns (info: Info)
      modifies this`cache, this`subnetCache
      ensures Begin(world, ip).Answered? ==> info == Begin(world, ip).info && Value() == old(Value())
      ensures Resolved(world, ip) && ip in old(cache) ==> info == old(cache)[ip] && Value() == old(Value())
      ensures Resolved(world, ip) && ip !in old(cache) ==>
        FromFirstTier(world, old(Value()), ip, database, reply, fallback, info, Value())
      ensures Resolved(world, ip) && ip !in old(cache) ==>
        var key := Subnet24(ip);
        if database.Some? && database.value.code != "" then info == database.value
        else if key != "" && key in old(subnetCache) then info == old(subnetCache)[key]
        else if world.embedded(ip) then info.code == "VN"
        else if reply.Some? then info == reply.value
        else if fallback.Some? && fallback.value.code != "" then info == fallback.value
        else info.code == "XX"
      ensures Resolved(world, ip) && ip !in old(cache) && reply.None? ==>
        if info == UNKNOWN && ip !in cache then Value() == old(Value()) else ip in cache && cache[ip] == info
      ensures TouchesOnly(old(Value()), ip, Value())
      ensures (Sound(world) && old(CachesObey(Truthful(world), Value()))
               && Honest(world, ip, database) && Honest(world, ip, fallback)
               && (reply.Some? ==> RightExact(world, ip, reply.value))) ==>
        CachesObey(Truthful(world), Value()) && info.code in {Truth(world, ip), NOWHERE}
      ensures old(CachesObey(AnyName(), Value())) && (reply.Some? ==> reply.value.code != "") ==>
        CachesObey(AnyName(), Value()) && info.code != ""
    {
      if Begin(world, ip).Answered? {
        BeginIsNamed(world, ip);
        return Begin(world, ip).info;
      }
      if ip in cache { return cache[ip]; }
      info := AskTiers(ip, database, reply, fallback);
      TierTouchesOnly(world, old(Value()), ip, database, reply, fallback, info, Value());
      TierIsTrue(world, old(Value()), ip, database, reply, fallback, info, Value());
      TierIsNamed(world, old(Value()), ip, database, reply, fallback, info, Value());
    }

    /** The tiers below the exact cache. */
    method AskTiers(ip: string, database: Option<Info>, reply: Option<Info>, fallback: Option<Info>) returns (info: Info)
      modifies this`cache, this`subnetCache
      ensures FromFirstTier(world, old(Value()), ip, database, reply, fallback, info, Value())
    {
      var key := Subnet24(ip);
      if database.Some? && database.value.code != "" {
        info := database.value;
        cache := cache[ip := info];
        if key != "" { subnetCache := subnetCache[key := info]; }
      } else if key != "" && key in subnetCache {
        info := subnetCache[key];
        cache := cache[ip := info];
      } else if world.embedded(ip) {
        info := VIETNAM;
        cache := cache[ip := info];
        if key != "" { subnetCache := subnetCache[key := info]; }
      } else if reply.Some? {
        info := reply.value;
      } else {
        info := FallbackProvider(ip, fallback);
      }
    }

    /** The first loop of a flush: replies to the requests the cache can answer. */
    method ReplyFromCache() returns (cached: seq<bool>)
      modifies this`replies
      ensures cached == Hits(cache, batch)
      ensures replies == old(replies) + CachedReplies(cache, batch, |batch|)
    {
      cached := [];
      var i := 0;
      while i < |batch|
        invariant 0 <= i <= |batch| && cached == Hits(cache, batch)[..i]
        invariant replies == old(replies) + CachedReplies(cache, batch, i)
      {
        if batch[i].ip in cache {
          replies := replies + [(batch[i].id, cache[batch[i].ip])];
        }
        cached := cached + [batch[i].ip in cache];
        i := i + 1;
      }
    }

    /** Answers the whole batch: first the requests the cache can answer, in order, then the
        others, in order; the batch is then empty. */
    method Flush(response: map<string, Info>, fallback: seq<Option<Info>>)
      requires |fallback| == |batch|
      modifies this
      ensures batch == []
      ensures var hits := Hits(old(cache), old(batch));
        var answers := Answers(old(Value()), old(batch), hits, Successes(response), fallback, |old(batch)|);
        Value() == answers.0
        && replies == old(replies) + CachedReplies(old(cache), old(batch), |old(batch)|) + answers.1
    {
      var cached := ReplyFromCache();
      AnswerMisses(cached, Successes(response), fallback);
      batch := [];
    }

    /** The second loop of a flush. */
    method AnswerMisses(cached: seq<bool>, results: map<string, Info>, fallback: seq<Option<Info>>)
      requires |fallback| == |batch| == |cached|
      modifies this`cache, this`subnetCache, this`replies
      ensures var answers := Answers(old(Value()), batch, cached, results, fallback, |batch|);
        Value() == answers.0 && replies == old(replies) + answers.1
    {
      var i := 0;
      assert AnsweredUpTo(0, cached, results, fallback, old(Value()), old(replies));
      while i < |batch|
        invariant 0 <= i <= |batch|
        invariant AnsweredUpTo(i, cached, results, fallback, old(Value()), old(replies))
      {
        AnswerNext(i, cached, results, fallback, old(Value()), old(replies));
        i := i + 1;
      }
    }

    /** The first `n` requests are answered, the others as they were. */
    ghost predicate AnsweredUpTo(n: nat, cached: seq<bool>, results: map<string, Info>, fallback: seq<Option<Info>>,
                           start: Caches, earlier: seq<(nat, Info)>)
      requires n <= |batch| == |fallback| == |cached|
      reads this
    {
      && Value() == Answers(start, batch, cached, results, fallback, n).0
      && replies == earlier + Answers(start, batch, cached, results, fallback, n).1
    }

    /** One turn of that loop. */
    method AnswerNext(i: nat, cached: seq<bool>, results: map<string, Info>, fallback: seq<Option<Info>>,
                      ghost start: Caches, ghost earlier: seq<(nat, Info)>)
      requires i < |batch| == |fallback| == |cached|
      requires AnsweredUpTo(i, cached, results, fallback, start, earlier)
      modifies this`cache, this`subnetCache, this`replies
      ensures AnsweredUpTo(i + 1, cached, results, fallback, start, earlier)
    {
      AnswersNext(start, batch, cached, results, fallback, i, earlier);
      if !cached[i] {
        AnswerOne(batch[i], results, fallback[i]);
      }
    }

    /** Answers one request the cache could not. */
    method AnswerOne(r: Request, results: map<string, Info>, fallback: Option<Info>)
      modifies this`cache, this`subnetCache, this`replies
      ensures var found := Finds(r.ip, results, fallback);
        Value() == ApplyAll(old(Value()), found.writes) && replies == old(replies) + [(r.id, found.info)]
    {
      var info := UNKNOWN;
      if r.ip in results { info := results[r.ip]; }
      if r.ip !in results || info.code == "" || info.code == NOWHERE {
        info := FallbackProvider(r.ip, fallback);
      }
      cache := cache[r.ip := info];
      if Subnet24(r.ip) != "" && info.code != NOWHERE {
        subnetCache := subnetCache[Subnet24(r.ip) := info];
      }
      replies := replies + [(r.id, info)];
      FoundApplied(old(Value()), r.ip, results, fallback);
      assert Value() == AllFound(old(Value()), r.ip, results, fallback);
    }
  }

  // ----- What one call may do -----

  /** The first tier with an answer gives it; what it leaves in the caches depends on the tier:
      a subnet hit fills the exact cache only, the worker's reply is already there. */
  predicate FromFirstTier(world: World, before: Caches, ip: string, database: Option<Info>, reply: Option<Info>,
                          fallback: Option<Info>, info: Info, after: Caches)
  {
    var key := Subnet24(ip);
    var fromSubnet := key != "" && key in before.subnets;
    if Named(database).Some? then info == database.value && after == StoreBoth(before, ip, info)
    else if fromSubnet then info == before.subnets[key] && after == StoreExact(before, ip, info)
    else if world.embedded(ip) then info == VIETNAM && after == StoreBoth(before, ip, info)
    else if reply.Some? then info == reply.value && after == before
    else if Named(fallback).Some? then info == fallback.value && after == StoreBoth(before, ip, info)
    else info == UNKNOWN && after == before
  }

  /** No entry but that of the address and that of its /24 is new or changed. */
  ghost predicate TouchesOnly(before: Caches, ip: string, after: Caches) {
    && (forall other :: other != ip ==>
          (other in after.exact <==> other in before.exact)
          && (other in after.exact ==> after.exact[other] == before.exact[other]))
    && (forall k :: k != Subnet24(ip) || k == "" ==>
          (k in after.subnets <==> k in before.subnets)
          && (k in after.subnets ==> after.subnets[k] == before.subnets[k]))
  }

  lemma TierTouchesOnly(world: World, before: Caches, ip: string, database: Option<Info>, reply: Option<Info>,
                        fallback: Option<Info>, info: Info, after: Caches)
    requires FromFirstTier(world, before, ip, database, reply, fallback, info, after)
    ensures TouchesOnly(before, ip, after)
  {
  }

  lemma Keeps(g: Standard, c: Caches, ip: string, info: Info)
    ensures CachesObey(g, c) && Fits(g, ip, info) ==> CachesObey(g, StoreBoth(c, ip, info))
    ensures CachesObey(g, c) && g.exact(ip, info) ==> CachesObey(g, StoreExact(c, ip, info))
  {
  }

  /** A tier that meets a closed standard keeps the caches at it, and answers by it. */
  lemma TierObeys(g: Standard, world: World, before: Caches, ip: string, database: Option<Info>, reply: Option<Info>,
                  fallback: Option<Info>, info: Info, after: Caches)
    requires FromFirstTier(world, before, ip, database, reply, fallback, info, after)
    requires Closed(g, world) && CachesObey(g, before)
    requires Named(database).Some? ==> Fits(g, ip, database.value)
    requires Named(fallback).Some? ==> Fits(g, ip, fallback.value)
    requires reply.Some? ==> g.exact(ip, reply.value)
    ensures CachesObey(g, after) && g.exact(ip, info)
  {
    Keeps(g, before, ip, info);
  }

  lemma TierIsTrue(world: World, before: Caches, ip: string, database: Option<Info>, reply: Option<Info>,
                   fallback: Option<Info>, info: Info, after: Caches)
    requires FromFirstTier(world, before, ip, database, reply, fallback, info, after)
    ensures (Sound(world) && CachesObey(Truthful(world), before)
             && Honest(world, ip, database) && Honest(world, ip, fallback)
             && (reply.Some? ==> RightExact(world, ip, reply.value))) ==>
      CachesObey(Truthful(world), after) && RightExact(world, ip, info)
  {
    if Sound(world) && CachesObey(Truthful(world), before) && Honest(world, ip, database) && Honest(world, ip, fallback)
      && (reply.Some? ==> RightExact(world, ip, reply.value))
    {
      TruthfulIsClosed(world);
      TierObeys(Truthful(world), world, before, ip, database, reply, fallback, info, after);
    }
  }

  lemma TierIsNamed(world: World, before: Caches, ip: string, database: Option<Info>, reply: Option<Info>,
                    fallback: Option<Info>, info: Info, after: Caches)
    requires FromFirstTier(world, before, ip, database, reply, fallback, info, after)
    ensures CachesObey(AnyName(), before) && (reply.Some? ==> reply.value.code != "") ==>
      CachesObey(AnyName(), after) && info.code != ""
  {
    if CachesObey(AnyName(), before) && (reply.Some? ==> reply.value.code != "") {
      TierObeys(AnyName(), world, before, ip, database, reply, fallback, info, after);
    }
  }

  // ----- A flush is a run of the worker's steps -----

  /** The state after a list of steps, each of which must succeed. */
  function Continue<S, A>(take: (S, A) -> Option<S>, s: S, steps: seq<A>): Option<S> {
    if steps == [] then Some(s)
    else match Continue(take, s, steps[..|steps| - 1])
      case None => None
      case Some(u) => take(u, steps[|steps| - 1])
  }

  lemma {:induction false} ContinueConcat<S, A>(take: (S, A) -> Option<S>, s: S, a: seq<A>, b: seq<A>)
    requires Continue(take, s, a).Some?
    ensures Continue(take, s, a + b) == Continue(take, Continue(take, s, a).value, b)
    decreases |b|
  {
    if b == [] {
      assert a + b == a;
    } else {
      ContinueConcat(take, s, a, b[..|b| - 1]);
      assert (a + b)[..|a + b| - 1] == a + b[..|b| - 1];
    }
  }

  lemma ContinueThen<S, A>(take: (S, A) -> Option<S>, s: S, a: seq<A>, u: S, b: seq<A>, v: S)
    requires Continue(take, s, a) == Some(u) && Continue(take, u, b) == Some(v)
    ensures Continue(take, s, a + b) == Some(v)
  {
    ContinueConcat(take, s, a, b);
  }

  lemma ContinueFour<S, A>(take: (S, A) -> Option<S>, s: S, a: seq<A>, t: S, b: seq<A>, u: S, c: seq<A>, v: S,
                           d: seq<A>, w: S)
    requires Continue(take, s, a) == Some(t) && Continue(take, t, b) == Some(u)
    requires Continue(take, u, c) == Some(v) && Continue(take, v, d) == Some(w)
    ensures Continue(take, s, a + b + c + d) == Some(w)
  {
    ContinueThen(take, s, a, t, b, u);
    ContinueThen(take, s, a + b, u, c, v);
    ContinueThen(take, s, a + b + c, v, d, w);
  }

  lemma ContinueOne<S, A>(take: (S, A) -> Option<S>, s: S, a: A)
    ensures Continue(take, s, [a]) == take(s, a)
  {
    assert [a][..0] == [];
  }

  function Copies<A>(step: A, n: nat): seq<A> {
    seq(n, _ => step)
  }

  /** The same step taken `n` times, through known states. */
  lemma {:induction false} Repeat<S, A>(take: (S, A) -> Option<S>, state: nat --> S, step: A, n: nat)
    requires forall k: nat :: k <= n ==> state.requires(k)
    requires forall k: nat :: k < n ==> take(state(k), step) == Some(state(k + 1))
    ensures Continue(take, state(0), Copies(step, n)) == Some(state(n))
  {
    if n > 0 {
      Repeat(take, state, step, n - 1);
      assert Copies(step, n)[..n - 1] == Copies(step, n - 1);
    }
  }

  function Joined<A>(parts: nat --> seq<A>, n: nat): seq<A>
    requires forall k: nat :: k < n ==> parts.requires(k)
  {
    if n == 0 then [] else Joined(parts, n - 1) + parts(n - 1)
  }

  /** One part after the other, through known states. */
  lemma {:induction false} EachContinues<S, A>(take: (S, A) -> Option<S>, state: nat --> S, parts: nat --> seq<A>, n: nat)
    requires forall k: nat :: k <= n ==> state.requires(k)
    requires forall k: nat :: k < n ==> parts.requires(k)
    requires forall k: nat :: k < n ==> Continue(take, state(k), parts(k)) == Some(state(k + 1))
    ensures Continue(take, state(0), Joined(parts, n)) == Some(state(n))
  {
    if n > 0 {
      EachContinues(take, state, parts, n - 1);
      ContinueThen(take, state(0), Joined(parts, n - 1), state(n - 1), parts(n - 1), state(n));
    }
  }

  /** The state after one step, if it is enabled. */
  function TakeStep(world: World, s: State, step: Step): Option<State> {
    if Enabled(s, step) then Some(After(world, s, step)) else None
  }

  function Taking(world: World): (State, Step) -> Option<State> {
    (s, step) => TakeStep(world, s, step)
  }

  /** A run is a continuation of the start. */
  lemma {:induction false} RunIsContinue(world: World, steps: seq<Step>)
    ensures CanRun(world, steps) <==> Continue(Taking(world), Start(), steps).Some?
    ensures CanRun(world, steps) ==> Continue(Taking(world), Start(), steps) == Some(Run(world, steps))
    decreases |steps|
  {
    if steps != [] {
      RunIsContinue(world, steps[..|steps| - 1]);
    }
  }

  /** Steps that continue a reachable state reach a reachable state. */
  lemma ContinuesRun(world: World, before: seq<Step>, steps: seq<Step>)
    requires CanRun(world, before) && Continue(Taking(world), Run(world, before), steps).Some?
    ensures CanRun(world, before + steps)
    ensures Some(Run(world, before + steps)) == Continue(Taking(world), Run(world, before), steps)
  {
    RunIsContinue(world, before);
    ContinueConcat(Taking(world), Start(), before, steps);
    RunIsContinue(world, before + steps);
  }

  // The steps of a flush: the reads, the fetch, and what each request takes.

  function RequestSteps(r: Request, cached: bool, results: map<string, Info>, fallback: Option<Info>): seq<Step> {
    if cached then [WorkerSkip]
    else [WorkerAsk(fallback)] + Copies(WorkerWrite, |Finds(r.ip, results, fallback).writes|) + [WorkerReply]
  }

  function AnswerSteps(batch: seq<Request>, cached: seq<bool>, results: map<string, Info>, fallback: seq<Option<Info>>)
    : seq<Step>
    requires |batch| == |cached| == |fallback|
  {
    Joined((k: nat) requires k < |batch| => RequestSteps(batch[k], cached[k], results, fallback[k]), |batch|)
  }

  function FlushSteps(exact: map<string, Info>, batch: seq<Request>, response: map<string, Info>,
                      fallback: seq<Option<Info>>): seq<Step>
    requires |batch| == |fallback|
  {
    Copies(WorkerRead, |batch|) + [WorkerFetch(response)]
    + AnswerSteps(batch, Hits(exact, batch), Successes(response), fallback) + [WorkerDone]
  }

  /** While a flush reads the cache it is here: the first `n` requests looked up. */
  function Scanned(s: State, n: nat): State
    requires s.worker.Scanning? && n <= |s.worker.batch|
  {
    s.(worker := Scanning(s.worker.batch, Hits(s.caches.exact, s.worker.batch)[..n]),
       replies := s.replies + CachedReplies(s.caches.exact, s.worker.batch, n))
  }

  /** Between its fetch and its end it is here: `n` requests passed. */
  function Midway(s: State, results: map<string, Info>, fallback: seq<Option<Info>>, n: nat): State
    requires s.worker.Scanning? && n <= |s.worker.batch| == |fallback|
  {
    var b := s.worker.batch;
    var hits := Hits(s.caches.exact, b);
    var answers := Answers(s.caches, b, hits, results, fallback, n);
    AnsweringAt(s, b, hits, results, n, s.replies + CachedReplies(s.caches.exact, b, |b|), answers)
  }

  /** About to answer request `n`, with `answers` given since the cached replies. */
  function AnsweringAt(s: State, b: seq<Request>, hits: seq<bool>, results: map<string, Info>, n: nat,
                       earlier: seq<(nat, Info)>, answers: (Caches, seq<(nat, Info)>)): State
  {
    s.(worker := Answering(b, hits, n, results, None), caches := answers.0, replies := earlier + answers.1)
  }

  lemma ReadStep(world: World, s: State, n: nat)
    requires s.worker.Scanning? && n < |s.worker.batch|
    ensures TakeStep(world, Scanned(s, n), WorkerRead) == Some(Scanned(s, n + 1))
  {
    var b, c := s.worker.batch, s.caches.exact;
    assert Hits(c, b)[..n + 1] == Hits(c, b)[..n] + [b[n].ip in c];
    assert After(world, Scanned(s, n), WorkerRead).replies == s.replies + CachedReplies(c, b, n + 1);
  }

  lemma ReadsContinue(world: World, s: State)
    requires s.worker.Scanning? && s.worker.cached == []
    ensures Continue(Taking(world), s, Copies(WorkerRead, |s.worker.batch|)) == Some(Scanned(s, |s.worker.batch|))
  {
    var n := |s.worker.batch|;
    forall k: nat | k < n ensures Taking(world)(Scanned(s, k), WorkerRead) == Some(Scanned(s, k + 1)) {
      ReadStep(world, s, k);
    }
    assert Scanned(s, 0) == s by { assert s.replies + [] == s.replies; }
    Repeat(Taking(world), (k: nat) requires k <= n => Scanned(s, k), WorkerRead, n);
  }

  lemma FetchContinues(world: World, s: State, response: map<string, Info>, fallback: seq<Option<Info>>)
    requires s.worker.Scanning? && |s.worker.batch| == |fallback|
    ensures Continue(Taking(world), Scanned(s, |s.worker.batch|), [WorkerFetch(response)])
      == Some(Midway(s, Successes(response), fallback, 0))
  {
    var b := s.worker.batch;
    var hits := Hits(s.caches.exact, b);
    assert hits[..|b|] == hits;
    var all := s.replies + CachedReplies(s.caches.exact, b, |b|);
    assert all + [] == all;
    ContinueOne(Taking(world), Scanned(s, |b|), WorkerFetch(response));
  }

  /** The worker with the stores of its answer partly made. */
  function Written(s: State, found: Found, k: nat): State
    requires s.worker.Answering? && k <= |found.writes|
  {
    s.(caches := ApplyAll(s.caches, found.writes[..k]),
       worker := s.worker.(found := Some(Found(found.info, found.writes[k..]))))
  }

  lemma WriteStep(world: World, s: State, found: Found, k: nat)
    requires s.worker.Answering? && k < |found.writes|
    ensures TakeStep(world, Written(s, found, k), WorkerWrite) == Some(Written(s, found, k + 1))
  {
    assert found.writes[..k + 1][..k] == found.writes[..k];
    assert found.writes[k..][1..] == found.writes[k + 1..];
  }

  lemma WritesContinue(world: World, s: State, found: Found)
    requires s.worker.Answering?
    ensures Continue(Taking(world), Written(s, found, 0), Copies(WorkerWrite, |found.writes|))
      == Some(Written(s, found, |found.writes|))
  {
    var n := |found.writes|;
    forall k: nat | k < n ensures Taking(world)(Written(s, found, k), WorkerWrite) == Some(Written(s, found, k + 1)) {
      WriteStep(world, s, found, k);
    }
    Repeat(Taking(world), (k: nat) requires k <= n => Written(s, found, k), WorkerWrite, n);
  }

  /** The worker after a request: its stores made and its reply given. */
  function Passed(s: State, found: Found): State
    requires s.worker.Answering? && s.worker.next < |s.worker.batch|
  {
    s.(caches := ApplyAll(s.caches, found.writes),
       worker := s.worker.(next := s.worker.next + 1, found := None),
       replies := s.replies + [(s.worker.batch[s.worker.next].id, found.info)])
  }

  lemma AskStep(world: World, s: State, fallback: Option<Info>)
    requires Enabled(s, WorkerAsk(fallback))
    ensures TakeStep(world, s, WorkerAsk(fallback))
      == Some(Written(s, Finds(s.worker.batch[s.worker.next].ip, s.worker.results, fallback), 0))
  {
    var found := Finds(s.worker.batch[s.worker.next].ip, s.worker.results, fallback);
    assert found.writes[0..] == found.writes;
  }

  lemma ReplyStep(world: World, s: State, found: Found)
    requires s.worker.Answering? && s.worker.next < |s.worker.batch|
    ensures TakeStep(world, Written(s, found, |found.writes|), WorkerReply) == Some(Passed(s, found))
  {
    assert found.writes[..|found.writes|] == found.writes && found.writes[|found.writes|..] == [];
  }

  lemma AnswerContinues(world: World, s: State, fallback: Option<Info>)
    requires Enabled(s, WorkerAsk(fallback))
    ensures var r := s.worker.batch[s.worker.next];
      Continue(Taking(world), s, RequestSteps(r, false, s.worker.results, fallback))
      == Some(Passed(s, Finds(r.ip, s.worker.results, fallback)))
  {
    var r, take := s.worker.batch[s.worker.next], Taking(world);
    var found := Finds(r.ip, s.worker.results, fallback);
    var n := |found.writes|;
    ContinueOne(take, s, WorkerAsk(fallback));
    AskStep(world, s, fallback);
    WritesContinue(world, s, found);
    ContinueThen(take, s, [WorkerAsk(fallback)], Written(s, found, 0), Copies(WorkerWrite, n), Written(s, found, n));
    ContinueOne(take, Written(s, found, n), WorkerReply);
    ReplyStep(world, s, found);
    ContinueThen(take, s, [WorkerAsk(fallback)] + Copies(WorkerWrite, n), Written(s, found, n), [WorkerReply],
      Passed(s, found));
  }

  lemma PassedIsNext(s: State, b: seq<Request>, hits: seq<bool>, results: map<string, Info>, n: nat,
                     earlier: seq<(nat, Info)>, before: (Caches, seq<(nat, Info)>), after: (Caches, seq<(nat, Info)>),
                     found: Found)
    requires n < |b| && after.0 == ApplyAll(before.0, found.writes)
    requires earlier + after.1 == earlier + before.1 + [(b[n].id, found.info)]
    ensures AnsweringAt(s, b, hits, results, n + 1, earlier, after)
      == Passed(AnsweringAt(s, b, hits, results, n, earlier, before), found)
  {
  }

  lemma AnswersGrow(s: State, results: map<string, Info>, fallback: seq<Option<Info>>, n: nat)
    requires s.worker.Scanning? && n < |s.worker.batch| == |fallback|
    ensures var b := s.worker.batch;
      var u := Midway(s, results, fallback, n);
      Midway(s, results, fallback, n + 1)
      == if Hits(s.caches.exact, b)[n] then u.(worker := u.worker.(next := n + 1))
         else Passed(u, Finds(b[n].ip, results, fallback[n]))
  {
    var b := s.worker.batch;
    var hits, earlier := Hits(s.caches.exact, b), s.replies + CachedReplies(s.caches.exact, b, |b|);
    AnswersNext(s.caches, b, hits, results, fallback, n, earlier);
    if !hits[n] {
      PassedIsNext(s, b, hits, results, n, earlier, Answers(s.caches, b, hits, results, fallback, n),
        Answers(s.caches, b, hits, results, fallback, n + 1), Finds(b[n].ip, results, fallback[n]));
    }
  }

  lemma RequestContinues(world: World, s: State, results: map<string, Info>, fallback: seq<Option<Info>>, n: nat)
    requires s.worker.Scanning? && n < |s.worker.batch| == |fallback|
    ensures var b := s.worker.batch;
      Continue(Taking(world), Midway(s, results, fallback, n),
        RequestSteps(b[n], Hits(s.caches.exact, b)[n], results, fallback[n]))
      == Some(Midway(s, results, fallback, n + 1))
  {
    var u := Midway(s, results, fallback, n);
    AnswersGrow(s, results, fallback, n);
    if Hits(s.caches.exact, s.worker.batch)[n] {
      ContinueOne(Taking(world), u, WorkerSkip);
    } else {
      AnswerContinues(world, u, fallback[n]);
    }
  }

  lemma AnswersChain(take: (State, Step) -> Option<State>, state: nat --> State, b: seq<Request>, hits: seq<bool>,
                     results: map<string, Info>, fallback: seq<Option<Info>>)
    requires |b| == |hits| == |fallback| && forall k: nat :: k <= |b| ==> state.requires(k)
    requires forall k: nat :: k < |b| ==>
      Continue(take, state(k), RequestSteps(b[k], hits[k], results, fallback[k])) == Some(state(k + 1))
    ensures Continue(take, state(0), AnswerSteps(b, hits, results, fallback)) == Some(state(|b|))
  {
    EachContinues(take, state, (k: nat) requires k < |b| => RequestSteps(b[k], hits[k], results, fallback[k]), |b|);
  }

  lemma AnswersContinue(world: World, s: State, results: map<string, Info>, fallback: seq<Option<Info>>)
    requires s.worker.Scanning? && |s.worker.batch| == |fallback|
    ensures Continue(Taking(world), Midway(s, results, fallback, 0),
        AnswerSteps(s.worker.batch, Hits(s.caches.exact, s.worker.batch), results, fallback))
      == Some(Midway(s, results, fallback, |fallback|))
  {
    var b, hits := s.worker.batch, Hits(s.caches.exact, s.worker.batch);
    forall k: nat | k < |b|
      ensures Continue(Taking(world), Midway(s, results, fallback, k), RequestSteps(b[k], hits[k], results, fallback[k]))
        == Some(Midway(s, results, fallback, k + 1))
    {
      RequestContinues(world, s, results, fallback, k);
    }
    AnswersChain(Taking(world), (k: nat) requires k <= |b| => Midway(s, results, fallback, k), b, hits, results, fallback);
  }

  /** The end of a flush. */
  function Flushed(s: State, results: map<string, Info>, fallback: seq<Option<Info>>): State
    requires s.worker.Scanning? && |s.worker.batch| == |fallback|
  {
    Midway(s, results, fallback, |fallback|).(worker := Gathering([]))
  }

  lemma FlushContinues(world: World, s: State, response: map<string, Info>, fallback: seq<Option<Info>>)
    requires s.worker.Scanning? && s.worker.cached == [] && |s.worker.batch| == |fallback|
    ensures Continue(Taking(world), s, FlushSteps(s.caches.exact, s.worker.batch, response, fallback))
      == Some(Flushed(s, Successes(response), fallback))
  {
    var b, results, take := s.worker.batch, Successes(response), Taking(world);
    ReadsContinue(world, s);
    FetchContinues(world, s, response, fallback);
    AnswersContinue(world, s, results, fallback);
    DoneContinues(world, s, results, fallback);
    ContinueFour(take, s, Copies(WorkerRead, |b|), Scanned(s, |b|), [WorkerFetch(response)], Midway(s, results, fallback, 0),
      AnswerSteps(b, Hits(s.caches.exact, b), results, fallback), Midway(s, results, fallback, |b|), [WorkerDone],
      Flushed(s, results, fallback));
  }

  lemma DoneContinues(world: World, s: State, results: map<string, Info>, fallback: seq<Option<Info>>)
    requires s.worker.Scanning? && |s.worker.batch| == |fallback|
    ensures Continue(Taking(world), Midway(s, results, fallback, |fallback|), [WorkerDone])
      == Some(Flushed(s, results, fallback))
  {
    var u := Midway(s, results, fallback, |fallback|);
    ContinueOne(Taking(world), u, WorkerDone);
    DoneStep(world, u);
  }

  lemma DoneStep(world: World, u: State)
    requires Between(u.worker) && u.worker.next == |u.worker.batch|
    ensures TakeStep(world, u, WorkerDone) == Some(u.(worker := Gathering([])))
  {
  }

  /** What Flush leaves behind is what the worker's steps leave behind when nothing comes
      between them, whatever the providers answer; so all that holds of every run holds of it. */
  lemma FlushIsARun(world: World, before: seq<Step>, response: map<string, Info>, fallback: seq<Option<Info>>)
    requires CanRun(world, before)
    requires var w := Run(world, before).worker; w.Scanning? && w.cached == [] && |w.batch| == |fallback|
    ensures var s := Run(world, before);
      var steps := before + FlushSteps(s.caches.exact, s.worker.batch, response, fallback);
      CanRun(world, steps) && Run(world, steps) == Flushed(s, Successes(response), fallback)
  {
    var s := Run(world, before);
    FlushContinues(world, s, response, fallback);
    ContinuesRun(world, before, FlushSteps(s.caches.exact, s.worker.batch, response, fallback));
  }
}
