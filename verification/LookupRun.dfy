/** One call of the resolver's Lookup as steps of its protocol: when nothing comes between them and
    the worker does not answer in time, they lead from any reachable state to exactly what
    Resolver.Lookup promises. */
module LookupRun {
  import opened Text
  import opened GeoIP
  import opened Resolver

  /** `u` is `s` with one more lookup, which has come to `l`, and with caches `c`; the worker has
      not moved. */
  predicate Paused(s: State, u: State, l: Lookup, c: Caches) {
    u.lookups == s.lookups + [l] && u.caches == c && u.worker == s.worker && u.replies == s.replies
  }

  /** What a call gives that no worker answers, and what it leaves in the caches. */
  predicate Gives(world: World, before: Caches, ip: string, database: Option<Info>, fallback: Option<Info>,
                  info: Info, after: Caches)
  {
    if Begin(world, ip).Answered? then info == Begin(world, ip).info && after == before
    else if ip in before.exact then info == before.exact[ip] && after == before
    else FromFirstTier(world, before, ip, database, None, fallback, info, after)
  }

  /** What a step of the last lookup does to it and to the caches. */
  function Moved(world: World, u: State, step: Step, i: nat): (Lookup, Caches)
    requires Enabled(u, step) && i < |After(world, u, step).lookups|
  {
    (After(world, u, step).lookups[i], After(world, u, step).caches)
  }

  predicate OfLookup(step: Step, i: nat) {
    && (step.ReadExact? || step.AskDatabase? || step.ReadSubnet? || step.AskEmbedded? || step.Send? || step.GiveUp?
        || step.AskFallback? || step.Store? || step.Return?)
    && step.i == i
  }

  lemma MovedOnly(world: World, s: State, u: State, l: Lookup, c: Caches, step: Step)
    requires Paused(s, u, l, c) && OfLookup(step, |s.lookups|) && Enabled(u, step)
    ensures |After(world, u, step).lookups| == |s.lookups| + 1
    ensures var (l', c') := Moved(world, u, step, |s.lookups|); Paused(s, After(world, u, step), l', c')
  {
    var i := |s.lookups|;
    var l' := After(world, u, step).lookups[i];
    assert (s.lookups + [l])[i := l'] == s.lookups + [l'];
  }

  /** One more step of the call. */
  lemma Go(world: World, s: State, steps: seq<Step>, l: Lookup, c: Caches, step: Step, l': Lookup, c': Caches)
    returns (more: seq<Step>)
    requires CanRun(world, steps) && Paused(s, Run(world, steps), l, c)
    requires OfLookup(step, |s.lookups|) && Enabled(Run(world, steps), step)
    requires |s.lookups| < |After(world, Run(world, steps), step).lookups|
    requires Moved(world, Run(world, steps), step, |s.lookups|) == (l', c')
    ensures CanRun(world, more) && steps <= more && Paused(s, Run(world, more), l', c')
  {
    MovedOnly(world, s, Run(world, steps), l, c, step);
    RunOne(world, steps, step);
    more := steps + [step];
  }

  lemma {:induction false} HeadApplied(c: Caches, writes: seq<Write>)
    requires writes != []
    ensures ApplyAll(Apply(c, writes[0]), writes[1..]) == ApplyAll(c, writes)
  {
    if |writes| == 1 {
      assert writes[..0] == [];
    } else {
      HeadApplied(c, writes[..|writes| - 1]);
      assert writes[1..][..|writes| - 2] == writes[..|writes| - 1][1..];
    }
  }

  /** All stores, then the return. */
  lemma {:induction false} StoreAndReturn(world: World, s: State, steps: seq<Step>, ip: string, info: Info,
                                          writes: seq<Write>, c: Caches)
    returns (more: seq<Step>)
    requires CanRun(world, steps) && Paused(s, Run(world, steps), Storing(ip, info, writes), c)
    ensures CanRun(world, more) && steps <= more
    ensures Paused(s, Run(world, more), Answered(ip, info), ApplyAll(c, writes))
    decreases |writes|
  {
    var i := |s.lookups|;
    var l := Storing(ip, info, writes);
    if writes == [] {
      more := Go(world, s, steps, l, c, Return(i), Answered(ip, info), c);
    } else {
      var c' := Apply(c, writes[0]);
      more := Go(world, s, steps, l, c, Store(i), Storing(ip, info, writes[1..]), c');
      HeadApplied(c, writes);
      more := StoreAndReturn(world, s, more, ip, info, writes[1..], c');
    }
  }

  /** A tier's answer, stored in both caches. */
  lemma StoreBothAndReturn(world: World, s: State, steps: seq<Step>, ip: string, info: Info, c: Caches)
    returns (more: seq<Step>)
    requires CanRun(world, steps) && Paused(s, Run(world, steps), Storing(ip, info, BothWrites(ip, info)), c)
    ensures CanRun(world, more) && steps <= more
    ensures Paused(s, Run(world, more), Answered(ip, info), StoreBoth(c, ip, info))
  {
    BothApplied(c, ip, info);
    more := StoreAndReturn(world, s, steps, ip, info, BothWrites(ip, info), c);
  }

  /** From the fallback on. */
  lemma FallbackGoesOn(world: World, s: State, steps: seq<Step>, ip: string, fallback: Option<Info>, c: Caches)
    returns (more: seq<Step>, info: Info)
    requires CanRun(world, steps) && Paused(s, Run(world, steps), AtFallback(ip), c)
    ensures CanRun(world, more) && steps <= more
    ensures info == (if Named(fallback).Some? then fallback.value else UNKNOWN)
    ensures Paused(s, Run(world, more), Answered(ip, info), if Named(fallback).Some? then StoreBoth(c, ip, info) else c)
  {
    var i := |s.lookups|;
    if Named(fallback).Some? {
      info := fallback.value;
      more := Go(world, s, steps, AtFallback(ip), c, AskFallback(i, fallback), Storing(ip, info, BothWrites(ip, info)), c);
      more := StoreBothAndReturn(world, s, more, ip, info, c);
    } else {
      info := UNKNOWN;
      more := Go(world, s, steps, AtFallback(ip), c, AskFallback(i, fallback), Answered(ip, UNKNOWN), c);
    }
  }

  /** From the queue on, when it is full or the second runs out. */
  lemma QueueGoesOn(world: World, s: State, steps: seq<Step>, ip: string, c: Caches) returns (more: seq<Step>)
    requires CanRun(world, steps) && Paused(s, Run(world, steps), AtQueue(ip), c)
    ensures CanRun(world, more) && steps <= more && Paused(s, Run(world, more), AtFallback(ip), c)
  {
    var i, u := |s.lookups|, Run(world, steps);
    if |u.queue| < QUEUE_CAPACITY {
      more := Go(world, s, steps, AtQueue(ip), c, Send(i), Awaiting(ip, |u.asked|), c);
      more := Go(world, s, more, Awaiting(ip, |u.asked|), c, GiveUp(i), AtFallback(ip), c);
    } else {
      more := Go(world, s, steps, AtQueue(ip), c, Send(i), AtFallback(ip), c);
    }
  }

  /** From the subnet cache on. */
  lemma SubnetGoesOn(world: World, s: State, steps: seq<Step>, ip: string, database: Option<Info>, fallback: Option<Info>,
                     c: Caches)
    returns (more: seq<Step>, info: Info, after: Caches)
    requires CanRun(world, steps) && Paused(s, Run(world, steps), AtSubnet(ip), c) && Named(database).None?
    ensures CanRun(world, more) && steps <= more && Paused(s, Run(world, more), Answered(ip, info), after)
    ensures FromFirstTier(world, c, ip, database, None, fallback, info, after)
  {
    var i, key := |s.lookups|, Subnet24(ip);
    if key != "" && key in c.subnets {
      info := c.subnets[key];
      more := Go(world, s, steps, AtSubnet(ip), c, ReadSubnet(i), Storing(ip, info, [Exact(ip, info)]), c);
      more := StoreAndReturn(world, s, more, ip, info, [Exact(ip, info)], c);
      OneApplied(c, ip, info);
      after := StoreExact(c, ip, info);
    } else {
      more := Go(world, s, steps, AtSubnet(ip), c, ReadSubnet(i), AtEmbedded(ip), c);
      if world.embedded(ip) {
        info := VIETNAM;
        more := Go(world, s, more, AtEmbedded(ip), c, AskEmbedded(i), Storing(ip, VIETNAM, BothWrites(ip, VIETNAM)), c);
        more := StoreBothAndReturn(world, s, more, ip, VIETNAM, c);
        after := StoreBoth(c, ip, VIETNAM);
      } else {
        more := Go(world, s, more, AtEmbedded(ip), c, AskEmbedded(i), AtQueue(ip), c);
        more := QueueGoesOn(world, s, more, ip, c);
        more, info := FallbackGoesOn(world, s, more, ip, fallback, c);
        after := if Named(fallback).Some? then StoreBoth(c, ip, info) else c;
      }
    }
  }

  /** From the database on. */
  lemma DatabaseGoesOn(world: World, s: State, steps: seq<Step>, ip: string, database: Option<Info>,
                       fallback: Option<Info>, c: Caches)
    returns (more: seq<Step>, info: Info, after: Caches)
    requires CanRun(world, steps) && Paused(s, Run(world, steps), AtDatabase(ip), c)
    ensures CanRun(world, more) && steps <= more && Paused(s, Run(world, more), Answered(ip, info), after)
    ensures FromFirstTier(world, c, ip, database, None, fallback, info, after)
  {
    var i := |s.lookups|;
    if Named(database).Some? {
      info := database.value;
      more := Go(world, s, steps, AtDatabase(ip), c, AskDatabase(i, database), Storing(ip, info, BothWrites(ip, info)), c);
      more := StoreBothAndReturn(world, s, more, ip, info, c);
      after := StoreBoth(c, ip, info);
    } else {
      more := Go(world, s, steps, AtDatabase(ip), c, AskDatabase(i, database), AtSubnet(ip), c);
      more, info, after := SubnetGoesOn(world, s, more, ip, database, fallback, c);
    }
  }

  /** An uninterrupted call is a run of its own steps, from every reachable state. */
  lemma LookupIsARun(world: World, before: seq<Step>, ip: string, database: Option<Info>, fallback: Option<Info>)
    returns (whole: seq<Step>, info: Info)
    requires CanRun(world, before)
    ensures CanRun(world, whole) && before <= whole
    ensures var s, after := Run(world, before), Run(world, whole);
      && Paused(s, after, Answered(ip, info), after.caches)
      && Gives(world, s.caches, ip, database, fallback, info, after.caches)
  {
    var s := Run(world, before);
    var i, c := |s.lookups|, s.caches;
    RunOne(world, before, Call(ip));
    whole := before + [Call(ip)];
    if Begin(world, ip).Answered? {
      info := Begin(world, ip).info;
    } else if ip in c.exact {
      info := c.exact[ip];
      whole := Go(world, s, whole, AtExact(ip), c, ReadExact(i), Answered(ip, info), c);
    } else {
      whole := Go(world, s, whole, AtExact(ip), c, ReadExact(i), AtDatabase(ip), c);
      var after: Caches;
      whole, info, after := DatabaseGoesOn(world, s, whole, ip, database, fallback, c);
    }
  }
}
