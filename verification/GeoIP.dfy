/** The resolver of pkg/geoip/geoip.go: a per-address cache, a per-/24 cache, lookups
    that run side by side, and the worker that answers them in batches.  Each step is one
    cache access (with the reply that a hit gives), one channel operation or one provider
    call; providers may answer anything at any time. */
module GeoIP {
  import opened Text

  const MAX_BATCH: nat := 100
  const QUEUE_CAPACITY: nat := 20000
  const NOWHERE := "XX"

  datatype Info = Info(country: string, code: string, city: string, asn: string, org: string)

  const UNKNOWN := Info("Unknown", NOWHERE, "", "", "")
  const INVALID := Info("Invalid", NOWHERE, "", "", "")

  // ----- Subnets -----

  /** strings.Split(s, "."). */
  function SplitDots(s: string): seq<string>
    decreases |s|
  {
    var i := Index(s, '.');
    if i < 0 then [s] else [s[..i]] + SplitDots(s[i + 1..])
  }

  /** The /24 of a dotted quad, or "". */
  function Subnet24(ip: string): string {
    var parts := SplitDots(ip);
    if |parts| == 4 then parts[0] + "." + parts[1] + "." + parts[2] else ""
  }

  /** strings.Join(parts, "."). */
  function JoinDots(parts: seq<string>): string
    requires parts != []
  {
    if |parts| == 1 then parts[0] else parts[0] + "." + JoinDots(parts[1..])
  }

  ghost predicate DotFree(parts: seq<string>) {
    parts != [] && forall i :: 0 <= i < |parts| ==> '.' !in parts[i]
  }

  lemma SplitFirst(a: string, rest: string)
    requires '.' !in a
    ensures SplitDots(a + "." + rest) == [a] + SplitDots(rest)
  {
    var s := a + "." + rest;
    assert s[|a|] == '.';
    assert forall i :: 0 <= i < |a| ==> s[i] == a[i];
    assert Index(s, '.') == |a|;
    assert s[..|a|] == a && s[|a| + 1..] == rest;
  }

  /** Splitting undoes joining. */
  lemma {:induction false} SplitOfJoin(parts: seq<string>)
    requires DotFree(parts)
    ensures SplitDots(JoinDots(parts)) == parts
  {
    if |parts| > 1 {
      SplitOfJoin(parts[1..]);
      SplitFirst(parts[0], JoinDots(parts[1..]));
    } else {
      assert Index(parts[0], '.') < 0;
    }
  }

  /** An address of four parts has a /24, named by the first three, and no other text has one. */
  lemma SubnetOfParts(parts: seq<string>)
    requires DotFree(parts)
    ensures Subnet24(JoinDots(parts)) == if |parts| == 4 then JoinDots(parts[..3]) else ""
  {
    SplitOfJoin(parts);
    if |parts| == 4 { JoinThree(parts[..3]); }
  }

  lemma JoinThree(parts: seq<string>)
    requires |parts| == 3
    ensures JoinDots(parts) == parts[0] + "." + parts[1] + "." + parts[2]
  {
    var two := parts[1..];
    assert two[1..] == [parts[2]];
    assert JoinDots(two) == two[0] + "." + JoinDots(two[1..]) == parts[1] + "." + parts[2];
    RegroupDots(parts[0], parts[1], parts[2]);
  }

  lemma RegroupDots(a: string, b: string, c: string)
    ensures a + "." + b + "." + c == a + "." + (b + "." + c)
  {
  }

  /** Two such addresses share a /24 exactly if their first three parts are the same. */
  lemma SameSubnetIff(a: seq<string>, b: seq<string>)
    requires DotFree(a) && DotFree(b) && |a| == 4 && |b| == 4
    ensures Subnet24(JoinDots(a)) == Subnet24(JoinDots(b)) <==> a[..3] == b[..3]
  {
    SubnetOfParts(a);
    SubnetOfParts(b);
    SplitOfJoin(a[..3]);
    SplitOfJoin(b[..3]);
  }

  // ----- The providers -----

  datatype Special = Loopback | Private | LinkLocal | CarrierNat

  function SpecialInfo(s: Special): Info {
    match s
    case Loopback => Info("Loopback", "LO", "", "", "")
    case Private => Info("Private", "PR", "", "", "")
    case LinkLocal => Info("Link-Local", "LL", "", "", "")
    case CarrierNat => Info("CGNAT", "CG", "", "", "")
  }

  /** What the embedded table says of the addresses in it. */
  const VIETNAM := Info("Vietnam", "VN", "Vietnam", "", "")

  /** What does not change: which strings are addresses, the special ranges and the embedded
      table; and the country each address is really in, which no step looks at. */
  datatype World = World(
    enabled: bool, isIP: string -> bool, special: string -> Option<Special>, embedded: string -> bool,
    country: string -> string)

  /** A provider's answer is used only if it names a country. */
  function Named(answer: Option<Info>): Option<Info> {
    if answer.Some? && answer.value.code != "" then answer else None
  }

  /** What is kept of a batch response. */
  function Successes(results: map<string, Info>): map<string, Info> {
    map ip | ip in results && results[ip].code != "" :: results[ip]
  }

  // ----- Caches -----

  datatype Caches = Caches(exact: map<string, Info>, subnets: map<string, Info>)

  function StoreExact(c: Caches, ip: string, info: Info): Caches {
    c.(exact := c.exact[ip := info])
  }

  function StoreSubnet(c: Caches, ip: string, info: Info): Caches {
    if Subnet24(ip) == "" then c else c.(subnets := c.subnets[Subnet24(ip) := info])
  }

  function StoreBoth(c: Caches, ip: string, info: Info): Caches {
    StoreSubnet(StoreExact(c, ip, info), ip, info)
  }

  /** One store into one of the two caches. */
  datatype Write = Exact(ip: string, info: Info) | Subnet(key: string, info: Info)

  function Apply(c: Caches, w: Write): Caches {
    match w
    case Exact(ip, info) => c.(exact := c.exact[ip := info])
    case Subnet(key, info) => c.(subnets := c.subnets[key := info])
  }

  function ApplyAll(c: Caches, writes: seq<Write>): Caches {
    if writes == [] then c else Apply(ApplyAll(c, writes[..|writes| - 1]), writes[|writes| - 1])
  }

  function SubnetWrite(ip: string, info: Info): seq<Write> {
    if Subnet24(ip) == "" then [] else [Subnet(Subnet24(ip), info)]
  }

  /** The stores of a tier that fills both caches. */
  function BothWrites(ip: string, info: Info): seq<Write> {
    [Exact(ip, info)] + SubnetWrite(ip, info)
  }

  // ----- The step system -----

  datatype Request = Request(id: nat, ip: string)

  /** A lookup: where it is in the tiers, or its answer. */
  datatype Lookup =
    | AtExact(ip: string)            // about to read the exact cache
    | AtDatabase(ip: string)
    | AtSubnet(ip: string)           // about to read the subnet cache
    | AtEmbedded(ip: string)
    | AtQueue(ip: string)            // about to send to the worker
    | Awaiting(ip: string, id: nat)
    | AtFallback(ip: string)
    | Storing(ip: string, info: Info, writes: seq<Write>)
    | Answered(ip: string, info: Info)

  /** The worker's answer to a request, and the stores it has still to make. */
  datatype Found = Found(info: Info, writes: seq<Write>)

  /** The batch worker: gathering, reading the cache for its batch, or answering it. */
  datatype Worker =
    | Gathering(batch: seq<Request>)
    | Scanning(batch: seq<Request>, cached: seq<bool>)
    | Answering(batch: seq<Request>, cached: seq<bool>, next: nat, results: map<string, Info>, found: Option<Found>)

  datatype State = State(
    caches: Caches, lookups: seq<Lookup>, queue: seq<Request>, worker: Worker,
    asked: seq<string>,               // every address sent to the worker; a request's number is its place here
    replies: seq<(nat, Info)>)        // replies made, in order

  datatype Step =
    | Call(ip: string)
    | ReadExact(i: nat)
    | AskDatabase(i: nat, answer: Option<Info>)   // None: no database yet, or no entry
    | ReadSubnet(i: nat)
    | AskEmbedded(i: nat)
    | Send(i: nat)                     // to the worker, or past it if its queue is full
    | TakeReply(i: nat)
    | GiveUp(i: nat)                   // one second has passed
    | AskFallback(i: nat, answer: Option<Info>)
    | Store(i: nat)                    // the lookup's next store
    | Return(i: nat)
    | WorkerReceive
    | WorkerTimer
    | WorkerRead
    | WorkerFetch(results: map<string, Info>)
    | WorkerSkip                       // a request already answered from the cache
    | WorkerAsk(fallback: Option<Info>)
    | WorkerWrite                      // the worker's next store
    | WorkerReply
    | WorkerDone

  predicate At(s: State, i: nat) {
    i < |s.lookups|
  }

  predicate Replied(s: State, id: nat) {
    exists j :: 0 <= j < |s.replies| && s.replies[j].0 == id
  }

  /** The first reply to a request. */
  function ReplyTo(replies: seq<(nat, Info)>, id: nat): Info
    requires exists j :: 0 <= j < |replies| && replies[j].0 == id
  {
    if replies[0].0 == id then replies[0].1 else ReplyTo(replies[1..], id)
  }

  /** The worker is between two requests of its batch. */
  predicate Between(w: Worker) {
    w.Answering? && w.found.None?
  }

  predicate Enabled(s: State, step: Step) {
    match step
    case Call(_) => true
    case ReadExact(i) => At(s, i) && s.lookups[i].AtExact?
    case AskDatabase(i, _) => At(s, i) && s.lookups[i].AtDatabase?
    case ReadSubnet(i) => At(s, i) && s.lookups[i].AtSubnet?
    case AskEmbedded(i) => At(s, i) && s.lookups[i].AtEmbedded?
    case Send(i) => At(s, i) && s.lookups[i].AtQueue?
    case TakeReply(i) => At(s, i) && s.lookups[i].Awaiting? && Replied(s, s.lookups[i].id)
    case GiveUp(i) => At(s, i) && s.lookups[i].Awaiting?
    case AskFallback(i, _) => At(s, i) && s.lookups[i].AtFallback?
    case Store(i) => At(s, i) && s.lookups[i].Storing? && s.lookups[i].writes != []
    case Return(i) => At(s, i) && s.lookups[i].Storing? && s.lookups[i].writes == []
    case WorkerReceive => s.worker.Gathering? && |s.worker.batch| < MAX_BATCH && s.queue != []
    case WorkerTimer => s.worker.Gathering? && s.worker.batch != []
    case WorkerRead => s.worker.Scanning? && |s.worker.cached| < |s.worker.batch|
    case WorkerFetch(_) => s.worker.Scanning? && |s.worker.cached| == |s.worker.batch|
    case WorkerSkip =>
      Between(s.worker) && s.worker.next < |s.worker.batch| == |s.worker.cached| && s.worker.cached[s.worker.next]
    case WorkerAsk(_) =>
      Between(s.worker) && s.worker.next < |s.worker.batch| == |s.worker.cached| && !s.worker.cached[s.worker.next]
    case WorkerWrite => s.worker.Answering? && s.worker.found.Some? && s.worker.found.value.writes != []
    case WorkerReply =>
      && s.worker.Answering? && s.worker.found.Some? && s.worker.found.value.writes == []
      && s.worker.next < |s.worker.batch|
    case WorkerDone => Between(s.worker) && s.worker.next == |s.worker.batch|
  }

  /** The start of Lookup: answers that need no cache. */
  function Begin(world: World, ip: string): Lookup {
    if !world.enabled || ip == "" then Answered(ip, UNKNOWN)
    else if !world.isIP(ip) then Answered(ip, INVALID)
    else match world.special(ip)
      case Some(special) => Answered(ip, SpecialInfo(special))
      case None => AtExact(ip)
  }

  function SetLookup(s: State, i: nat, l: Lookup): State
    requires At(s, i)
  {
    s.(lookups := s.lookups[i := l])
  }

  /** Whether the batch response does not settle an address. */
  predicate NeedsFallback(ip: string, results: map<string, Info>) {
    ip !in results || results[ip].code == "" || results[ip].code == NOWHERE
  }

  /** The worker's answer to an uncached request, with the stores of the fallback, if it is
      called, and then the worker's own. */
  function Finds(ip: string, results: map<string, Info>, fallback: Option<Info>): Found {
    var asked := NeedsFallback(ip, results) && Named(fallback).Some?;
    var info := if !NeedsFallback(ip, results) then results[ip] else if asked then fallback.value else UNKNOWN;
    Found(info,
          (if asked then BothWrites(ip, fallback.value) else [])
          + [Exact(ip, info)] + (if info.code != NOWHERE then SubnetWrite(ip, info) else []))
  }

  function After(world: World, s: State, step: Step): State
    requires Enabled(s, step)
  {
    match step
    case Call(ip) => s.(lookups := s.lookups + [Begin(world, ip)])
    case ReadExact(i) =>
      var ip := s.lookups[i].ip;
      SetLookup(s, i, if ip in s.caches.exact then Answered(ip, s.caches.exact[ip]) else AtDatabase(ip))
    case AskDatabase(i, answer) =>
      var ip := s.lookups[i].ip;
      SetLookup(s, i, if Named(answer).Some? then Storing(ip, answer.value, BothWrites(ip, answer.value)) else AtSubnet(ip))
    case ReadSubnet(i) =>
      var ip := s.lookups[i].ip;
      var key := Subnet24(ip);
      SetLookup(s, i, if key != "" && key in s.caches.subnets
                      then Storing(ip, s.caches.subnets[key], [Exact(ip, s.caches.subnets[key])]) else AtEmbedded(ip))
    case AskEmbedded(i) =>
      var ip := s.lookups[i].ip;
      SetLookup(s, i, if world.embedded(ip) then Storing(ip, VIETNAM, BothWrites(ip, VIETNAM)) else AtQueue(ip))
    case Send(i) =>
      var ip := s.lookups[i].ip;
      if |s.queue| < QUEUE_CAPACITY then
        SetLookup(s, i, Awaiting(ip, |s.asked|)).(queue := s.queue + [Request(|s.asked|, ip)], asked := s.asked + [ip])
      else SetLookup(s, i, AtFallback(ip))
    case TakeReply(i) => SetLookup(s, i, Answered(s.lookups[i].ip, ReplyTo(s.replies, s.lookups[i].id)))
    case GiveUp(i) => SetLookup(s, i, AtFallback(s.lookups[i].ip))
    case AskFallback(i, answer) =>
      var ip := s.lookups[i].ip;
      SetLookup(s, i, if Named(answer).Some? then Storing(ip, answer.value, BothWrites(ip, answer.value))
                      else Answered(ip, UNKNOWN))
    case Store(i) =>
      var l := s.lookups[i];
      SetLookup(s, i, l.(writes := l.writes[1..])).(caches := Apply(s.caches, l.writes[0]))
    case Return(i) => SetLookup(s, i, Answered(s.lookups[i].ip, s.lookups[i].info))
    case WorkerReceive =>
      var batch := s.worker.batch + [s.queue[0]];
      s.(queue := s.queue[1..], worker := if |batch| >= MAX_BATCH then Scanning(batch, []) else Gathering(batch))
    case WorkerTimer => s.(worker := Scanning(s.worker.batch, []))
    case WorkerRead =>
      var r := s.worker.batch[|s.worker.cached|];
      var hit := r.ip in s.caches.exact;
      s.(worker := Scanning(s.worker.batch, s.worker.cached + [hit]),
         replies := if hit then s.replies + [(r.id, s.caches.exact[r.ip])] else s.replies)
    case WorkerFetch(results) => s.(worker := Answering(s.worker.batch, s.worker.cached, 0, Successes(results), None))
    case WorkerSkip => s.(worker := s.worker.(next := s.worker.next + 1))
    case WorkerAsk(fallback) =>
      s.(worker := s.worker.(found := Some(Finds(s.worker.batch[s.worker.next].ip, s.worker.results, fallback))))
    case WorkerWrite =>
      var found := s.worker.found.value;
      s.(worker := s.worker.(found := Some(found.(writes := found.writes[1..]))), caches := Apply(s.caches, found.writes[0]))
    case WorkerReply =>
      s.(worker := s.worker.(next := s.worker.next + 1, found := None),
         replies := s.replies + [(s.worker.batch[s.worker.next].id, s.worker.found.value.info)])
    case WorkerDone => s.(worker := Gathering([]))
  }

  function Start(): State {
    State(Caches(map[], map[]), [], [], Gathering([]), [], [])
  }

  predicate CanRun(world: World, steps: seq<Step>)
    decreases |steps|, 0
  {
    steps == [] ||
    (CanRun(world, steps[..|steps| - 1]) && Enabled(Run(world, steps[..|steps| - 1]), steps[|steps| - 1]))
  }

  function Run(world: World, steps: seq<Step>): State
    requires CanRun(world, steps)
    decreases |steps|, 1
  {
    if steps == [] then Start() else After(world, Run(world, steps[..|steps| - 1]), steps[|steps| - 1])
  }

  // ----- What passes through the caches -----

  /** A standard for what may be kept and answered: of each address, and of each /24. */
  datatype Standard = Standard(exact: (string, Info) -> bool, subnet: (string, Info) -> bool)

  /** An answer about `ip` that may go into both caches. */
  predicate Fits(g: Standard, ip: string, info: Info) {
    g.exact(ip, info) && (Subnet24(ip) != "" ==> g.subnet(Subnet24(ip), info))
  }

  /** "XX" always meets the standard, what a /24 may keep its addresses may answer, and the
      embedded table fits. */
  ghost predicate Closed(g: Standard, world: World) {
    && (forall ip :: g.exact(ip, UNKNOWN))
    && (forall ip, info :: Subnet24(ip) != "" && g.subnet(Subnet24(ip), info) ==> g.exact(ip, info))
    && (forall ip :: world.embedded(ip) ==> Fits(g, ip, VIETNAM))
  }

  /** Every provider answer used in this step fits. */
  ghost predicate StepFits(g: Standard, s: State, step: Step)
    requires Enabled(s, step)
  {
    match step
    case AskDatabase(i, answer) => Named(answer).Some? ==> Fits(g, s.lookups[i].ip, answer.value)
    case AskFallback(i, answer) => Named(answer).Some? ==> Fits(g, s.lookups[i].ip, answer.value)
    case WorkerFetch(results) =>
      forall ip :: ip in results && results[ip].code != "" && results[ip].code != NOWHERE ==> Fits(g, ip, results[ip])
    case WorkerAsk(fallback) =>
      var ip := s.worker.batch[s.worker.next].ip;
      NeedsFallback(ip, s.worker.results) && Named(fallback).Some? ==> Fits(g, ip, fallback.value)
    case _ => true
  }

  ghost predicate RunFits(g: Standard, world: World, steps: seq<Step>)
    requires CanRun(world, steps)
  {
    steps != [] ==>
      var before := steps[..|steps| - 1];
      RunFits(g, world, before) && StepFits(g, Run(world, before), steps[|steps| - 1])
  }

  /** Addresses whose answer depends on a tier. */
  predicate Resolved(world: World, ip: string) {
    world.enabled && ip != "" && world.isIP(ip) && world.special(ip).None?
  }

  predicate Sent(asked: seq<string>, r: Request) {
    r.id < |asked| && asked[r.id] == r.ip
  }

  predicate Allowed(g: Standard, w: Write) {
    match w
    case Exact(ip, info) => g.exact(ip, info)
    case Subnet(key, info) => g.subnet(key, info)
  }

  ghost predicate AllAllowed(g: Standard, writes: seq<Write>) {
    forall k :: 0 <= k < |writes| ==> Allowed(g, writes[k])
  }

  ghost predicate CachesObey(g: Standard, c: Caches) {
    && (forall ip :: ip in c.exact ==> g.exact(ip, c.exact[ip]))
    && (forall key :: key in c.subnets ==> g.subnet(key, c.subnets[key]))
  }

  ghost predicate LookupObeys(g: Standard, world: World, asked: seq<string>, l: Lookup) {
    match l
    case Answered(ip, info) => l == Begin(world, ip) || (Resolved(world, ip) && g.exact(ip, info))
    case Storing(ip, info, writes) => Resolved(world, ip) && g.exact(ip, info) && AllAllowed(g, writes)
    case Awaiting(ip, id) => Resolved(world, ip) && Sent(asked, Request(id, ip))
    case _ => Resolved(world, l.ip)
  }

  predicate ReplyObeys(g: Standard, asked: seq<string>, reply: (nat, Info)) {
    reply.0 < |asked| && g.exact(asked[reply.0], reply.1)
  }

  ghost predicate WorkerObeys(g: Standard, w: Worker) {
    w.Answering? ==>
      && (forall ip :: ip in w.results && !NeedsFallback(ip, w.results) ==> Fits(g, ip, w.results[ip]))
      && (w.found.Some? ==>
            && w.next < |w.batch| && g.exact(w.batch[w.next].ip, w.found.value.info)
            && AllAllowed(g, w.found.value.writes))
  }

  /** Everything cached, answered, replied or about to be stored meets the standard. */
  ghost predicate Obeys(g: Standard, world: World, s: State) {
    && CachesObey(g, s.caches)
    && (forall i :: 0 <= i < |s.lookups| ==> LookupObeys(g, world, s.asked, s.lookups[i]))
    && (forall i :: 0 <= i < |s.queue| ==> Sent(s.asked, s.queue[i]))
    && (forall i :: 0 <= i < |s.worker.batch| ==> Sent(s.asked, s.worker.batch[i]))
    && (forall i :: 0 <= i < |s.replies| ==> ReplyObeys(g, s.asked, s.replies[i]))
    && WorkerObeys(g, s.worker)
  }

  lemma {:induction false} ReplyToIsAReply(replies: seq<(nat, Info)>, id: nat)
    requires exists j :: 0 <= j < |replies| && replies[j].0 == id
    ensures (id, ReplyTo(replies, id)) in replies
  {
    if replies[0].0 != id {
      var j :| 0 <= j < |replies| && replies[j].0 == id;
      assert replies[1..][j - 1].0 == id;
      ReplyToIsAReply(replies[1..], id);
    }
  }

  lemma BothAllowed(g: Standard, ip: string, info: Info)
    requires Fits(g, ip, info)
    ensures AllAllowed(g, BothWrites(ip, info)) && AllAllowed(g, SubnetWrite(ip, info))
  {
  }

  lemma FindsAllowed(g: Standard, world: World, ip: string, results: map<string, Info>, fallback: Option<Info>)
    requires Closed(g, world) && (!NeedsFallback(ip, results) ==> Fits(g, ip, results[ip]))
    requires NeedsFallback(ip, results) && Named(fallback).Some? ==> Fits(g, ip, fallback.value)
    ensures var found := Finds(ip, results, fallback); g.exact(ip, found.info) && AllAllowed(g, found.writes)
  {
    var found := Finds(ip, results, fallback);
    if found.info != UNKNOWN { BothAllowed(g, ip, found.info); }
  }

  lemma ApplyObeys(g: Standard, c: Caches, w: Write)
    requires CachesObey(g, c) && Allowed(g, w)
    ensures CachesObey(g, Apply(c, w))
  {
  }

  /** Where one lookup goes when it takes a step that leaves the caches and the queue alone. */
  lemma LookupMoves(g: Standard, world: World, s: State, step: Step)
    requires Closed(g, world) && Obeys(g, world, s) && Enabled(s, step) && StepFits(g, s, step)
    requires step.ReadExact? || step.AskDatabase? || step.ReadSubnet? || step.AskEmbedded? || step.GiveUp?
      || step.AskFallback? || step.Return?
    ensures LookupObeys(g, world, s.asked, After(world, s, step).lookups[step.i])
  {
    var ip := s.lookups[step.i].ip;
    assert LookupObeys(g, world, s.asked, s.lookups[step.i]);
    match step
    case AskDatabase(_, answer) => if Named(answer).Some? { BothAllowed(g, ip, answer.value); }
    case AskFallback(_, answer) => if Named(answer).Some? { BothAllowed(g, ip, answer.value); }
    case AskEmbedded(_) => if world.embedded(ip) { BothAllowed(g, ip, VIETNAM); }
    case _ =>
  }

  lemma TakenReplyObeys(g: Standard, world: World, s: State, step: Step)
    requires Obeys(g, world, s) && Enabled(s, step) && step.TakeReply?
    ensures LookupObeys(g, world, s.asked, After(world, s, step).lookups[step.i])
  {
    var l := s.lookups[step.i];
    assert LookupObeys(g, world, s.asked, l);
    ReplyToIsAReply(s.replies, l.id);
    assert ReplyObeys(g, s.asked, (l.id, ReplyTo(s.replies, l.id)));
  }

  lemma MoveObeys(g: Standard, world: World, s: State, i: nat, l: Lookup)
    requires Obeys(g, world, s) && At(s, i) && LookupObeys(g, world, s.asked, l)
    ensures Obeys(g, world, SetLookup(s, i, l))
  {
  }

  lemma LookupStepObeys(g: Standard, world: World, s: State, step: Step)
    requires Closed(g, world) && Obeys(g, world, s) && Enabled(s, step) && StepFits(g, s, step)
    requires step.ReadExact? || step.AskDatabase? || step.ReadSubnet? || step.AskEmbedded?
      || step.TakeReply? || step.GiveUp? || step.AskFallback? || step.Return?
    ensures Obeys(g, world, After(world, s, step))
  {
    if step.TakeReply? { TakenReplyObeys(g, world, s, step); } else { LookupMoves(g, world, s, step); }
    MoveObeys(g, world, s, step.i, After(world, s, step).lookups[step.i]);
  }

  lemma SendObeys(g: Standard, world: World, s: State, step: Step)
    requires Obeys(g, world, s) && Enabled(s, step) && step.Send?
    ensures Obeys(g, world, After(world, s, step))
  {
    var t := After(world, s, step);
    assert LookupObeys(g, world, s.asked, s.lookups[step.i]);
    forall i | 0 <= i < |s.lookups| ensures LookupObeys(g, world, t.asked, s.lookups[i]) {
      assert LookupObeys(g, world, s.asked, s.lookups[i]);
    }
    forall i | 0 <= i < |s.replies| ensures ReplyObeys(g, t.asked, s.replies[i]) {
      assert ReplyObeys(g, s.asked, s.replies[i]);
    }
  }

  lemma StoreObeys(g: Standard, world: World, s: State, step: Step)
    requires Obeys(g, world, s) && Enabled(s, step) && step.Store?
    ensures Obeys(g, world, After(world, s, step))
  {
    var l := s.lookups[step.i];
    assert LookupObeys(g, world, s.asked, l);
    assert Allowed(g, l.writes[0]);
    ApplyObeys(g, s.caches, l.writes[0]);
    MoveObeys(g, world, s.(caches := Apply(s.caches, l.writes[0])), step.i, l.(writes := l.writes[1..]));
  }

  lemma GatheringObeys(g: Standard, world: World, s: State, step: Step)
    requires Obeys(g, world, s) && Enabled(s, step) && StepFits(g, s, step)
    requires step.WorkerReceive? || step.WorkerTimer? || step.WorkerFetch? || step.WorkerDone? || step.WorkerSkip?
    ensures Obeys(g, world, After(world, s, step))
  {
    if step.WorkerReceive? { assert Sent(s.asked, s.queue[0]); }
  }

  lemma AnsweringObeys(g: Standard, world: World, s: State, step: Step)
    requires Closed(g, world) && Obeys(g, world, s) && Enabled(s, step) && StepFits(g, s, step)
    requires step.WorkerAsk? || step.WorkerWrite? || step.WorkerReply?
    ensures Obeys(g, world, After(world, s, step))
  {
    match step
    case WorkerAsk(fallback) => FindsAllowed(g, world, s.worker.batch[s.worker.next].ip, s.worker.results, fallback);
    case WorkerWrite =>
      assert Allowed(g, s.worker.found.value.writes[0]);
      ApplyObeys(g, s.caches, s.worker.found.value.writes[0]);
    case WorkerReply => assert Sent(s.asked, s.worker.batch[s.worker.next]);
  }

  lemma CallObeys(g: Standard, world: World, s: State, ip: string)
    requires Obeys(g, world, s)
    ensures Obeys(g, world, After(world, s, Call(ip)))
  {
    assert LookupObeys(g, world, s.asked, Begin(world, ip));
  }

  lemma ReadObeys(g: Standard, world: World, s: State)
    requires Obeys(g, world, s) && Enabled(s, WorkerRead)
    ensures Obeys(g, world, After(world, s, WorkerRead))
  {
    assert Sent(s.asked, s.worker.batch[|s.worker.cached|]);
  }

  lemma StepObeys(g: Standard, world: World, s: State, step: Step)
    requires Closed(g, world) && Obeys(g, world, s) && Enabled(s, step) && StepFits(g, s, step)
    ensures Obeys(g, world, After(world, s, step))
  {
    match step
    case Call(ip) => CallObeys(g, world, s, ip);
    case Send(_) => SendObeys(g, world, s, step);
    case Store(_) => StoreObeys(g, world, s, step);
    case WorkerAsk(_) => AnsweringObeys(g, world, s, step);
    case WorkerWrite => AnsweringObeys(g, world, s, step);
    case WorkerReply => AnsweringObeys(g, world, s, step);
    case WorkerReceive => GatheringObeys(g, world, s, step);
    case WorkerTimer => GatheringObeys(g, world, s, step);
    case WorkerRead => ReadObeys(g, world, s);
    case WorkerFetch(_) => GatheringObeys(g, world, s, step);
    case WorkerSkip => GatheringObeys(g, world, s, step);
    case WorkerDone => GatheringObeys(g, world, s, step);
    case _ => LookupStepObeys(g, world, s, step);
  }

  /** However lookups, timeouts, provider answers and the worker interleave: if each provider
      answer used meets a closed standard, so does everything cached, answered and replied. */
  lemma {:induction false} EveryRunObeys(g: Standard, world: World, steps: seq<Step>)
    requires CanRun(world, steps) && Closed(g, world) && RunFits(g, world, steps)
    ensures Obeys(g, world, Run(world, steps))
  {
    if steps != [] {
      EveryRunObeys(g, world, steps[..|steps| - 1]);
      StepObeys(g, world, Run(world, steps[..|steps| - 1]), steps[|steps| - 1]);
    }
  }

  // ----- The answers that are settled at once -----

  /** Without the resolver or an address the answer is unknown, for what is no address invalid, and
      for each special range its own two letters, whatever the caches hold. */
  lemma SettledAtOnce(world: World, ip: string)
    ensures !world.enabled || ip == "" ==> Begin(world, ip) == Answered(ip, Info("Unknown", "XX", "", "", ""))
    ensures world.enabled && ip != "" && !world.isIP(ip) ==> Begin(world, ip) == Answered(ip, Info("Invalid", "XX", "", "", ""))
    ensures world.enabled && ip != "" && world.isIP(ip) && world.special(ip).Some? ==>
      Begin(world, ip).Answered? && Begin(world, ip).info.code ==
        match world.special(ip).value case Loopback => "LO" case Private => "PR" case LinkLocal => "LL" case CarrierNat => "CG"
    ensures Resolved(world, ip) <==> Begin(world, ip) == AtExact(ip)
  {
  }

  /** The worker's answer to a miss: the batch response if it names a country, else the fallback's
      if it names a code, else "XX"; it is kept for the address, and for its /24 unless it is "XX". */
  lemma MissAnswered(c: Caches, ip: string, results: map<string, Info>, fallback: Option<Info>)
    ensures var found := Finds(ip, results, fallback);
      && found.info == (if ip in results && results[ip].code != "" && results[ip].code != "XX" then results[ip]
                        else if fallback.Some? && fallback.value.code != "" then fallback.value
                        else Info("Unknown", "XX", "", "", ""))
      && var after := ApplyAll(c, found.writes);
         ip in after.exact && after.exact[ip] == found.info
         && (found.info.code != "XX" && Subnet24(ip) != "" ==>
               Subnet24(ip) in after.subnets && after.subnets[Subnet24(ip)] == found.info)
  {
    FoundApplied(c, ip, results, fallback);
  }

  // ----- Agreement with the country map -----

  /** An answer of some tier about `ip` that agrees with the country map. */
  predicate Agrees(world: World, ip: string, info: Info) {
    info.code == world.country(ip)
  }

  /** The country map is constant on each /24 and gives real codes; the table agrees with it. */
  ghost predicate Sound(world: World) {
    && (forall ip :: world.country(ip) != "" && world.country(ip) != NOWHERE)
    && (forall a, b :: Subnet24(a) == Subnet24(b) != "" ==> world.country(a) == world.country(b))
    && (forall ip :: world.embedded(ip) ==> Agrees(world, ip, VIETNAM))
  }

  /** An answer that agrees with the map, or none. */
  predicate Honest(world: World, ip: string, answer: Option<Info>) {
    Named(answer).Some? ==> Agrees(world, ip, answer.value)
  }

  ghost predicate HonestStep(world: World, s: State, step: Step)
    requires Enabled(s, step)
  {
    match step
    case AskDatabase(i, answer) => Honest(world, s.lookups[i].ip, answer)
    case AskFallback(i, answer) => Honest(world, s.lookups[i].ip, answer)
    case WorkerFetch(results) => forall ip :: ip in results ==> Honest(world, ip, Some(results[ip]))
    case WorkerAsk(fallback) => Honest(world, s.worker.batch[s.worker.next].ip, fallback)
    case _ => true
  }

  /** Every provider answer of the run agrees with the country map. */
  ghost predicate HonestRun(world: World, steps: seq<Step>)
    requires CanRun(world, steps)
  {
    steps != [] ==>
      var before := steps[..|steps| - 1];
      HonestRun(world, before) && HonestStep(world, Run(world, before), steps[|steps| - 1])
  }

  /** Right for the address or unknown; right for every address of the /24. */
  predicate RightExact(world: World, ip: string, info: Info) {
    Agrees(world, ip, info) || info.code == NOWHERE
  }

  ghost predicate RightSubnet(world: World, key: string, info: Info) {
    info.code != NOWHERE && forall ip :: Subnet24(ip) == key ==> Agrees(world, ip, info)
  }

  ghost function Truthful(world: World): Standard {
    Standard((ip: string, info: Info) => RightExact(world, ip, info), (key: string, info: Info) => RightSubnet(world, key, info))
  }

  lemma TruthfulIsClosed(world: World)
    requires Sound(world)
    ensures Closed(Truthful(world), world)
    ensures forall ip, info :: Agrees(world, ip, info) ==> Fits(Truthful(world), ip, info)
  {
    forall ip, info | Agrees(world, ip, info) ensures Fits(Truthful(world), ip, info) {
      assert Subnet24(ip) != "" ==> RightSubnet(world, Subnet24(ip), info);
    }
    forall ip, info | Subnet24(ip) != "" && Truthful(world).subnet(Subnet24(ip), info)
      ensures Truthful(world).exact(ip, info)
    {
      assert RightSubnet(world, Subnet24(ip), info);
    }
  }

  lemma {:induction false} HonestRunFits(world: World, steps: seq<Step>)
    requires CanRun(world, steps) && Sound(world) && HonestRun(world, steps)
    ensures RunFits(Truthful(world), world, steps)
  {
    if steps != [] {
      HonestRunFits(world, steps[..|steps| - 1]);
      TruthfulIsClosed(world);
      HonestStepFits(world, Truthful(world), Run(world, steps[..|steps| - 1]), steps[|steps| - 1]);
    }
  }

  lemma HonestStepFits(world: World, g: Standard, s: State, step: Step)
    requires Enabled(s, step) && HonestStep(world, s, step)
    requires forall ip, info :: Agrees(world, ip, info) ==> Fits(g, ip, info)
    ensures StepFits(g, s, step)
  {
    if step.WorkerFetch? {
      forall ip | ip in step.results && step.results[ip].code != "" ensures Fits(g, ip, step.results[ip]) {
        assert Honest(world, ip, Some(step.results[ip]));
      }
    }
  }

  /** With honest providers everything cached, answered and replied is right or "XX", and no
      /24 ever holds "XX". */
  lemma EveryRunIsSound(world: World, steps: seq<Step>)
    requires Sound(world) && CanRun(world, steps) && HonestRun(world, steps)
    ensures Obeys(Truthful(world), world, Run(world, steps))
  {
    TruthfulIsClosed(world);
    HonestRunFits(world, steps);
    EveryRunObeys(Truthful(world), world, steps);
  }

  /** The uncached answer: the special range of an address, or its country. */
  function Truth(world: World, ip: string): string {
    if Begin(world, ip).Answered? then Begin(world, ip).info.code else world.country(ip)
  }

  /** Caching is invisible: a finished lookup gave "XX" or the uncached answer, so two
      finished lookups of one address, or of two addresses of one /24, never name two countries. */
  lemma CachingIsInvisible(world: World, steps: seq<Step>, i: nat, j: nat)
    requires Sound(world) && CanRun(world, steps) && HonestRun(world, steps)
    requires At(Run(world, steps), i) && Run(world, steps).lookups[i].Answered?
    requires At(Run(world, steps), j) && Run(world, steps).lookups[j].Answered?
    ensures var a, b := Run(world, steps).lookups[i], Run(world, steps).lookups[j];
      && a.info.code in {Truth(world, a.ip), NOWHERE}
      && (a.ip == b.ip && a.info.code != NOWHERE && b.info.code != NOWHERE ==> a.info.code == b.info.code)
      && ((Resolved(world, a.ip) && Resolved(world, b.ip) && Subnet24(a.ip) == Subnet24(b.ip) != ""
           && a.info.code != NOWHERE && b.info.code != NOWHERE) ==> a.info.code == b.info.code)
  {
    EveryRunIsSound(world, steps);
    AnswerIsTrue(world, Run(world, steps), i);
    AnswerIsTrue(world, Run(world, steps), j);
  }

  lemma AnswerIsTrue(world: World, s: State, i: nat)
    requires Obeys(Truthful(world), world, s) && At(s, i) && s.lookups[i].Answered?
    ensures s.lookups[i].info.code in {Truth(world, s.lookups[i].ip), NOWHERE}
    ensures Resolved(world, s.lookups[i].ip) ==> Truth(world, s.lookups[i].ip) == world.country(s.lookups[i].ip)
  {
    assert LookupObeys(Truthful(world), world, s.asked, s.lookups[i]);
  }

  // ----- Codes are never empty -----

  function AnyName(): Standard {
    Standard((ip: string, info: Info) => info.code != "", (key: string, info: Info) => info.code != "")
  }

  lemma {:induction false} EveryRunFitsAnyName(world: World, steps: seq<Step>)
    requires CanRun(world, steps)
    ensures RunFits(AnyName(), world, steps)
  {
    if steps != [] {
      EveryRunFitsAnyName(world, steps[..|steps| - 1]);
    }
  }

  ghost predicate NamedState(s: State) {
    && (forall ip :: ip in s.caches.exact ==> s.caches.exact[ip].code != "")
    && (forall key :: key in s.caches.subnets ==> s.caches.subnets[key].code != "")
    && (forall i :: 0 <= i < |s.lookups| && s.lookups[i].Answered? ==> s.lookups[i].info.code != "")
    && (forall i :: 0 <= i < |s.replies| ==> s.replies[i].1.code != "")
  }

  /** Whatever the providers say and however they disagree, every code that is cached,
      answered or replied is non-empty. */
  lemma CodesAreNamed(world: World, steps: seq<Step>)
    requires CanRun(world, steps)
    ensures NamedState(Run(world, steps))
  {
    EveryRunFitsAnyName(world, steps);
    EveryRunObeys(AnyName(), world, steps);
    AnyNameObeyed(world, Run(world, steps));
  }

  lemma AnyNameObeyed(world: World, s: State)
    requires Obeys(AnyName(), world, s)
    ensures NamedState(s)
  {
    forall i | 0 <= i < |s.lookups| && s.lookups[i].Answered? ensures s.lookups[i].info.code != "" {
      assert LookupObeys(AnyName(), world, s.asked, s.lookups[i]);
      BeginIsNamed(world, s.lookups[i].ip);
    }
    forall i | 0 <= i < |s.replies| ensures s.replies[i].1.code != "" {
      assert ReplyObeys(AnyName(), s.asked, s.replies[i]);
    }
  }

  lemma BeginIsNamed(world: World, ip: string)
    ensures Begin(world, ip).Answered? ==> Begin(world, ip).info.code != ""
  {
  }

  // ----- One reply for each request -----

  /** The worker still owes a reply to the k-th request of its batch. */
  predicate Owes(w: Worker, k: nat) {
    match w
    case Gathering(_) => true
    case Scanning(_, cached) => k >= |cached| || !cached[k]
    case Answering(_, cached, next, _, _) => k >= next && (k >= |cached| || !cached[k])
  }

  predicate WorkerShape(w: Worker) {
    match w
    case Gathering(batch) => |batch| < MAX_BATCH
    case Scanning(batch, cached) => 0 < |batch| <= MAX_BATCH && |cached| <= |batch|
    case Answering(batch, cached, next, _, found) =>
      && 0 < |batch| <= MAX_BATCH && |cached| == |batch| && next <= |batch|
      && (found.Some? ==> next < |batch| && !cached[next] && |found.value.writes| <= 4)
  }

  /** How many requests the worker has finished with: those before its batch. */
  function Finished(s: State): int {
    |s.asked| - |s.queue| - |s.worker.batch|
  }

  /** Requests are numbered in order through the batch and then the queue; each is answered
      at most once, and those without an answer are exactly the queued and the owed. */
  ghost predicate Orderly(s: State) {
    && WorkerShape(s.worker)
    && |s.queue| <= QUEUE_CAPACITY
    && Finished(s) >= 0
    && (forall k :: 0 <= k < |s.worker.batch| ==> s.worker.batch[k].id == Finished(s) + k)
    && (forall k :: 0 <= k < |s.queue| ==> s.queue[k].id == Finished(s) + |s.worker.batch| + k)
    && (forall j, k :: 0 <= j < k < |s.replies| ==> s.replies[j].0 != s.replies[k].0)
    && (forall id: nat :: Replied(s, id) <==>
          id < Finished(s)
          || (id < Finished(s) + |s.worker.batch| && !Owes(s.worker, id - Finished(s))))
  }

  lemma RepliedGrows(s: State, t: State, id: nat, info: Info)
    requires t.replies == s.replies + [(id, info)]
    ensures forall x: nat :: Replied(t, x) <==> Replied(s, x) || x == id
  {
    forall x: nat ensures Replied(t, x) <==> Replied(s, x) || x == id {
      assert t.replies[|s.replies|].0 == id;
      if Replied(s, x) {
        var j :| 0 <= j < |s.replies| && s.replies[j].0 == x;
        assert t.replies[j].0 == x;
      }
    }
  }

  lemma SameReplies(s: State, t: State)
    requires t.replies == s.replies
    ensures forall x: nat :: Replied(t, x) <==> Replied(s, x)
  {
  }

  /** Steps that make no reply keep the requests in order. */
  lemma SilentStepKeepsOrder(world: World, s: State, step: Step)
    requires Orderly(s) && Enabled(s, step) && !step.WorkerRead? && !step.WorkerReply? && !step.WorkerSkip?
    ensures Orderly(After(world, s, step))
  {
    if step.Send? || step.WorkerReceive? {
      QueueKeepsOrder(world, s, step);
    } else {
      SameReplies(s, After(world, s, step));
    }
  }

  lemma QueueKeepsOrder(world: World, s: State, step: Step)
    requires Orderly(s) && Enabled(s, step) && (step.Send? || step.WorkerReceive?)
    ensures Orderly(After(world, s, step))
  {
    SameReplies(s, After(world, s, step));
  }

  lemma ReadKeepsOrder(world: World, s: State, step: Step)
    requires Orderly(s) && Enabled(s, step) && step.WorkerRead?
    ensures Orderly(After(world, s, step))
  {
    var t := After(world, s, step);
    var n := |s.worker.cached|;
    var r := s.worker.batch[n];
    assert Owes(s.worker, n) && !Replied(s, r.id);
    if r.ip in s.caches.exact { RepliedGrows(s, t, r.id, s.caches.exact[r.ip]); } else { SameReplies(s, t); }
    forall id: nat ensures Replied(t, id) <==>
        id < Finished(t) || (id < Finished(t) + |t.worker.batch| && !Owes(t.worker, id - Finished(t))) {
      if Finished(s) <= id < Finished(s) + |s.worker.batch| && id != r.id {
        assert Owes(t.worker, id - Finished(s)) == Owes(s.worker, id - Finished(s));
      }
    }
  }

  lemma AnswerKeepsOrder(world: World, s: State, step: Step)
    requires Orderly(s) && Enabled(s, step) && (step.WorkerReply? || step.WorkerSkip?)
    ensures Orderly(After(world, s, step))
  {
    var t := After(world, s, step);
    var n := s.worker.next;
    var r := s.worker.batch[n];
    if step.WorkerSkip? {
      SameReplies(s, t);
    } else {
      assert Owes(s.worker, n) && !Replied(s, r.id);
      RepliedGrows(s, t, r.id, s.worker.found.value.info);
    }
    forall id: nat ensures Replied(t, id) <==>
        id < Finished(t) || (id < Finished(t) + |t.worker.batch| && !Owes(t.worker, id - Finished(t))) {
      if Finished(s) <= id < Finished(s) + |s.worker.batch| && id != r.id {
        assert Owes(t.worker, id - Finished(s)) == Owes(s.worker, id - Finished(s));
      }
    }
  }

  lemma {:induction false} EveryRunIsOrderly(world: World, steps: seq<Step>)
    requires CanRun(world, steps)
    ensures Orderly(Run(world, steps))
  {
    if steps != [] {
      EveryRunIsOrderly(world, steps[..|steps| - 1]);
      var s, step := Run(world, steps[..|steps| - 1]), steps[|steps| - 1];
      if step.WorkerRead? { ReadKeepsOrder(world, s, step); }
      else if step.WorkerReply? || step.WorkerSkip? { AnswerKeepsOrder(world, s, step); }
      else { SilentStepKeepsOrder(world, s, step); }
    }
  }

  /** The number of replies made to a request. */
  function Replies(replies: seq<(nat, Info)>, id: nat): nat {
    if replies == [] then 0 else Replies(replies[1..], id) + if replies[0].0 == id then 1 else 0
  }

  lemma {:induction false} DistinctRepliesCount(replies: seq<(nat, Info)>, id: nat)
    requires forall j, k :: 0 <= j < k < |replies| ==> replies[j].0 != replies[k].0
    ensures Replies(replies, id) == if exists j :: 0 <= j < |replies| && replies[j].0 == id then 1 else 0
  {
    if replies != [] {
      DistinctRepliesCount(replies[1..], id);
      assert forall j :: 0 <= j < |replies| - 1 ==> replies[1..][j] == replies[j + 1];
      if j :| 0 < j < |replies| && replies[j].0 == id {
        assert replies[1..][j - 1].0 == id;
      }
    }
  }

  /** Every request gets at most one reply, requests not yet taken from the queue none, and
      once the worker is gathering again every request before its batch exactly one. */
  lemma OneReplyEach(world: World, steps: seq<Step>, id: nat)
    requires CanRun(world, steps)
    ensures var s := Run(world, steps);
      && |s.worker.batch| <= MAX_BATCH
      && Replies(s.replies, id) <= 1
      && (id >= |s.asked| - |s.queue| ==> Replies(s.replies, id) == 0)
      && (s.worker.Gathering? && id < |s.asked| - |s.queue| - |s.worker.batch| ==> Replies(s.replies, id) == 1)
      && (s.worker.Answering? && s.worker.next == |s.worker.batch| && id < |s.asked| - |s.queue| ==>
            Replies(s.replies, id) == 1)
  {
    EveryRunIsOrderly(world, steps);
    var s := Run(world, steps);
    DistinctRepliesCount(s.replies, id);
    assert Replies(s.replies, id) == if Replied(s, id) then 1 else 0;
  }

  /** What is left of a flush: reads, the fetch, answers and the return to gathering. */
  function FlushWork(w: Worker): int {
    match w
    case Gathering(_) => 0
    case Scanning(batch, cached) => 7 * |batch| + 2 - |cached|
    case Answering(batch, _, next, _, found) =>
      6 * (|batch| - next) + 1 - if found.Some? then 5 - |found.value.writes| else 0
  }

  predicate FlushStep(step: Step) {
    step.WorkerRead? || step.WorkerFetch? || step.WorkerSkip? || step.WorkerAsk? || step.WorkerWrite? || step.WorkerReply?
    || step.WorkerDone?
  }

  lemma FlushShrinks(world: World, s: State, step: Step)
    requires WorkerShape(s.worker) && !s.worker.Gathering? && Enabled(s, step)
    ensures if FlushStep(step) then 0 <= FlushWork(After(world, s, step).worker) < FlushWork(s.worker)
            else After(world, s, step).worker == s.worker
  {
  }

  /** The step a flush can take next, whatever the providers answer. */
  function NextFlushStep(w: Worker, results: map<string, Info>, fallback: Option<Info>): Step
    requires WorkerShape(w) && !w.Gathering?
  {
    match w
    case Scanning(batch, cached) => if |cached| < |batch| then WorkerRead else WorkerFetch(results)
    case Answering(batch, cached, next, _, found) =>
      if found.Some? then if found.value.writes != [] then WorkerWrite else WorkerReply
      else if next == |batch| then WorkerDone
      else if cached[next] then WorkerSkip else WorkerAsk(fallback)
  }

  /** A flush is never stuck, whatever the providers answer, and each of its steps brings its
      end nearer; no other step moves it. */
  lemma FlushEnds(world: World, steps: seq<Step>, step: Step, results: map<string, Info>, fallback: Option<Info>)
    requires CanRun(world, steps) && !Run(world, steps).worker.Gathering?
    ensures var s := Run(world, steps);
      && WorkerShape(s.worker) && Enabled(s, NextFlushStep(s.worker, results, fallback))
      && FlushStep(NextFlushStep(s.worker, results, fallback))
      && (Enabled(s, step) ==>
            if FlushStep(step) then 0 <= FlushWork(After(world, s, step).worker) < FlushWork(s.worker)
            else After(world, s, step).worker == s.worker)
  {
    EveryRunIsOrderly(world, steps);
    if Enabled(Run(world, steps), step) { FlushShrinks(world, Run(world, steps), step); }
  }

  // ----- Where the subnet cache can go wrong -----

  predicate SubnetsKnown(c: Caches) {
    forall key :: key in c.subnets ==> c.subnets[key].code != NOWHERE
  }

  /** What a fresh database or fallback answer leaves in the caches is free of "XX" for every
      /24 exactly if the answer names a country or the address has no /24. */
  lemma FreshAnswerCleanIff(c: Caches, ip: string, info: Info)
    requires SubnetsKnown(c)
    ensures SubnetsKnown(ApplyAll(c, BothWrites(ip, info))) <==> info.code != NOWHERE || Subnet24(ip) == ""
  {
    BothApplied(c, ip, info);
    if info.code == NOWHERE && Subnet24(ip) != "" {
      assert StoreBoth(c, ip, info).subnets[Subnet24(ip)] == info;
    }
  }

  lemma BothApplied(c: Caches, ip: string, info: Info)
    ensures ApplyAll(c, BothWrites(ip, info)) == StoreBoth(c, ip, info)
  {
    var one := [Exact(ip, info)];
    assert one[..0] == [];
    assert ApplyAll(c, one) == StoreExact(c, ip, info);
    assert one + [] == one;
    assert (one + [Subnet(Subnet24(ip), info)])[..1] == one;
  }

  /** The worker checks for "XX" before its own store, the fallback it calls does not: its
      answer leaves every /24 clean exactly when the fallback was not needed, failed, or
      named a country, or the address has no /24. */
  lemma SubnetCacheCleanIff(c: Caches, ip: string, results: map<string, Info>, fallback: Option<Info>)
    requires SubnetsKnown(c)
    ensures SubnetsKnown(ApplyAll(c, Finds(ip, results, fallback).writes)) <==>
      !NeedsFallback(ip, results) || Named(fallback).None? || fallback.value.code != NOWHERE || Subnet24(ip) == ""
  {
    FoundApplied(c, ip, results, fallback);
    var asked := NeedsFallback(ip, results) && Named(fallback).Some?;
    if asked && fallback.value.code == NOWHERE && Subnet24(ip) != "" {
      assert AllFound(c, ip, results, fallback).subnets[Subnet24(ip)] == fallback.value;
    }
  }

  /** The caches after the worker's stores for one request. */
  function AllFound(c: Caches, ip: string, results: map<string, Info>, fallback: Option<Info>): Caches {
    var asked := NeedsFallback(ip, results) && Named(fallback).Some?;
    var info := Finds(ip, results, fallback).info;
    var c1 := StoreExact(if asked then StoreBoth(c, ip, fallback.value) else c, ip, info);
    if info.code != NOWHERE then StoreSubnet(c1, ip, info) else c1
  }

  lemma {:induction false} ApplyConcat(c: Caches, a: seq<Write>, b: seq<Write>)
    ensures ApplyAll(c, a + b) == ApplyAll(ApplyAll(c, a), b)
    decreases |b|
  {
    if b == [] {
      assert a + b == a;
    } else {
      ApplyConcat(c, a, b[..|b| - 1]);
      assert (a + b)[..|a + b| - 1] == a + b[..|b| - 1];
    }
  }

  lemma OneApplied(c: Caches, ip: string, info: Info)
    ensures ApplyAll(c, [Exact(ip, info)]) == StoreExact(c, ip, info)
    ensures ApplyAll(c, SubnetWrite(ip, info)) == StoreSubnet(c, ip, info)
  {
    assert [Exact(ip, info)][..0] == [] && [Subnet(Subnet24(ip), info)][..0] == [];
  }

  lemma FoundApplied(c: Caches, ip: string, results: map<string, Info>, fallback: Option<Info>)
    ensures ApplyAll(c, Finds(ip, results, fallback).writes) == AllFound(c, ip, results, fallback)
  {
    var asked := NeedsFallback(ip, results) && Named(fallback).Some?;
    var info := Finds(ip, results, fallback).info;
    var first := if asked then BothWrites(ip, fallback.value) else [];
    var last := if info.code != NOWHERE then SubnetWrite(ip, info) else [];
    if asked { BothApplied(c, ip, fallback.value); }
    ApplyConcat(c, first + [Exact(ip, info)], last);
    ApplyConcat(c, first, [Exact(ip, info)]);
    OneApplied(ApplyAll(c, first), ip, info);
    OneApplied(ApplyAll(c, first + [Exact(ip, info)]), ip, info);
  }

  // ----- No "XX" in, no "XX" out -----

  /** The step uses a provider answer "XX" that is stored for a whole /24. */
  predicate NamesNowhere(s: State, step: Step)
    requires Enabled(s, step)
  {
    match step
    case AskDatabase(i, answer) => answer.Some? && answer.value.code == NOWHERE && Subnet24(s.lookups[i].ip) != ""
    case AskFallback(i, answer) => answer.Some? && answer.value.code == NOWHERE && Subnet24(s.lookups[i].ip) != ""
    case WorkerAsk(fallback) =>
      var ip := s.worker.batch[s.worker.next].ip;
      NeedsFallback(ip, s.worker.results) && fallback.Some? && fallback.value.code == NOWHERE && Subnet24(ip) != ""
    case _ => false
  }

  predicate NeverNamesNowhere(world: World, steps: seq<Step>)
    requires CanRun(world, steps)
  {
    steps != [] ==>
      var before := steps[..|steps| - 1];
      NeverNamesNowhere(world, before) && !NamesNowhere(Run(world, before), steps[|steps| - 1])
  }

  function KnownSubnets(): Standard {
    Standard((ip: string, info: Info) => true, (key: string, info: Info) => info.code != NOWHERE)
  }

  lemma {:induction false} NeverNowhereFits(world: World, steps: seq<Step>)
    requires CanRun(world, steps) && NeverNamesNowhere(world, steps)
    ensures RunFits(KnownSubnets(), world, steps)
  {
    if steps != [] {
      NeverNowhereFits(world, steps[..|steps| - 1]);
    }
  }

  /** In every run the subnet cache is free of "XX" as long as no provider answer "XX" was
      stored for a /24, whoever asked. */
  lemma SubnetsStayKnown(world: World, steps: seq<Step>)
    requires CanRun(world, steps) && NeverNamesNowhere(world, steps)
    ensures SubnetsKnown(Run(world, steps).caches)
  {
    NeverNowhereFits(world, steps);
    EveryRunObeys(KnownSubnets(), world, steps);
  }

  lemma RunOne(world: World, steps: seq<Step>, step: Step)
    requires CanRun(world, steps) && Enabled(Run(world, steps), step)
    ensures CanRun(world, steps + [step]) && Run(world, steps + [step]) == After(world, Run(world, steps), step)
  {
    assert (steps + [step])[..|steps + [step]| - 1] == steps;
  }

  /** A run that shows it can: a lookup gives up waiting, its own fallback answers "XX", and
      the whole /24 is "XX" in the cache. */
  lemma FallbackPoisonsSubnet(world: World, ip: string, answer: Info) returns (steps: seq<Step>)
    requires Resolved(world, ip) && !world.embedded(ip) && Subnet24(ip) != "" && answer.code == NOWHERE
    ensures CanRun(world, steps)
    ensures var c := Run(world, steps).caches; Subnet24(ip) in c.subnets && c.subnets[Subnet24(ip)] == answer
  {
    steps := ReachWaiting(world, ip);
    steps := Advance(world, steps, GiveUp(0), AtFallback(ip));
    assert BothWrites(ip, answer) == [Exact(ip, answer), Subnet(Subnet24(ip), answer)];
    steps := Advance(world, steps, AskFallback(0, Some(answer)), Storing(ip, answer, BothWrites(ip, answer)));
    steps := Advance(world, steps, Store(0), Storing(ip, answer, [Subnet(Subnet24(ip), answer)]));
    RunOne(world, steps, Store(0));
    steps := steps + [Store(0)];
  }

  /** One more step of a lone lookup. */
  lemma Advance(world: World, steps: seq<Step>, step: Step, l: Lookup) returns (more: seq<Step>)
    requires CanRun(world, steps) && Enabled(Run(world, steps), step)
    requires After(world, Run(world, steps), step).lookups == [l]
    ensures CanRun(world, more) && Run(world, more) == After(world, Run(world, steps), step)
    ensures Run(world, more).lookups == [l]
  {
    RunOne(world, steps, step);
    more := steps + [step];
  }

  lemma ReachWaiting(world: World, ip: string) returns (steps: seq<Step>)
    requires Resolved(world, ip) && !world.embedded(ip)
    ensures CanRun(world, steps) && Run(world, steps).lookups == [Awaiting(ip, 0)]
  {
    steps := Advance(world, [], Call(ip), AtExact(ip));
    steps := Advance(world, steps, ReadExact(0), AtDatabase(ip));
    steps := Advance(world, steps, AskDatabase(0, None), AtSubnet(ip));
    steps := Advance(world, steps, ReadSubnet(0), AtEmbedded(ip));
    steps := Advance(world, steps, AskEmbedded(0), AtQueue(ip));
    steps := Advance(world, steps, Send(0), Awaiting(ip, 0));
  }
}
