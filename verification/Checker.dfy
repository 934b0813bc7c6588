/** Protocol detection (pkg/protocol/protocol.go) and the shape of a check's result
    (pkg/checker/checker.go).  Each probe of a protocol is an arbitrary outcome. */
module Checker {
  import opened PipelineRun
  import opened Text
  import GeoIP

  // ----- Detection -----

  predicate SocksPort(port: int) {
    port == 1080 || port == 10808 || port == 9050 || port == 1081 || port == 10809
  }

  predicate TlsPort(port: int) {
    port == 443 || port == 8443 || port == 4443
  }

  /** The protocols to try on a port, the likeliest first. */
  function ProbeOrder(port: int): (order: seq<Protocol>)
    ensures forall i, j :: 0 <= i < j < |order| ==> order[i] != order[j]
    ensures forall p :: p in order <==> p in {HTTP, HTTPS, SOCKS5, SOCKS4} && (TlsPort(port) ==> p != SOCKS4)
  {
    var order := if SocksPort(port) then [SOCKS5, SOCKS4, HTTP, HTTPS]
                 else if TlsPort(port) then [HTTPS, HTTP, SOCKS5]
                 else [HTTP, HTTPS, SOCKS5, SOCKS4];
    assert !TlsPort(port) ==> order[3] in {SOCKS4, HTTPS};
    assert order[0] in order && order[1] in order && order[2] in order;
    order
  }

  datatype Detection = Detected(protocol: Protocol, latency: int) | NotDetected | Cancelled

  /** Probes one protocol after the other; the context is done before the probe numbered `live`. */
  method DetectProtocol(port: int, probe: Protocol -> Option<int>, live: nat) returns (r: Detection)
    ensures r.Detected? <==> exists i :: 0 <= i < |ProbeOrder(port)| && i < live && probe(ProbeOrder(port)[i]).Some?
    ensures r.Detected? ==> FirstSuccess(port, probe, r.protocol) && probe(r.protocol) == Some(r.latency)
    ensures r == Cancelled <==> live < |ProbeOrder(port)| && !r.Detected?
  {
    var order := ProbeOrder(port);
    var i := 0;
    while i < |order|
      invariant 0 <= i <= |order| && i <= live
      invariant forall k :: 0 <= k < i ==> probe(order[k]).None?
    {
      if i == live { return Cancelled; }
      var latency := probe(order[i]);
      if latency.Some? { return Detected(order[i], latency.value); }
      i := i + 1;
    }
    return NotDetected;
  }

  /** `p` is the first protocol in the order whose probe succeeds. */
  predicate FirstSuccess(port: int, probe: Protocol -> Option<int>, p: Protocol) {
    exists i :: 0 <= i < |ProbeOrder(port)| && ProbeOrder(port)[i] == p && probe(p).Some?
      && forall k :: 0 <= k < i ==> probe(ProbeOrder(port)[k]).None?
  }

  /** Detection is sequential by priority: on one port there is at most one answer, however
      fast or slow each probe is. */
  lemma DetectionIgnoresSpeed(port: int, probe: Protocol -> Option<int>, other: Protocol -> Option<int>, p: Protocol, q: Protocol)
    requires forall x :: probe(x).Some? == other(x).Some?
    requires FirstSuccess(port, probe, p) && FirstSuccess(port, other, q)
    ensures p == q
  {
  }

  /** `p` is detected exactly if it is spoken and none of `earlier` is. */
  predicate DetectedAfter(port: int, probe: Protocol -> Option<int>, p: Protocol, earlier: set<Protocol>) {
    FirstSuccess(port, probe, p) <==> probe(p).Some? && forall q :: q in earlier ==> probe(q).None?
  }

  /** Which protocol goes before which, by port. */
  lemma Priorities(port: int, probe: Protocol -> Option<int>)
    ensures port in {1080, 1081, 9050, 10808, 10809} ==>
      && DetectedAfter(port, probe, SOCKS5, {}) && DetectedAfter(port, probe, SOCKS4, {SOCKS5})
      && DetectedAfter(port, probe, HTTP, {SOCKS5, SOCKS4}) && DetectedAfter(port, probe, HTTPS, {SOCKS5, SOCKS4, HTTP})
    ensures port in {443, 4443, 8443} ==>
      && DetectedAfter(port, probe, HTTPS, {}) && DetectedAfter(port, probe, HTTP, {HTTPS})
      && DetectedAfter(port, probe, SOCKS5, {HTTPS, HTTP}) && !FirstSuccess(port, probe, SOCKS4)
    ensures port !in {1080, 1081, 9050, 10808, 10809, 443, 4443, 8443} ==>
      && DetectedAfter(port, probe, HTTP, {}) && DetectedAfter(port, probe, HTTPS, {HTTP})
      && DetectedAfter(port, probe, SOCKS5, {HTTP, HTTPS}) && DetectedAfter(port, probe, SOCKS4, {HTTP, HTTPS, SOCKS5})
    ensures !FirstSuccess(port, probe, SOCKS4A) && !FirstSuccess(port, probe, OtherProtocol)
  {
    if port in {1080, 1081, 9050, 10808, 10809} {
      InTurn(port, probe, SOCKS5, SOCKS4, HTTP, HTTPS);
    } else if port in {443, 4443, 8443} {
      InTurnOfThree(port, probe, HTTPS, HTTP, SOCKS5);
      NeverFirst(port, probe, SOCKS4);
    } else {
      InTurn(port, probe, HTTP, HTTPS, SOCKS5, SOCKS4);
    }
    NeverFirst(port, probe, SOCKS4A);
    NeverFirst(port, probe, OtherProtocol);
  }

  lemma NeverFirst(port: int, probe: Protocol -> Option<int>, p: Protocol)
    requires p !in ProbeOrder(port)
    ensures !FirstSuccess(port, probe, p)
  {
  }

  lemma InTurnOfThree(port: int, probe: Protocol -> Option<int>, a: Protocol, b: Protocol, c: Protocol)
    requires ProbeOrder(port) == [a, b, c]
    ensures DetectedAfter(port, probe, a, {}) && DetectedAfter(port, probe, b, {a}) && DetectedAfter(port, probe, c, {a, b})
  {
    FirstAt(port, probe, 0);
    FirstAt(port, probe, 1);
    FirstAt(port, probe, 2);
  }

  lemma InTurn(port: int, probe: Protocol -> Option<int>, a: Protocol, b: Protocol, c: Protocol, d: Protocol)
    requires ProbeOrder(port) == [a, b, c, d]
    ensures DetectedAfter(port, probe, a, {}) && DetectedAfter(port, probe, b, {a})
    ensures DetectedAfter(port, probe, c, {a, b}) && DetectedAfter(port, probe, d, {a, b, c})
  {
    FirstAt(port, probe, 0);
    FirstAt(port, probe, 1);
    FirstAt(port, probe, 2);
    FirstAt(port, probe, 3);
  }

  lemma FirstAt(port: int, probe: Protocol -> Option<int>, k: nat)
    requires k < |ProbeOrder(port)|
    ensures var order := ProbeOrder(port);
      FirstSuccess(port, probe, order[k])
      <==> probe(order[k]).Some? && forall j :: 0 <= j < k ==> probe(order[j]).None?
  {
  }

  /** A working proxy goes undetected exactly if all it speaks is SOCKS4 on a TLS port. */
  lemma UndetectableIff(port: int, probe: Protocol -> Option<int>)
    requires exists p :: p in {HTTP, HTTPS, SOCKS5, SOCKS4} && probe(p).Some?
    ensures (forall i :: 0 <= i < |ProbeOrder(port)| ==> probe(ProbeOrder(port)[i]).None?) <==>
      TlsPort(port) && forall p :: p in {HTTP, HTTPS, SOCKS5} ==> probe(p).None?
  {
    var order := ProbeOrder(port);
    if forall i :: 0 <= i < |order| ==> probe(order[i]).None? {
      assert forall p :: p in order ==> probe(p).None?;
    }
  }

  // ----- The check -----

  /** What a job asks for: detection ("" or "unknown"), or one protocol. */
  datatype Asked = Detect | Specific(protocol: Protocol)

  /** Everything the network decides about one check. */
  datatype Answers = Answers(
    location: GeoIP.Info, pinged: bool, probe: Protocol -> Option<int>, live: nat, httpAnonymity: Anonymity)

  datatype CheckResult = CheckResult(result: Result, ssl: bool, latency: int, judges: int)

  /** SOCKS4A is checked as SOCKS4. */
  function ProbeFor(p: Protocol): Protocol {
    if p == SOCKS4A then SOCKS4 else p
  }

  function Initial(asked: Asked, country: string): Result {
    Result(false, if asked.Detect? then OtherProtocol else asked.protocol, UnknownAnonymity, country)
  }

  /** One check.  A success names a supported protocol that was probed with success, a known
      anonymity and the country that was looked up; a failure names no anonymity. */
  method CheckIPPort(asked: Asked, port: int, fastFail: bool, net: Answers) returns (r: CheckResult)
    ensures r.result.country == net.location.code
    ensures net.location.code != "" ==> WellFormed(r.result)
    ensures fastFail && !net.pinged ==> !r.result.success
    ensures asked.Specific? && (fastFail ==> net.pinged) ==>
      (r.result.success <==> asked.protocol != OtherProtocol && net.probe(ProbeFor(asked.protocol)).Some?)
    ensures asked.Detect? && (fastFail ==> net.pinged) ==>
      (r.result.success <==>
        exists i :: 0 <= i < |ProbeOrder(port)| && i < net.live && net.probe(ProbeOrder(port)[i]).Some?)
    ensures r.result.success ==>
      && net.probe(ProbeFor(r.result.protocol)) == Some(r.latency)
      && (if asked.Detect? then FirstSuccess(port, net.probe, r.result.protocol) else r.result.protocol == asked.protocol)
      && (r.ssl <==> r.result.protocol == HTTPS)
      && r.result.anonymity == (if asked == Specific(HTTP) && net.httpAnonymity != UnknownAnonymity
                                then net.httpAnonymity else Elite)
      && r.judges == 1
    ensures asked == Specific(SOCKS4A) && net.pinged ==> (r.result.success <==> net.probe(SOCKS4).Some?)
    ensures !r.result.success ==>
      r.result.anonymity == UnknownAnonymity
      && r.result.protocol == if asked.Specific? then asked.protocol else OtherProtocol
    ensures !r.result.success ==> r.result == Initial(asked, net.location.code) && !r.ssl && r.judges == 0
  {
    var result := Initial(asked, net.location.code);
    r := CheckResult(result, false, 0, 0);
    if fastFail && !net.pinged { return; }
    var latency := 0;
    var ssl := false;
    if asked.Detect? {
      var detection := DetectProtocol(port, net.probe, net.live);
      if !detection.Detected? { return; }
      latency := detection.latency;
      result := result.(protocol := detection.protocol, anonymity := Elite);
    } else {
      if asked.protocol == OtherProtocol { return; }
      var answer := net.probe(ProbeFor(asked.protocol));
      if answer.None? { return; }
      latency := answer.value;
      match asked.protocol {
        case HTTP => result := result.(anonymity := net.httpAnonymity);
        case HTTPS =>
          ssl := true;
          result := result.(anonymity := Elite);
        case _ => result := result.(anonymity := Elite);
      }
    }
    if result.protocol == HTTPS { ssl := true; }
    if result.anonymity == UnknownAnonymity { result := result.(anonymity := Elite); }
    r := CheckResult(result.(success := true), ssl, latency, 1);
  }

  /** The country of a check is never empty: in every reachable state of the resolver, whatever
      the providers answered, a finished lookup names a code, and with it every successful
      check counts at every level of the counters. */
  lemma CountryIsNamed(world: GeoIP.World, steps: seq<GeoIP.Step>, i: nat)
    requires GeoIP.CanRun(world, steps)
    requires GeoIP.At(GeoIP.Run(world, steps), i) && GeoIP.Run(world, steps).lookups[i].Answered?
    ensures GeoIP.Run(world, steps).lookups[i].info.code != ""
  {
    GeoIP.CodesAreNamed(world, steps);
  }
}
