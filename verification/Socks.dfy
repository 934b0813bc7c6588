/** The SOCKS checks of pkg/protocol/protocol.go over a connection that delivers its bytes in
    arbitrary chunks, against the message formats of RFC 1928, sections 3 to 6. */
module Socks {
  import opened Text

  type Byte = x: int | 0 <= x < 256

  const HTTP: seq<Byte> := [72, 84, 84, 80, 47]   // "HTTP/"
  const GREETING: seq<Byte> := [5, 2, 0, 2]
  const DEFAULT_QUAD: seq<Byte> := [1, 1, 1, 1]
  const PROBE := "GET / HTTP/1.1\r\nHost: 1.1.1.1\r\nUser-Agent: GoProxy/2.0\r\nConnection: close\r\n\r\n"
  const PROBE_ROOM: nat := 12
  const PROBE_LEAST: nat := 4

  // ----- Byte streams in chunks -----

  function Flatten(chunks: seq<seq<Byte>>): seq<Byte> {
    if chunks == [] then [] else chunks[0] + Flatten(chunks[1..])
  }

  /** One chunk ends, and the next begins, `left` bytes before the end of the stream. */
  ghost predicate CutAt(chunks: seq<seq<Byte>>, left: int) {
    exists k :: 0 <= k <= |chunks| && |Flatten(chunks[k..])| == left
  }

  /** What is left to arrive is cut where it was cut before. */
  ghost predicate KeepsCuts(before: seq<seq<Byte>>, after: seq<seq<Byte>>) {
    forall left :: left < |Flatten(after)| ==> (CutAt(after, left) <==> CutAt(before, left))
  }

  lemma KeepsCutsOn(a: seq<seq<Byte>>, b: seq<seq<Byte>>, c: seq<seq<Byte>>)
    requires KeepsCuts(a, b) && KeepsCuts(b, c) && |Flatten(c)| <= |Flatten(b)|
    ensures KeepsCuts(a, c)
  {
  }

  lemma {:induction false} TailIsShorter(chunks: seq<seq<Byte>>, k: nat)
    requires k <= |chunks|
    ensures |Flatten(chunks[k..])| <= |Flatten(chunks)|
    ensures k > 0 ==> |Flatten(chunks[k..])| <= |Flatten(chunks)| - |chunks[0]|
  {
    if k == 0 {
      assert chunks[0..] == chunks;
    } else {
      TailIsShorter(chunks[1..], k - 1);
      assert chunks[1..][k - 1..] == chunks[k..];
    }
  }

  /** Taking the first chunk, or part of it, moves no cut further on. */
  lemma CutsStay(chunks: seq<seq<Byte>>, n: nat, left: int)
    requires chunks != [] && n <= |chunks[0]|
    requires left < |Flatten(chunks)| - n
    ensures CutAt([chunks[0][n..]] + chunks[1..], left) <==> CutAt(chunks, left)
  {
    var rest := [chunks[0][n..]] + chunks[1..];
    assert rest[1..] == chunks[1..];
    assert forall k :: 1 <= k <= |chunks| ==> rest[k..] == chunks[k..];
    assert rest[0..] == rest && chunks[0..] == chunks;
    if CutAt(rest, left) {
      var k :| 0 <= k <= |rest| && |Flatten(rest[k..])| == left;
      assert k > 0;
      assert |Flatten(chunks[k..])| == left;
    }
    if CutAt(chunks, left) {
      var k :| 0 <= k <= |chunks| && |Flatten(chunks[k..])| == left;
      assert k > 0;
      assert |Flatten(rest[k..])| == left;
    }
  }

  lemma CutsStayPopped(chunks: seq<seq<Byte>>, left: int)
    requires chunks != []
    ensures left <= |Flatten(chunks[1..])| && left < |Flatten(chunks)| ==>
      (CutAt(chunks[1..], left) <==> CutAt(chunks, left))
    ensures CutAt(chunks, |Flatten(chunks[1..])|)
  {
    assert forall k :: 0 <= k < |chunks| ==> chunks[1..][k..] == chunks[k + 1..];
    assert chunks[0..] == chunks;
    if CutAt(chunks[1..], left) {
      var k :| 0 <= k < |chunks| && |Flatten(chunks[1..][k..])| == left;
      assert |Flatten(chunks[k + 1..])| == left;
    }
    if CutAt(chunks, left) && left < |Flatten(chunks)| {
      var k :| 0 <= k <= |chunks| && |Flatten(chunks[k..])| == left;
      assert k > 0;
      assert |Flatten(chunks[1..][k - 1..])| == left;
    }
  }

  /** No cut falls strictly inside the first chunk. */
  lemma NoCutInside(chunks: seq<seq<Byte>>, left: int)
    requires chunks != [] && |Flatten(chunks)| - |chunks[0]| < left < |Flatten(chunks)|
    ensures !CutAt(chunks, left)
  {
    if CutAt(chunks, left) {
      var k :| 0 <= k <= |chunks| && |Flatten(chunks[k..])| == left;
      assert chunks[0..] == chunks;
      TailIsShorter(chunks, k);
    }
  }

  // ----- The connection -----

  class Conn {
    var chunks: seq<seq<Byte>>   // what is still to arrive, as it will arrive
    var sent: seq<Byte>

    ghost function Rest(): seq<Byte>
      reads this`chunks
    {
      Flatten(chunks)
    }

    method Write(data: seq<Byte>)
      modifies this`sent
      ensures sent == old(sent) + data
    {
      sent := sent + data;
    }

    /** One Read into a buffer of `room` bytes: what has arrived of the next chunk, up to the room. */
    method Read(room: nat) returns (data: seq<Byte>)
      requires chunks != [] && room > 0
      modifies this`chunks
      ensures |data| <= room && data + Rest() == old(Rest())
      ensures |chunks| < |old(chunks)| || (|chunks| == |old(chunks)| && |data| == room)
      ensures KeepsCuts(old(chunks), chunks)
      ensures |data| < room ==> CutAt(old(chunks), |Rest()|)
      ensures forall left :: |Rest()| < left < |old(Rest())| ==> !CutAt(old(chunks), left)
    {
      var c := chunks[0];
      ghost var before := chunks;
      if |c| <= room {
        data := c;
        chunks := chunks[1..];
        forall left | left < |Rest()| ensures CutAt(chunks, left) <==> CutAt(before, left) {
          CutsStayPopped(before, left);
        }
        CutsStayPopped(before, 0);
      } else {
        data := c[..room];
        chunks := [c[room..]] + chunks[1..];
        assert chunks[1..] == before[1..];
        assert data + Flatten(chunks) == (data + c[room..]) + Flatten(before[1..]);
        assert data + c[room..] == c;
        forall left | left < |Rest()| ensures CutAt(chunks, left) <==> CutAt(before, left) {
          CutsStay(before, room, left);
        }
      }
      forall left | |Rest()| < left < |old(Rest())| ensures !CutAt(before, left) {
        NoCutInside(before, left);
      }
    }

    /** Reads until `least` bytes have come, never taking more than `room`: succeeds exactly if
        that many are to come.  It stops at exactly `least` bytes, when there is room for
        more, exactly if a chunk ends there. */
    method ReadAtLeast(least: nat, room: nat) returns (ok: bool, data: seq<Byte>)
      requires least <= room
      modifies this`chunks
      ensures data + Rest() == old(Rest()) && |data| <= room
      ensures ok == (|data| >= least) == (|old(Rest())| >= least)
      ensures !ok ==> Rest() == []
      ensures KeepsCuts(old(chunks), chunks)
      ensures ok && 0 < least < room ==> (|data| == least <==> CutAt(old(chunks), |old(Rest())| - least))
    {
      data := [];
      ghost var whole := Rest();
      while |data| < least && chunks != []
        invariant data + Rest() == whole && |data| <= room
        invariant KeepsCuts(old(chunks), chunks)
        invariant |data| >= least && 0 < least < room ==> (|data| == least <==> CutAt(old(chunks), |whole| - least))
        decreases |chunks|, room - |data|
      {
        ghost var before, got := chunks, |data|;
        ghost var target := |whole| - least;
        var more := Read(room - |data|);
        assert data + more + Rest() == data + (more + Rest());
        data := data + more;
        assert |whole| == |data| + |Rest()|;
        if |data| >= least && 0 < least < room {
          assert target < |Flatten(before)|;
          assert CutAt(before, target) <==> CutAt(old(chunks), target);
          if |data| == least {
            assert |more| < room - got && CutAt(before, |Rest()|);
          } else {
            assert |Rest()| < target;
          }
        }
      }
      ok := |data| >= least;
    }

    /** Reads exactly `n` bytes, however they arrive, or fails with the stream used up. */
    method ReadFull(n: nat) returns (ok: bool, data: seq<Byte>)
      modifies this`chunks
      ensures ok == (|old(Rest())| >= n)
      ensures ok ==> data == old(Rest())[..n] && Rest() == old(Rest())[n..]
      ensures KeepsCuts(old(chunks), chunks)
    {
      ok, data := ReadAtLeast(n, n);
      if ok {
        assert (data + Rest())[..n] == data && (data + Rest())[n..] == Rest();
      }
    }
  }

  // ----- Messages -----

  datatype Address = IPv4(quad: seq<Byte>) | Domain(name: seq<Byte>) | IPv6(bytes: seq<Byte>)

  predicate ValidAddress(a: Address) {
    match a
    case IPv4(quad) => |quad| == 4
    case Domain(name) => |name| <= 255
    case IPv6(bytes) => |bytes| == 16
  }

  /** A request or a reply: command or reply code, address and port; and what follows it. */
  datatype Message = Message(code: Byte, address: Address, port: nat)

  /** Sections 4 to 6 of RFC 1928: VER CODE RSV ATYP ADDR PORT, then the rest of the stream. */
  function Decode(s: seq<Byte>): Option<(Message, seq<Byte>)> {
    if |s| < 4 || s[0] != 5 || s[2] != 0 then None
    else
      match DecodeAddress(s[3], s[4..])
      case None => None
      case Some((address, rest)) =>
        if |rest| < 2 then None else Some((Message(s[1], address, Value(rest[..2])), rest[2..]))
  }

  /** Section 5 of RFC 1928. */
  function DecodeAddress(kind: Byte, s: seq<Byte>): Option<(Address, seq<Byte>)> {
    if kind == 1 then if |s| < 4 then None else Some((IPv4(s[..4]), s[4..]))
    else if kind == 3 then if |s| < 1 || |s| < 1 + s[0] as int then None else Some((Domain(s[1..1 + s[0] as int]), s[1 + s[0] as int..]))
    else if kind == 4 then if |s| < 16 then None else Some((IPv6(s[..16]), s[16..]))
    else None
  }

  /** The number that bytes make, the high one first. */
  function Value(bytes: seq<Byte>): nat {
    if bytes == [] then 0 else Value(bytes[..|bytes| - 1]) * 256 + bytes[|bytes| - 1]
  }

  /** The last `width` bytes of a number, the high one first. */
  function BigEndian(n: int, width: nat): (bytes: seq<Byte>)
    ensures |bytes| == width
    decreases width
  {
    if width == 0 then [] else BigEndian(n / 256, width - 1) + [n % 256]
  }

  function Word(n: int): (bytes: seq<Byte>)
    ensures |bytes| == 2
  {
    BigEndian(n, 2)
  }

  /** The bytes of a message as its section lays them out. */
  function Encode(m: Message): seq<Byte>
    requires ValidAddress(m.address)
  {
    [5, m.code, 0] + EncodeAddress(m.address) + Word(m.port)
  }

  function EncodeAddress(a: Address): seq<Byte>
    requires ValidAddress(a)
  {
    match a
    case IPv4(quad) => [1] + quad
    case Domain(name) => [3, |name|] + name
    case IPv6(bytes) => [4] + bytes
  }

  lemma ValueOfTwo(bytes: seq<Byte>)
    requires |bytes| == 2
    ensures Value(bytes) == bytes[0] as int * 256 + bytes[1]
  {
    assert bytes[..1] == [bytes[0]];
    assert Value(bytes[..1]) == Value(bytes[..1][..0]) * 256 + bytes[0];
  }

  lemma WordReads(n: nat)
    requires n < 65536
    ensures Value(Word(n)) == n
  {
    assert BigEndian(n, 2) == BigEndian(n / 256, 1) + [n % 256];
    assert BigEndian(n / 256, 1) == [n / 256];
    ValueOfTwo(Word(n));
  }

  lemma DecodeAddressOfEncode(a: Address, rest: seq<Byte>)
    requires ValidAddress(a)
    ensures DecodeAddress(EncodeAddress(a)[0], EncodeAddress(a)[1..] + rest) == Some((a, rest))
  {
    match a
    case IPv4(quad) =>
      assert EncodeAddress(a)[1..] == quad;
      assert (quad + rest)[..4] == quad && (quad + rest)[4..] == rest;
    case Domain(name) =>
      var s: seq<Byte> := EncodeAddress(a)[1..] + rest;
      assert s[0] == |name| && s[1..1 + |name|] == name && s[1 + |name|..] == rest;
    case IPv6(bytes) =>
      assert EncodeAddress(a)[1..] == bytes;
      assert (bytes + rest)[..16] == bytes && (bytes + rest)[16..] == rest;
  }

  /** Where the parts of a message are. */
  lemma PartsOf(head: seq<Byte>, address: seq<Byte>, port: seq<Byte>, rest: seq<Byte>)
    requires |head| == 3 && |address| > 0 && |port| == 2
    ensures var s := head + address + port + rest;
      && s[0] == head[0] && s[1] == head[1] && s[2] == head[2] && s[3] == address[0]
      && s[4..] == address[1..] + (port + rest)
      && s[3 + |address| + 2..] == rest
    ensures (port + rest)[..2] == port && (port + rest)[2..] == rest
  {
  }

  lemma DecodeOfEncode(m: Message, rest: seq<Byte>)
    requires ValidAddress(m.address) && m.port < 65536
    ensures Decode(Encode(m) + rest) == Some((m, rest))
  {
    PartsOf([5, m.code, 0], EncodeAddress(m.address), Word(m.port), rest);
    DecodeAddressOfEncode(m.address, Word(m.port) + rest);
    WordReads(m.port);
  }

  /** Whatever is decoded has a port in range and a domain of at most 255 bytes. */
  lemma DecodedIsInRange(s: seq<Byte>)
    requires Decode(s).Some?
    ensures Decode(s).value.0.port < 65536
    ensures Decode(s).value.0.address.Domain? ==> |Decode(s).value.0.address.name| <= 255
  {
    ValueOfTwo(DecodeAddress(s[3], s[4..]).value.1[..2]);
  }

  /** Section 3 of RFC 1928: the version, the number of methods and the methods. */
  function DecodeGreeting(s: seq<Byte>): Option<seq<Byte>> {
    if |s| < 2 || s[0] != 5 || |s| != 2 + s[1] as int then None else Some(s[2..])
  }

  /** The greeting offers no authentication (0) and user name and password (2); and what the
      relayed answer must begin with is "HTTP/". */
  lemma GreetingOffers()
    ensures DecodeGreeting(GREETING) == Some([0, 2])
    ensures HTTP == Bytes("HTTP/")
  {
  }

  // ----- The request -----

  /** Builds the CONNECT request in a buffer; `quad` is what the address parser makes of the host. */
  method BuildRequest(host: seq<Byte>, port: int, quad: Option<seq<Byte>>) returns (req: array<Byte>)
    requires quad.Some? ==> |quad.value| == 4
    ensures fresh(req)
    ensures quad.Some? ==> req[..] == [5, 1, 0, 1] + quad.value + Word(port)
    ensures quad.None? ==> req[..] == [5, 1, 0, 3, |host| % 256] + host + Word(port)
  {
    if quad.Some? {
      req := BuildAddressRequest(port, quad.value);
    } else {
      req := BuildDomainRequest(host, port);
    }
  }

  method BuildAddressRequest(port: int, quad: seq<Byte>) returns (req: array<Byte>)
    requires |quad| == 4
    ensures fresh(req) && req[..] == [5, 1, 0, 1] + quad + Word(port)
  {
    req := new Byte[10](_ => 0);
    req[0], req[1], req[2], req[3] := 5, 1, 0, 1;
    forall k | 0 <= k < 4 { req[4 + k] := quad[k]; }
    req[8], req[9] := Word(port)[0], Word(port)[1];
  }

  method BuildDomainRequest(host: seq<Byte>, port: int) returns (req: array<Byte>)
    ensures fresh(req) && req[..] == [5, 1, 0, 3, |host| % 256] + host + Word(port)
  {
    req := new Byte[7 + |host|](_ => 0);
    req[0], req[1], req[2], req[3] := 5, 1, 0, 3;
    req[4] := |host| % 256;
    forall k | 0 <= k < |host| { req[5 + k] := host[k]; }
    req[5 + |host|], req[6 + |host|] := Word(port)[0], Word(port)[1];
    PiecedTogether(req[..], [5, 1, 0, 3, |host| % 256], host, Word(port));
  }

  lemma PiecedTogether(all: seq<Byte>, a: seq<Byte>, b: seq<Byte>, c: seq<Byte>)
    requires |all| == |a| + |b| + |c|
    requires forall k :: 0 <= k < |a| ==> all[k] == a[k]
    requires forall k :: 0 <= k < |b| ==> all[|a| + k] == b[k]
    requires forall k :: 0 <= k < |c| ==> all[|a| + |b| + k] == c[k]
    ensures all == a + b + c
  {
    assert all[..|a|] == a && all[|a|..|a| + |b|] == b && all[|a| + |b|..] == c;
    assert all == all[..|a|] + all[|a|..|a| + |b|] + all[|a| + |b|..];
  }

  function RequestFor(host: seq<Byte>, port: int, quad: Option<seq<Byte>>): seq<Byte> {
    if quad.Some? then [5, 1, 0, 1] + quad.value + Word(port)
    else [5, 1, 0, 3, |host| % 256] + host + Word(port)
  }

  lemma RequestIsEncoded(host: seq<Byte>, port: nat, quad: Option<seq<Byte>>)
    requires if quad.Some? then |quad.value| == 4 else |host| <= 255
    ensures RequestFor(host, port, quad)
      == Encode(Message(1, if quad.Some? then IPv4(quad.value) else Domain(host), port)) + []
  {
    if quad.Some? {
      Regroup([5, 1, 0], [1], quad.value, Word(port));
    } else {
      Regroup([5, 1, 0], [3, |host|], host, Word(port));
    }
  }

  lemma Regroup(a: seq<Byte>, b: seq<Byte>, c: seq<Byte>, d: seq<Byte>)
    ensures (a + b) + c + d == a + (b + c) + d + []
  {
  }

  /** The proxy reads back the address and port that were meant, and nothing more, exactly if
      the port is a port and a domain is at most 255 bytes long. */
  lemma RequestReadsBackIff(host: seq<Byte>, port: int, quad: Option<seq<Byte>>)
    requires quad.Some? ==> |quad.value| == 4
    ensures (0 <= port
             && Decode(RequestFor(host, port, quad))
                == Some((Message(1, if quad.Some? then IPv4(quad.value) else Domain(host), port), [])))
            <==> 0 <= port < 65536 && (quad.Some? || |host| <= 255)
  {
    var req := RequestFor(host, port, quad);
    if Decode(req).Some? { DecodedIsInRange(req); }
    if 0 <= port < 65536 && (quad.Some? || |host| <= 255) {
      RequestIsEncoded(host, port, quad);
      DecodeOfEncode(Message(1, if quad.Some? then IPv4(quad.value) else Domain(host), port), []);
    }
  }

  // ----- SOCKS5 -----

  datatype Failure = AuthRead | BadVersion | NoMethod | ReplyRead | Refused | ProbeRead | NotHttp
  datatype Outcome = Passed | Failed(failure: Failure)
  datatype Handshake = Reached(rest: seq<Byte>) | Stopped(failure: Failure)

  /** What the check makes of the bytes of a reply. */
  function ReadReply(s: seq<Byte>): Handshake {
    if |s| < 4 then Stopped(ReplyRead)
    else if s[0] != 5 || s[1] != 0 then Stopped(Refused)
    else if s[3] == 3 && |s| < 5 then Stopped(ReplyRead)
    else
      var size := if s[3] == 3 then 7 + s[4] as int else if s[3] == 4 then 22 else 10;
      if |s| < size then Stopped(ReplyRead) else Reached(s[size..])
  }

  function ReadHandshake(s: seq<Byte>): Handshake {
    if |s| < 2 then Stopped(AuthRead)
    else if s[0] != 5 then Stopped(BadVersion)
    else if s[1] == 255 then Stopped(NoMethod)
    else ReadReply(s[2..])
  }

  /** Any method but 0xFF is taken for agreement, user name and password (2) too, though no
      credentials are ever sent. */
  lemma MethodIsNotLookedAt(m: Byte, s: seq<Byte>)
    ensures ReadHandshake([5, m] + s) == if m == 255 then Stopped(NoMethod) else ReadReply(s)
  {
    assert ([5, m] + s)[2..] == s;
  }

  /** A well-formed success reply, of any address kind, is consumed exactly: the next byte is
      the first one relayed. */
  lemma SuccessReplyIsConsumed(m: Message, rest: seq<Byte>)
    requires ValidAddress(m.address) && m.port < 65536 && m.code == 0
    ensures ReadHandshake([5, 0] + Encode(m) + rest) == Reached(rest)
  {
    var s, address := Encode(m) + rest, EncodeAddress(m.address);
    assert ([5, 0] + Encode(m) + rest)[2..] == s;
    PartsOf([5, m.code, 0], address, Word(m.port), rest);
    if m.address.Domain? { assert s[4] == s[4..][0] == |m.address.name|; }
  }

  /** Conversely, when the check gets through a reply whose reserved byte is 0 and whose
      address kind is known, it has read a success reply and no byte more. */
  lemma ConsumedIsASuccessReply(s: seq<Byte>)
    requires ReadReply(s).Reached? && s[2] == 0 && s[3] in {1, 3, 4}
    ensures Decode(s).Some? && Decode(s).value.0.code == 0 && Decode(s).value.1 == ReadReply(s).rest
  {
    var kind := s[3];
    if kind == 1 { assert s[4..][4..] == s[8..] && s[8..][2..] == s[10..]; }
    else if kind == 3 { assert s[4..][1 + s[4] as int..] == s[5 + s[4] as int..] && s[5 + s[4] as int..][2..] == s[7 + s[4] as int..]; }
    else { assert s[4..][16..] == s[20..] && s[20..][2..] == s[22..]; }
  }

  /** Among well-formed replies the code alone decides. */
  lemma RefusalIsACode(m: Message, rest: seq<Byte>)
    requires ValidAddress(m.address) && m.port < 65536
    ensures ReadReply(Encode(m) + rest) == (if m.code == 0 then Reached(rest) else Stopped(Refused))
  {
    if m.code == 0 {
      SuccessReplyIsConsumed(m, rest);
      assert ([5, 0] + Encode(m) + rest)[2..] == Encode(m) + rest;
    }
  }

  /** The check passes what the relay answered exactly if the answer begins with "HTTP/" and
      no chunk ends after its fourth byte. */
  ghost predicate ProbePasses(chunks: seq<seq<Byte>>, rest: seq<Byte>) {
    HTTP <= rest && !CutAt(chunks, |rest| - 4)
  }

  /** The same answer passes when it arrives whole and fails when its first chunk is four bytes. */
  lemma ChunkingDecides(rest: seq<Byte>)
    requires HTTP <= rest
    ensures ProbePasses([rest], rest) && !ProbePasses([rest[..4], rest[4..]], rest)
  {
    assert Flatten([rest]) == rest by { assert [rest][1..] == []; assert rest + [] == rest; }
    NoCutInside([rest], |rest| - 4);
    var two: seq<seq<Byte>> := [rest[..4], rest[4..]];
    assert two[1..] == [rest[4..]] && [rest[4..]][1..] == [];
    assert |Flatten(two[1..])| == |rest| - 4;
  }

  lemma ProbeLater(before: seq<seq<Byte>>, after: seq<seq<Byte>>)
    requires KeepsCuts(before, after)
    ensures ProbePasses(after, Flatten(after)) <==> ProbePasses(before, Flatten(after))
  {
  }

  function Bytes(s: string): seq<Byte> {
    seq(|s|, k requires 0 <= k < |s| => s[k] as int % 256)
  }

  /** A zeroed tail never completes "HTTP/". */
  lemma PaddedPrefix(data: seq<Byte>, zeros: seq<Byte>, rest: seq<Byte>)
    requires 4 <= |data| <= PROBE_ROOM == |data| + |zeros| && data <= rest
    requires forall k :: 0 <= k < |zeros| ==> zeros[k] == 0
    ensures HTTP <= data + zeros <==> |data| >= 5 && HTTP <= rest
  {
    var buffer := data + zeros;
    assert forall k :: 0 <= k < |data| ==> buffer[k] == data[k] == rest[k];
    assert HTTP <= buffer <==> forall k :: 0 <= k < 5 ==> buffer[k] == HTTP[k];
    if |data| == 4 { assert buffer[4] == 0 && HTTP[4] == 47; }
    if |rest| >= 5 { assert HTTP <= rest <==> forall k :: 0 <= k < 5 ==> rest[k] == HTTP[k]; }
  }

  /** The last step of both checks: at least 4 bytes of answer in a zeroed buffer of 12. */
  method Probe(conn: Conn) returns (result: Outcome)
    modifies conn
    ensures conn.sent == old(conn.sent) + Bytes(PROBE)
    ensures result == Passed <==> ProbePasses(old(conn.chunks), old(conn.Rest()))
    ensures result == Failed(ProbeRead) <==> |old(conn.Rest())| < 4
    ensures result in {Passed, Failed(ProbeRead), Failed(NotHttp)}
  {
    ghost var rest := conn.Rest();
    conn.Write(Bytes(PROBE));
    var ok, data := conn.ReadAtLeast(PROBE_LEAST, PROBE_ROOM);
    if !ok { return Failed(ProbeRead); }
    var zeros: seq<Byte> := seq(PROBE_ROOM - |data|, _ => 0);
    PaddedPrefix(data, zeros, rest);
    if HTTP <= data + zeros { return Passed; }
    return Failed(NotHttp);
  }

  /** Reads a reply: fails, or leaves exactly what follows it. */
  method ReadReplyFrom(conn: Conn) returns (failure: Option<Failure>)
    modifies conn`chunks
    ensures match ReadReply(old(conn.Rest()))
      case Stopped(f) => failure == Some(f)
      case Reached(rest) => failure == None && conn.Rest() == rest && KeepsCuts(old(conn.chunks), conn.chunks)
  {
    ghost var s := conn.Rest();
    var ok, header := conn.ReadFull(4);
    if !ok { return Some(ReplyRead); }
    if header[0] != 5 || header[1] != 0 { return Some(Refused); }
    ghost var second := conn.chunks;
    var size: nat := 4;
    if header[3] == 3 {
      var gotLength, length := conn.ReadFull(1);
      if !gotLength { return Some(ReplyRead); }
      size := length[0] as int;
      assert conn.Rest() == s[5..];
      KeepsCutsOn(old(conn.chunks), second, conn.chunks);
    } else if header[3] == 4 {
      size := 16;
    }
    ghost var used := |s| - |conn.Rest()|;
    assert conn.Rest() == s[used..];
    ghost var third := conn.chunks;
    var gotRest, _ := conn.ReadFull(size + 2);
    if !gotRest { return Some(ReplyRead); }
    KeepsCutsOn(old(conn.chunks), third, conn.chunks);
    assert s[used..][size + 2..] == s[used + size + 2..];
    return None;
  }

  /** The first exchange: greeting and method selection. */
  method Negotiate(conn: Conn) returns (failure: Option<Failure>)
    modifies conn
    ensures conn.sent == old(conn.sent) + GREETING
    ensures var s := old(conn.Rest());
      failure == if |s| < 2 then Some(AuthRead) else if s[0] != 5 then Some(BadVersion)
                 else if s[1] == 255 then Some(NoMethod) else None
    ensures failure == None ==> conn.Rest() == old(conn.Rest())[2..] && KeepsCuts(old(conn.chunks), conn.chunks)
  {
    conn.Write(GREETING);
    var ok, auth := conn.ReadFull(2);
    if !ok { return Some(AuthRead); }
    if auth[0] != 5 { return Some(BadVersion); }
    if auth[1] == 255 { return Some(NoMethod); }
    return None;
  }

  /** Where the check connects to: 1.1.1.1:80 when no host is given. */
  function SentRequest(host: seq<Byte>, port: int, quad: Option<seq<Byte>>): seq<Byte> {
    if host == [] then RequestFor([], 80, Some(DEFAULT_QUAD)) else RequestFor(host, port, quad)
  }

  /** Without a host: CONNECT to 1.1.1.1, port 80. */
  lemma DefaultRequest(port: int, quad: Option<seq<Byte>>)
    ensures SentRequest([], port, quad) == [5, 1, 0, 1, 1, 1, 1, 1, 0, 80]
  {
    assert BigEndian(80, 2) == BigEndian(0, 1) + [80];
    assert BigEndian(0, 1) == [] + [0];
  }

  method SendRequest(conn: Conn, host: seq<Byte>, port: int, quad: Option<seq<Byte>>)
    requires quad.Some? ==> |quad.value| == 4
    modifies conn`sent
    ensures conn.sent == old(conn.sent) + SentRequest(host, port, quad)
  {
    var req: array<Byte>;
    if host == [] {
      req := BuildRequest([], 80, Some(DEFAULT_QUAD));
    } else {
      req := BuildRequest(host, port, quad);
    }
    conn.Write(req[..]);
  }

  /** The bytes sent by the time a handshake has come this far: the request goes out only once
      a method is agreed, the probe only once the reply is a success. */
  function SentBy(h: Handshake, request: seq<Byte>): seq<Byte> {
    match h
    case Stopped(f) => if f in {AuthRead, BadVersion, NoMethod} then GREETING else GREETING + request
    case Reached(_) => GREETING + request + Bytes(PROBE)
  }

  lemma SentInOrder(sent: seq<Byte>, request: seq<Byte>)
    ensures sent + GREETING + request == sent + (GREETING + request)
    ensures sent + GREETING + request + Bytes(PROBE) == sent + (GREETING + request + Bytes(PROBE))
  {
  }

  /** Passes exactly if the proxy selects a method, reports success, and the relayed answer
      passes; everything up to the answer depends on the bytes alone, not on their chunks. */
  method CheckSocks5(conn: Conn, host: seq<Byte>, port: int, quad: Option<seq<Byte>>) returns (result: Outcome)
    requires quad.Some? ==> |quad.value| == 4
    modifies conn
    ensures match ReadHandshake(old(conn.Rest()))
      case Stopped(f) => result == Failed(f)
      case Reached(rest) =>
        && (result == Passed <==> ProbePasses(old(conn.chunks), rest))
        && (result == Failed(ProbeRead) <==> |rest| < 4)
        && result in {Passed, Failed(ProbeRead), Failed(NotHttp)}
    ensures conn.sent == old(conn.sent) + SentBy(ReadHandshake(old(conn.Rest())), SentRequest(host, port, quad))
    ensures var s := old(conn.Rest());
      && (result == Failed(AuthRead) <==> |s| < 2)
      && (result == Failed(BadVersion) <==> |s| >= 2 && s[0] != 5)
      && (result == Failed(NoMethod) <==> |s| >= 2 && s[0] == 5 && s[1] == 255)
      && (result == Failed(Refused) <==> |s| >= 6 && s[0] == 5 && s[1] != 255 && (s[2] != 5 || s[3] != 0))
    ensures if result in {Failed(AuthRead), Failed(BadVersion), Failed(NoMethod)} then conn.sent == old(conn.sent) + [5, 2, 0, 2]
      else old(conn.sent) + [5, 2, 0, 2] + SentRequest(host, port, quad) <= conn.sent
  {
    var failure := Negotiate(conn);
    if failure.Some? { return Failed(failure.value); }
    ghost var second := conn.chunks;
    SentInOrder(old(conn.sent), SentRequest(host, port, quad));
    SendRequest(conn, host, port, quad);
    failure := ReadReplyFrom(conn);
    if failure.Some? { return Failed(failure.value); }
    KeepsCutsOn(old(conn.chunks), second, conn.chunks);
    ProbeLater(old(conn.chunks), conn.chunks);
    result := Probe(conn);
  }

  // ----- SOCKS4 -----

  datatype Request4 = Request4(command: Byte, port: nat, quad: seq<Byte>, user: seq<Byte>)

  /** A SOCKS4 request: VN CD DSTPORT DSTIP USERID NUL. */
  function Decode4(s: seq<Byte>): Option<Request4> {
    if |s| < 9 || s[0] != 4 || s[|s| - 1] != 0 || 0 in s[8..|s| - 1] then None
    else Some(Request4(s[1], Value(s[2..4]), s[4..8], s[8..|s| - 1]))
  }

  function Request4For(port: int, quad: seq<Byte>): seq<Byte> {
    [4, 1] + Word(port) + quad + [0]
  }

  /** The address and port a SOCKS4 check asks for: anything but an IPv4 address is silently
      replaced by 1.1.1.1:80. */
  function Target4(port: int, quad: Option<seq<Byte>>): (int, seq<Byte>) {
    if quad.Some? then (port, quad.value) else (80, DEFAULT_QUAD)
  }

  lemma Request4ReadsBackIff(port: int, quad: seq<Byte>)
    requires |quad| == 4
    ensures (0 <= port && Decode4(Request4For(port, quad)) == Some(Request4(1, port, quad, []))) <==> 0 <= port < 65536
  {
    var s := Request4For(port, quad);
    assert s[4..8] == quad && s[8..|s| - 1] == [];
    assert s[2..4] == Word(port);
    ValueOfTwo(Word(port));
    if 0 <= port < 65536 { WordReads(port); }
  }

  method BuildRequest4(port: int, quad: seq<Byte>) returns (req: array<Byte>)
    requires |quad| == 4
    ensures fresh(req) && req[..] == Request4For(port, quad)
  {
    req := new Byte[9](_ => 0);
    req[0], req[1], req[2], req[3] := 4, 1, Word(port)[0], Word(port)[1];
    forall k | 0 <= k < 4 { req[4 + k] := quad[k]; }
    req[8] := 0;
  }

  /** Passes exactly if eight bytes of reply carry the code 0x5A (the first byte is not looked
      at) and the relayed answer passes. */
  method CheckSocks4(conn: Conn, port: int, quad: Option<seq<Byte>>) returns (result: Outcome)
    requires quad.Some? ==> |quad.value| == 4
    modifies conn
    ensures var s := old(conn.Rest());
      && (result == Failed(ReplyRead) <==> |s| < 8)
      && (result == Failed(Refused) <==> |s| >= 8 && s[1] != 0x5A)
      && (result == Passed <==> |s| >= 8 && s[1] == 0x5A && ProbePasses(old(conn.chunks), s[8..]))
    ensures var s := old(conn.Rest());
      conn.sent == old(conn.sent)
        + (if quad.Some? then Request4For(port, quad.value) else Request4For(80, [1, 1, 1, 1]))
        + if |s| >= 8 && s[1] == 0x5A then Bytes(PROBE) else []
  {
    var req := BuildRequest4(Target4(port, quad).0, Target4(port, quad).1);
    conn.Write(req[..]);
    var ok, reply := conn.ReadFull(8);
    if !ok { return Failed(ReplyRead); }
    if reply[1] != 0x5A { return Failed(Refused); }
    ProbeLater(old(conn.chunks), conn.chunks);
    result := Probe(conn);
  }
}
