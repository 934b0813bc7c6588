/** The string functions of the Go standard library that the pipeline relies on, as
    far as it relies on them, with what they promise each other. */
module Text {
  datatype Option<+T> = None | Some(value: T)

  // ----- Decimal numbers -----

  predicate IsDigit(c: char) {
    '0' <= c <= '9'
  }

  predicate AllDigits(s: string) {
    forall i :: 0 <= i < |s| ==> IsDigit(s[i])
  }

  function DigitChar(d: nat): (c: char)
    requires d < 10
    ensures IsDigit(c) && DigitValue(c) == d
  {
    ('0' as int + d) as char
  }

  function DigitValue(c: char): (d: nat)
    requires IsDigit(c)
    ensures d < 10
  {
    c as int - '0' as int
  }

  function Digits(n: nat): (s: string)
    ensures s != [] && AllDigits(s)
    ensures DigitsValue(s) == n
  {
    if n < 10 then [DigitChar(n)]
    else
      var s := Digits(n / 10) + [DigitChar(n % 10)];
      assert s[..|s| - 1] == Digits(n / 10);
      s
  }

  function Pow10(k: nat): nat {
    if k == 0 then 1 else 10 * Pow10(k - 1)
  }

  lemma {:induction false} DigitsLength(n: nat, k: nat)
    requires 0 < k && n < Pow10(k)
    ensures |Digits(n)| <= k
  {
    if n >= 10 {
      DigitsLength(n / 10, k - 1);
    }
  }

  function DigitsValue(s: string): nat
    requires AllDigits(s)
  {
    if s == [] then 0 else DigitsValue(s[..|s| - 1]) * 10 + DigitValue(s[|s| - 1])
  }

  /** strconv.Itoa, and fmt's %d. */
  function Itoa(n: int): string {
    if n < 0 then "-" + Digits(-n) else Digits(n)
  }

  lemma ItoaInjective(m: int, n: int)
    requires Itoa(m) == Itoa(n)
    ensures m == n
  {
    if m < 0 {
      assert Itoa(m)[1..] == Digits(-m);
      assert !IsDigit(Itoa(m)[0]);
      assert Itoa(n)[1..] == Digits(-n);
    } else {
      assert IsDigit(Itoa(m)[0]);
    }
  }

  lemma ItoaHasNoColon(n: int)
    ensures ':' !in Itoa(n)
  {
    var digits := Digits(if n < 0 then -n else n);
    assert forall i :: 0 <= i < |digits| ==> digits[i] != ':';
  }

  const MAX_INT64: int := 0x7FFF_FFFF_FFFF_FFFF

  /** strconv.Atoi: the value it returns and whether it returned no error.  A value
      out of range comes back clamped, with an error; bad syntax as 0. */
  function Atoi(s: string): (int, bool) {
    var negative := s != [] && s[0] == '-';
    var digits := if s != [] && s[0] in {'-', '+'} then s[1..] else s;
    if digits == [] || !AllDigits(digits) then (0, false)
    else
      var magnitude: int := DigitsValue(digits);
      var n := if negative then -magnitude else magnitude;
      if n > MAX_INT64 then (MAX_INT64, false)
      else if n < -MAX_INT64 - 1 then (-MAX_INT64 - 1, false)
      else (n, true)
  }

  lemma AtoiOfDigits(n: nat)
    requires n <= MAX_INT64
    ensures Atoi(Digits(n)) == (n, true)
  {
    assert IsDigit(Digits(n)[0]);
  }

  /** Any integer printed is read back, clamped with an error when it does not fit 64 bits. */
  lemma AtoiOfItoa(n: int)
    ensures Atoi(Itoa(n)) ==
      if n > 0x7FFF_FFFF_FFFF_FFFF then (0x7FFF_FFFF_FFFF_FFFF, false)
      else if n < -0x8000_0000_0000_0000 then (-0x8000_0000_0000_0000, false)
      else (n, true)
  {
    var digits := Digits(if n < 0 then -n else n);
    assert IsDigit(digits[0]);
    if n < 0 { assert Itoa(n)[1..] == digits; }
  }

  // ----- Searching -----

  /** Position of the last `c`, or -1. */
  function LastIndex(s: string, c: char): (i: int)
    ensures -1 <= i < |s|
    ensures i >= 0 ==> s[i] == c
    ensures forall j :: i < j < |s| ==> s[j] != c
  {
    if s == [] then -1
    else if s[|s| - 1] == c then |s| - 1
    else LastIndex(s[..|s| - 1], c)
  }

  /** Position of the first `c`, or -1. */
  function Index(s: string, c: char): (i: int)
    ensures -1 <= i < |s|
    ensures i >= 0 ==> s[i] == c && forall j :: 0 <= j < i ==> s[j] != c
    ensures i < 0 ==> c !in s
  {
    if s == [] then -1
    else if s[0] == c then 0
    else
      var i := Index(s[1..], c);
      assert s == [s[0]] + s[1..];
      if i < 0 then -1 else i + 1
  }

  predicate StartsAt(s: string, i: nat, part: string)
    requires i <= |s|
  {
    part <= s[i..]
  }

  predicate Contains(s: string, part: string) {
    exists i :: 0 <= i <= |s| && StartsAt(s, i, part)
  }

  lemma LastColon(a: string, b: string)
    requires ':' !in b
    ensures LastIndex(a + ":" + b, ':') == |a|
  {
    var s := a + ":" + b;
    assert s[|a|] == ':';
    assert s[|a| + 1..] == b;
  }

  lemma ColonSplitUnique(a: string, b: string, x: string, y: string)
    requires a + ":" + b == x + ":" + y
    requires ':' !in b && ':' !in y
    ensures a == x && b == y
  {
    LastColon(a, b);
    LastColon(x, y);
    var s := a + ":" + b;
    assert s[..|a|] == a && s[..|x|] == x;
    assert s[|a| + 1..] == b && s[|x| + 1..] == y;
  }

  // ----- White space -----

  /** unicode.IsSpace. */
  predicate IsSpace(c: char) {
    c in {'\t', '\n', '\r', ' ', '\U{0B}', '\U{0C}', '\U{85}', '\U{A0}', '\U{1680}', '\U{2028}', '\U{2029}', '\U{202F}',
          '\U{205F}', '\U{3000}'}
    || '\U{2000}' <= c <= '\U{200A}'
  }

  function TrimLeft(s: string): string {
    if s != [] && IsSpace(s[0]) then TrimLeft(s[1..]) else s
  }

  function TrimRight(s: string): string {
    if s != [] && IsSpace(s[|s| - 1]) then TrimRight(s[..|s| - 1]) else s
  }

  function TrimSpace(s: string): string {
    TrimRight(TrimLeft(s))
  }

  /** The ASCII blanks. */
  const BLANKS := "\t\n\U{0B}\U{0C}\r "

  ghost predicate AllBlank(s: string) {
    forall i :: 0 <= i < |s| ==> s[i] in BLANKS
  }

  predicate Tight(s: string) {
    s != [] && !IsSpace(s[0]) && !IsSpace(s[|s| - 1])
  }

  lemma BlanksAreSpace(c: char)
    ensures c in BLANKS ==> IsSpace(c)
    ensures 0x21 <= c as int < 0x7F ==> !IsSpace(c)
  {
  }

  lemma {:induction false} TrimLeftOf(a: string, s: string)
    requires AllBlank(a) && (s != [] ==> !IsSpace(s[0]))
    ensures TrimLeft(a + s) == s
  {
    if a == [] {
      assert a + s == s;
    } else {
      BlanksAreSpace(a[0]);
      assert (a + s)[1..] == a[1..] + s;
      TrimLeftOf(a[1..], s);
    }
  }

  lemma {:induction false} TrimRightOf(s: string, b: string)
    requires AllBlank(b) && (s != [] ==> !IsSpace(s[|s| - 1]))
    ensures TrimRight(s + b) == s
  {
    if b == [] {
      assert s + b == s;
    } else {
      BlanksAreSpace(b[|b| - 1]);
      assert (s + b)[..|s + b| - 1] == s + b[..|b| - 1];
      TrimRightOf(s, b[..|b| - 1]);
    }
  }

  /** Blanks around a text are trimmed, and nothing else. */
  lemma TrimOfPadded(a: string, s: string, b: string)
    requires AllBlank(a) && AllBlank(b) && Tight(s)
    ensures TrimSpace(a + s + b) == s
  {
    assert a + s + b == a + (s + b);
    TrimLeftOf(a, s + b);
    TrimRightOf(s, b);
  }

  lemma TrimOfBlank(a: string)
    requires AllBlank(a)
    ensures TrimSpace(a) == ""
  {
    assert a + "" == a;
    TrimLeftOf(a, "");
  }

  /** strings.ToLower on ASCII letters; other characters are left alone. */
  function ToLower(s: string): string {
    if s == [] then []
    else ToLower(s[..|s| - 1]) + [if 'A' <= s[|s| - 1] <= 'Z' then (s[|s| - 1] as int + 32) as char else s[|s| - 1]]
  }

  lemma {:induction false} ToLowerAt(s: string, i: nat)
    requires i < |s|
    ensures |ToLower(s)| == |s|
    ensures ToLower(s)[i] == if 'A' <= s[i] <= 'Z' then s[i] - 'A' + 'a' else s[i]
  {
    if i < |s| - 1 { ToLowerAt(s[..|s| - 1], i); }
    else if i > 0 { ToLowerAt(s[..|s| - 1], 0); }
  }

  lemma {:induction false} ToLowerKeeps(s: string)
    requires forall i :: 0 <= i < |s| ==> !('A' <= s[i] <= 'Z')
    ensures ToLower(s) == s
  {
    if s != [] {
      ToLowerKeeps(s[..|s| - 1]);
    }
  }

  // ----- Host and port -----

  /** net.SplitHostPort. */
  function SplitHostPort(s: string): Option<(string, string)> {
    var i := LastIndex(s, ':');
    if i < 0 then None
    else if s[0] == '[' then
      var end := Index(s, ']');
      if end < 0 || end + 1 != i || '[' in s[1..] || ']' in s[end + 1..] then None
      else Some((s[1..end], s[i + 1..]))
    else if ':' in s[..i] || '[' in s || ']' in s then None
    else Some((s[..i], s[i + 1..]))
  }

  lemma LastColonAt(s: string, i: nat)
    requires i < |s| && s[i] == ':' && forall j :: i < j < |s| ==> s[j] != ':'
    ensures LastIndex(s, ':') == i
  {
  }

  /** A bracketed host, colons and all, is taken out of its brackets. */
  lemma SplitOfBracketed(host: string, port: string)
    requires forall i :: 0 <= i < |host| ==> host[i] != '[' && host[i] != ']'
    requires forall i :: 0 <= i < |port| ==> port[i] != '[' && port[i] != ']' && port[i] != ':'
    ensures SplitHostPort("[" + host + "]:" + port) == Some((host, port))
  {
    var s := "[" + host + "]:" + port;
    BracketedParts(host, port);
    LastColonAt(s, |host| + 2);
    assert Index(s, ']') == |host| + 1 by {
      var k := Index(s, ']');
      assert k >= 0 && k <= |host| + 1;
    }
    assert forall i :: 0 <= i < |s[1..]| ==> s[1..][i] == s[i + 1] && s[i + 1] != '[';
  }

  lemma BracketedParts(host: string, port: string)
    ensures var s := "[" + host + "]:" + port;
      && s[0] == '[' && s[|host| + 1] == ']' && s[|host| + 2] == ':'
      && s[1..|host| + 1] == host && s[|host| + 3..] == port && s[|host| + 2..] == [':'] + port
      && (forall i :: 0 <= i < |host| ==> s[i + 1] == host[i])
      && (forall i :: |host| + 3 <= i < |s| ==> s[i] == port[i - |host| - 3])
  {
  }

  /** Without a colon, or with more than one outside brackets, there is no port. */
  lemma SplitFails(a: string, b: string, c: string)
    ensures ':' !in a ==> SplitHostPort(a) == None
    ensures a != [] && a[0] != '[' ==> SplitHostPort(a + ":" + b + ":" + c) == None
  {
    var s := a + ":" + b + ":" + c;
    var i := LastIndex(s, ':');
    assert s[|a|] == ':' && s[|a| + 1 + |b|] == ':';
    assert i >= |a| + 1 + |b|;
    assert s[..i][|a|] == ':';
  }

  /** A host written with digits and dots only, as every IPv4 address is. */
  predicate PlainHost(host: string) {
    host != [] && forall i :: 0 <= i < |host| ==> IsDigit(host[i]) || host[i] == '.'
  }

  function HostPort(host: string, port: int): string {
    host + ":" + Itoa(port)
  }

  lemma SplitOfPlainHostPort(host: string, port: nat)
    requires PlainHost(host)
    ensures SplitHostPort(HostPort(host, port)) == Some((host, Digits(port)))
  {
    var s := HostPort(host, port);
    ItoaHasNoColon(port);
    LastColon(host, Digits(port));
    assert s == host + ":" + Digits(port);
    assert s[..|host|] == host && s[|host| + 1..] == Digits(port);
    forall c | c in s ensures c != '[' && c != ']' {
      assert c in host || c == ':' || c in Digits(port);
    }
  }

  // ----- Lines -----

  /** Longest line bufio.Scanner delivers here, the newline included. */
  const MAX_LINE: nat := 1024 * 1024

  /** A text file: each line and its newline. */
  function Render(lines: seq<string>): string {
    if lines == [] then "" else Render(lines[..|lines| - 1]) + lines[|lines| - 1] + "\n"
  }

  function DropCR(line: string): string {
    if line != [] && line[|line| - 1] == '\r' then line[..|line| - 1] else line
  }

  /** The lines bufio.Scanner delivers, and whether it then stops at one too long. */
  function Scan(content: string): (seq<string>, bool)
    decreases |content|
  {
    if content == [] then ([], false)
    else
      var i := Index(content, '\n');
      var raw := if i < 0 then content else content[..i];
      if |raw| >= MAX_LINE then ([], true)
      else
        var rest := Scan(if i < 0 then "" else content[i + 1..]);
        ([DropCR(raw)] + rest.0, rest.1)
  }

  predicate PlainLine(line: string) {
    && '\n' !in line
    && (line != [] ==> line[|line| - 1] != '\r')
    && |line| < 1_048_576
  }

  lemma RenderLast(lines: seq<string>, line: string)
    ensures Render(lines + [line]) == Render(lines) + (line + "\n")
  {
    assert (lines + [line])[..|lines|] == lines;
    assert Render(lines) + line + "\n" == Render(lines) + (line + "\n");
  }

  lemma {:induction false} RenderSplit(a: seq<string>, b: seq<string>)
    ensures Render(a + b) == Render(a) + Render(b)
    decreases |b|
  {
    if b == [] {
      assert a + b == a;
    } else {
      var before, last := b[..|b| - 1], b[|b| - 1];
      RenderSplit(a, before);
      RenderLast(a + before, last);
      RenderLast(before, last);
      assert a + b == a + before + [last] && b == before + [last];
      assert Render(a) + (Render(before) + (last + "\n")) == Render(a) + Render(before) + (last + "\n");
    }
  }

  lemma IndexOfBreak(line: string, rest: string)
    requires '\n' !in line
    ensures Index(line + "\n" + rest, '\n') == |line|
  {
    var content := line + "\n" + rest;
    assert content[|line|] == '\n';
    assert forall i :: 0 <= i < |line| ==> content[i] == line[i];
  }

  /** The scanner takes off one line at a time. */
  lemma ScanLine(line: string, rest: string)
    requires PlainLine(line)
    ensures Scan(line + "\n" + rest) == ([line] + Scan(rest).0, Scan(rest).1)
  {
    var content := line + "\n" + rest;
    IndexOfBreak(line, rest);
    assert content[..|line|] == line && content[|line| + 1..] == rest;
    assert DropCR(line) == line;
  }

  lemma RenderFirst(line: string, rest: seq<string>)
    ensures Render([line] + rest) == line + "\n" + Render(rest)
  {
    RenderSplit([line], rest);
    assert [line][..0] == [];
    assert Render([line]) == "" + line + "\n";
  }

  /** A line that ends in a carriage return and a newline is delivered without either. */
  lemma ScanLineCRLF(line: string, rest: string)
    requires PlainLine(line) && |line| + 1 < 1_048_576
    ensures Scan(line + "\r\n" + rest) == ([line] + Scan(rest).0, Scan(rest).1)
  {
    var raw := line + "\r";
    assert line + "\r\n" + rest == raw + "\n" + rest;
    var content := raw + "\n" + rest;
    assert forall i :: 0 <= i < |raw| ==> raw[i] != '\n';
    IndexOfBreak(raw, rest);
    assert content[..|raw|] == raw && content[|raw| + 1..] == rest;
    assert DropCR(raw) == line;
  }

  /** The last line needs no newline. */
  lemma ScanLastLine(line: string)
    requires PlainLine(line) && line != []
    ensures Scan(line) == ([line], false)
  {
    assert Index(line, '\n') < 0;
    assert DropCR(line) == line;
    assert Scan("") == ([], false);
    assert [line] + [] == [line];
  }

  /** A line of a megabyte or more ends the scan with an error. */
  lemma ScanLongLine(line: string, rest: string)
    requires '\n' !in line && |line| >= 1_048_576
    ensures Scan(line + "\n" + rest) == ([], true)
  {
    IndexOfBreak(line, rest);
    assert (line + "\n" + rest)[..|line|] == line;
  }

  /** Scanning a rendered file gives its lines back. */
  lemma {:induction false} ScanOfRender(lines: seq<string>)
    requires forall i :: 0 <= i < |lines| ==> PlainLine(lines[i])
    ensures Scan(Render(lines)) == (lines, false)
  {
    if lines != [] {
      var line, rest := lines[0], lines[1..];
      ScanOfRender(rest);
      assert lines == [line] + rest;
      RenderFirst(line, rest);
      ScanLine(line, Render(rest));
    }
  }
}
