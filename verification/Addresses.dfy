/** Addresses with ports and the host-info line (`src/configure/utils.rs:20-33`,
    `src/config/config.rs:42-50`, `src/broadcast/broadcast.rs:128,181-197,238,257-271`). */
module Addresses {
  import opened Wrappers

  const U16_MAX: nat := 0xffff

  // --- Decimal numbers ----------------------------------------------------------------------

  function Digit(d: nat): (c: char)
    requires d < 10
    ensures '0' <= c <= '9'
  {
    ['0', '1', '2', '3', '4', '5', '6', '7', '8', '9'][d]
  }

  function DigitValue(c: char): (d: nat)
    requires '0' <= c <= '9'
    ensures d < 10
  {
    c as nat - '0' as nat
  }

  function Decimal(n: nat): (s: string)
    ensures |s| > 0
    ensures forall c :: c in s ==> '0' <= c <= '9'
  {
    if n < 10 then [Digit(n)] else Decimal(n / 10) + [Digit(n % 10)]
  }

  function DecimalValue(s: string): Option<nat> {
    if s == [] then Some(0)
    else
      var c := s[|s| - 1];
      match DecimalValue(s[..|s| - 1])
      case None => None
      case Some(n) => if '0' <= c <= '9' then Some(10 * n + DigitValue(c)) else None
  }

  lemma {:induction false} DecimalRoundTrip(n: nat)
    ensures DecimalValue(Decimal(n)) == Some(n)
  {
    if n < 10 {
      assert Decimal(n)[..0] == [];
    } else {
      DecimalRoundTrip(n / 10);
      assert Decimal(n)[..|Decimal(n)| - 1] == Decimal(n / 10);
    }
  }

  // `parse::<u16>`: digits, at least one, with an optional plus sign, and no overflow.
  function ParseU16(s: string): Option<nat> {
    var digits := if s != [] && s[0] == '+' then s[1..] else s;
    if digits == [] then None
    else
      match DecimalValue(digits)
      case None => None
      case Some(n) => if n <= U16_MAX then Some(n) else None
  }

  // --- Ports --------------------------------------------------------------------------------

  function Count(s: string, c: char): nat {
    if s == [] then 0 else (if s[0] == c then 1 else 0) + Count(s[1..], c)
  }

  // `contains("]:")`.
  predicate HasClosedPort(s: string) {
    exists i :: 0 <= i < |s| - 1 && s[i] == ']' && s[i + 1] == ':'
  }

  predicate Bracketed(address: string) {
    address != [] && address[0] == '['
  }

  function EnsurePort(address: string, port: nat): string {
    if Bracketed(address) then
      if HasClosedPort(address[1..]) then address
      else address + ":" + Decimal(port)
    else
      var colons := Count(address, ':');
      if colons == 0 then address + ":" + Decimal(port)
      else if colons == 1 then address
      else "[" + address + "]:" + Decimal(port)
  }

  // What follows the last colon.
  function AfterLastColon(s: string): Option<string> {
    if s == [] then None
    else
      match AfterLastColon(s[1..])
      case Some(rest) => Some(rest)
      case None => if s[0] == ':' then Some(s[1..]) else None
  }

  function BindPort(bind: string): Option<nat> {
    match AfterLastColon(bind)
    case None => None
    case Some(port) => ParseU16(port)
  }

  // The addresses `EnsurePort` returns as they are.
  predicate HasPort(address: string) {
    if Bracketed(address) then HasClosedPort(address[1..]) else Count(address, ':') == 1
  }

  lemma {:induction false} CountConcat(s: string, t: string, c: char)
    ensures Count(s + t, c) == Count(s, c) + Count(t, c)
  {
    if s == [] {
      assert s + t == t;
    } else {
      CountConcat(s[1..], t, c);
      assert (s + t)[1..] == s[1..] + t;
    }
  }

  lemma {:induction false} NoneToCount(s: string, c: char)
    requires c !in s
    ensures Count(s, c) == 0
  {
    if s != [] {
      NoneToCount(s[1..], c);
    }
  }

  lemma {:induction false} LastColonOf(s: string, t: string)
    requires ':' !in t
    ensures AfterLastColon(s + ":" + t) == Some(t)
  {
    if s == [] {
      NoColon(t);
      assert s + ":" + t == [':'] + t;
      assert ([':'] + t)[1..] == t;
    } else {
      LastColonOf(s[1..], t);
      assert (s + ":" + t)[1..] == s[1..] + ":" + t;
    }
  }

  lemma {:induction false} NoColon(t: string)
    requires ':' !in t
    ensures AfterLastColon(t) == None
  {
    if t != [] {
      NoColon(t[1..]);
    }
  }

  /** A printed number is read back if and only if it fits into 16 bits; no digits are no number. */
  lemma ParsePrinted(port: nat)
    ensures ParseU16(Decimal(port)) == ParseU16("+" + Decimal(port)) == if port <= 65535 then Some(port) else None
    ensures ParseU16("") == ParseU16("+") == None
  {
    DecimalRoundTrip(port);
    assert Decimal(port)[0] in Decimal(port);
    assert ("+" + Decimal(port))[1..] == Decimal(port);
  }

  // `contains("]:")`, by what comes before and after it.
  ghost predicate ClosesWithPort(s: string) {
    exists x, y :: s == x + "]:" + y
  }

  lemma ClosedPortIff(s: string)
    ensures HasClosedPort(s) <==> ClosesWithPort(s)
  {
    if HasClosedPort(s) {
      var i :| 0 <= i < |s| - 1 && s[i] == ']' && s[i + 1] == ':';
      assert s == s[..i] + "]:" + s[i + 2..];
    }
    if ClosesWithPort(s) {
      var x, y :| s == x + "]:" + y;
      assert s[|x|] == ']' && s[|x| + 1] == ':';
    }
  }

  lemma ColonBetween(a: string, b: string)
    ensures Count(a + ":" + b, ':') == Count(a, ':') + 1 + Count(b, ':')
  {
    CountConcat(a + ":", b, ':');
    CountConcat(a, ":", ':');
    assert Count(":", ':') == 1;
  }

  /** What completing does to each shape of address. The port is appended to one without a colon;
      one with a single colon stays; one with more is put in brackets first; one that already has
      brackets stays if they close before a port, and otherwise gets the port. */
  lemma CompletedIs(a: string, b: string, c: string, port: nat)
    ensures ':' !in a && !Bracketed(a) ==> EnsurePort(a, port) == a + ":" + Decimal(port)
    ensures ':' !in a && ':' !in b && !Bracketed(a) ==> EnsurePort(a + ":" + b, port) == a + ":" + b
    ensures !Bracketed(a) ==>
              EnsurePort(a + ":" + b + ":" + c, port) == "[" + (a + ":" + b + ":" + c) + "]:" + Decimal(port)
    ensures EnsurePort("[" + a + "]:" + b, port) == "[" + a + "]:" + b
    ensures !ClosesWithPort(a) ==> EnsurePort("[" + a, port) == "[" + a + ":" + Decimal(port)
  {
    if ':' !in a {
      NoneToCount(a, ':');
    }
    if ':' !in b {
      NoneToCount(b, ':');
    }
    ColonBetween(a, b);
    ColonBetween(a + ":" + b, c);
    assert ("[" + a)[1..] == a;
    ClosedPortIff(a);
    var closed := "[" + a + "]:" + b;
    assert closed[1..] == a + "]:" + b;
    ClosedPortIff(closed[1..]);
  }

  /** The port `bind_port` reads from a completed address: the default port exactly when the
      address came without one, and otherwise whatever it already said. */
  lemma BindPortOfCompleted(address: string, port: nat)
    requires port <= U16_MAX
    ensures BindPort(EnsurePort(address, port)) == if HasPort(address) then BindPort(address) else Some(port)
  {
    ParsePrinted(port);
    var digits := Decimal(port);
    if !HasPort(address) {
      if Bracketed(address) || Count(address, ':') == 0 {
        LastColonOf(address, digits);
      } else {
        LastColonOf("[" + address + "]", digits);
        assert "[" + address + "]" + ":" + digits == "[" + address + "]:" + digits;
      }
    }
  }

  // An opening bracket that is never closed.
  predicate Unclosed(address: string) {
    Bracketed(address) && !HasClosedPort(address[1..]) && address[|address| - 1] != ']'
  }

  /** Completing an address a second time changes nothing, whatever the two ports, except for an
      opening bracket that is never closed: those, and only those, grow a second port. */
  lemma EnsurePortIdempotentIff(address: string, p: nat, q: nat)
    ensures EnsurePort(EnsurePort(address, p), q) == EnsurePort(address, p) <==> !Unclosed(address)
  {
    var once := EnsurePort(address, p);
    var digits := Decimal(p);
    assert ':' !in digits && ']' !in digits;
    if Unclosed(address) {
      UnclosedStays(address, p);
    } else if Bracketed(address) {
      if !HasClosedPort(address[1..]) {
        assert once[1..][|address| - 2] == ']' && once[1..][|address| - 1] == ':';
      }
    } else if Count(address, ':') == 0 {
      CountConcat(address, ":" + digits, ':');
      CountConcat(":", digits, ':');
      NoneToCount(digits, ':');
      assert address + (":" + digits) == once;
      assert Count(":", ':') == 1;
      assert !Bracketed(once);
    } else if Count(address, ':') > 1 {
      assert once[1..] == address + "]:" + digits;
      assert once[1..][|address|] == ']' && once[1..][|address| + 1] == ':';
    }
  }

  lemma UnclosedStays(address: string, p: nat)
    requires Unclosed(address)
    ensures Unclosed(EnsurePort(address, p))
  {
    var once := EnsurePort(address, p);
    var rest := once[1..];
    var n := |address|;
    assert once == address + ":" + Decimal(p);
    assert rest == address[1..] + ":" + Decimal(p);
    assert ']' !in Decimal(p);
    forall i | 0 <= i < |rest| - 1 ensures !(rest[i] == ']' && rest[i + 1] == ':') {
      if i + 1 < n - 1 {
        assert address[1..][i] == rest[i] && address[1..][i + 1] == rest[i + 1];
      } else if i == n - 2 {
        assert rest[i] == address[n - 1];
      } else if i >= n {
        assert rest[i] == Decimal(p)[i - n];
        assert rest[i] in Decimal(p);
      }
    }
    assert once[|once| - 1] == Decimal(p)[|Decimal(p)| - 1];
    assert once[|once| - 1] in Decimal(p);
  }

  // An address completed once for each of the ports.
  function CompleteAll(address: string, ports: seq<nat>): string {
    if ports == [] then address
    else EnsurePort(CompleteAll(address, ports[..|ports| - 1]), ports[|ports| - 1])
  }

  /** What happens to them instead: every further completion makes them longer. */
  lemma {:induction false} UnclosedBracketGrows(address: string, ports: seq<nat>, p: nat)
    requires Unclosed(address)
    ensures Unclosed(CompleteAll(address, ports))
    ensures EnsurePort(CompleteAll(address, ports), p) == CompleteAll(address, ports) + ":" + Decimal(p)
  {
    if ports != [] {
      var n := |ports| - 1;
      UnclosedBracketGrows(address, ports[..n], p);
      UnclosedStays(CompleteAll(address, ports[..n]), ports[n]);
    }
  }

  /** The IPv6 loopback address with its closing bracket forgotten. */
  lemma LoopbackGrowsASecondPort()
    ensures EnsurePort("[::1", 80) == "[::1:80"
    ensures EnsurePort(EnsurePort("[::1", 80), 80) == "[::1:80:80"
  {
    assert Decimal(80) == Decimal(8) + "0" == "80";
    assert "[::1" + ":" + "80" == "[::1:80" && "[::1:80" + ":" + "80" == "[::1:80:80";
    assert Unclosed("[::1");
    UnclosedStays("[::1", 80);
  }

  // --- The host-info line -------------------------------------------------------------------

  const PREFIX: string := "synq"

  // Unicode White_Space.
  predicate IsSpace(c: char) {
    || '\t' <= c <= '\r'
    || c in {' ', '\U{0085}', '\U{00A0}', '\U{1680}', '\U{2028}', '\U{2029}', '\U{202F}', '\U{205F}', '\U{3000}'}
    || '\U{2000}' <= c <= '\U{200A}'
  }

  function FieldLength(s: string): (n: nat)
    ensures n <= |s|
    ensures forall i :: 0 <= i < n ==> !IsSpace(s[i])
    ensures n < |s| ==> IsSpace(s[n])
  {
    if s == [] || IsSpace(s[0]) then 0 else 1 + FieldLength(s[1..])
  }

  function SplitWhitespace(s: string): seq<string>
    decreases |s|
  {
    if s == [] then []
    else if IsSpace(s[0]) then SplitWhitespace(s[1..])
    else
      var n := FieldLength(s);
      [s[..n]] + SplitWhitespace(s[n..])
  }

  function FormatHostInfo(address: string, key: string): string {
    PREFIX + " " + address + " " + key
  }

  function ParseHostInfo(line: string): Option<(string, string)> {
    var parts := SplitWhitespace(line);
    if |parts| == 0 || parts[0] != PREFIX then None
    else if |parts| < 3 then None
    else Some((parts[1], parts[2]))
  }

  ghost predicate IsField(s: string) {
    s != [] && forall c :: c in s ==> !IsSpace(c)
  }

  lemma SplitFirst(field: string, rest: string)
    requires IsField(field) && (rest == [] || IsSpace(rest[0]))
    ensures SplitWhitespace(field + rest) == [field] + SplitWhitespace(rest)
  {
    var s := field + rest;
    var n := FieldLength(s);
    assert s[0] == field[0] && field[0] in field;
    assert forall i :: 0 <= i < |field| ==> s[i] == field[i] && field[i] in field;
    assert rest != [] ==> s[|field|] == rest[0];
    assert n == |field|;
    assert s[..n] == field && s[n..] == rest;
  }

  lemma {:induction false} SplitYieldsFields(s: string)
    ensures forall f :: f in SplitWhitespace(s) ==> IsField(f)
    decreases |s|
  {
    if s == [] {
    } else if IsSpace(s[0]) {
      SplitYieldsFields(s[1..]);
    } else {
      var n := FieldLength(s);
      SplitYieldsFields(s[n..]);
      assert s[..n][0] == s[0];
    }
  }

  // What `read_line` takes from the stream: up to and with the first newline.
  function ReadLine(s: string): string {
    if s == [] then []
    else if s[0] == '\n' then "\n"
    else [s[0]] + ReadLine(s[1..])
  }

  lemma {:induction false} ReadLineTakesAll(s: string)
    requires '\n' !in s
    ensures ReadLine(s + "\n") == s + "\n"
  {
    if s == [] {
      assert s + "\n" == "\n";
    } else {
      ReadLineTakesAll(s[1..]);
      assert (s + "\n")[1..] == s[1..] + "\n";
    }
  }

  // What the receiver of a host-info message parses: a line read from TCP, or a datagram.
  function Received(address: string, key: string, tcp: bool): string {
    if tcp then ReadLine(FormatHostInfo(address, key) + "\n") else FormatHostInfo(address, key)
  }

  /** Both receivers read a formatted message back if and only if neither field is empty or
      contains white space; the newline the TCP listener adds makes no difference. */
  lemma HostInfoRoundTripIff(address: string, key: string, tcp: bool)
    ensures ParseHostInfo(Received(address, key, tcp)) == Some((address, key))
            <==> IsField(address) && IsField(key)
  {
    SplitYieldsFields(Received(address, key, tcp));
    if IsField(address) && IsField(key) {
      var line := FormatHostInfo(address, key);
      forall c | c in line ensures c != '\n' {
        assert IsSpace('\n');
      }
      ReadLineTakesAll(line);
      FieldsParse(address, key, if tcp then "\n" else "");
      assert line + "" == line;
    }
  }

  // One field of the line, with the space before it.
  lemma SplitField(field: string, rest: string)
    requires IsField(field) && (rest == [] || IsSpace(rest[0]))
    ensures SplitWhitespace(" " + (field + rest)) == [field] + SplitWhitespace(rest)
  {
    SplitFirst(field, rest);
  }

  lemma Reassociated(address: string, key: string, end: string)
    ensures FormatHostInfo(address, key) + end == PREFIX + (" " + (address + (" " + (key + end))))
  {
    var tail := " " + (key + end);
    assert FormatHostInfo(address, key) + end == (PREFIX + " " + address) + tail;
    assert (PREFIX + " " + address) + tail == PREFIX + (" " + (address + tail));
  }

  lemma LineSplits(address: string, key: string, end: string)
    requires IsField(address) && IsField(key) && (end == "" || IsSpace(end[0]))
    ensures SplitWhitespace(PREFIX + (" " + (address + (" " + (key + end)))))
            == [PREFIX] + ([address] + ([key] + SplitWhitespace(end)))
  {
    SplitField(key, end);
    SplitField(address, " " + (key + end));
    SplitFirst(PREFIX, " " + (address + (" " + (key + end))));
  }

  lemma FieldsParse(address: string, key: string, end: string)
    requires IsField(address) && IsField(key) && (end == "" || IsSpace(end[0]))
    ensures ParseHostInfo(FormatHostInfo(address, key) + end) == Some((address, key))
  {
    Reassociated(address, key, end);
    LineSplits(address, key, end);
  }

  /** Lines of other programs are ignored: without the word "synq" in front, or without two words
      after it, nothing is read. */
  lemma OtherLines(first: string, rest: string, address: string)
    requires IsField(first) && IsField(address)
    ensures first != "synq" && (rest == "" || IsSpace(rest[0])) ==> ParseHostInfo(first + rest) == None
    ensures ParseHostInfo("") == ParseHostInfo("synq") == ParseHostInfo("synq " + address) == None
  {
    if first != "synq" && (rest == "" || IsSpace(rest[0])) {
      SplitFirst(first, rest);
    }
    SplitFirst("synq", "");
    assert "synq" + "" == "synq";
    SplitField(address, "");
    SplitFirst("synq", " " + (address + ""));
    assert "synq" + (" " + (address + "")) == "synq " + address;
  }

  /** Words after the key do not matter. */
  lemma MoreWords(address: string, key: string, more: string)
    requires IsField(address) && IsField(key)
    ensures ParseHostInfo(FormatHostInfo(address, key) + (" " + more)) == Some((address, key))
  {
    FieldsParse(address, key, " " + more);
  }

}
