/** The endpoint parser, against a grammar that says which texts spell which endpoint. */
module Endpoint {
  import opened Bytes
  import opened Wrappers

  const COLON: byte := 0x3a
  const OPEN: byte := 0x5b
  const CLOSE: byte := 0x5d
  const MAX_HOST: nat := 253

  datatype Endpoint = Endpoint(host: seq<byte>, port: u16)

  /** std::isspace and std::iscntrl in the "C" locale. */
  predicate IsSpace(c: byte) {
    c == 0x20 || 0x09 <= c <= 0x0d
  }

  predicate IsControl(c: byte) {
    c < 0x20 || c == 0x7f
  }

  predicate IsDigit(c: byte) {
    0x30 <= c <= 0x39
  }

  /** 1 to 253 bytes, none of them white space or a control character. */
  predicate ValidHost(host: seq<byte>) {
    && 1 <= |host| <= 253
    && forall i | 0 <= i < |host| :: host[i] > 0x20 && host[i] != 0x7f
  }

  /** Space, tab, line feed, vertical tab, form feed, carriage return. */
  predicate Blank(c: byte) {
    c == 0x20 || c == 0x09 || c == 0x0a || c == 0x0b || c == 0x0c || c == 0x0d
  }

  /** What is left when white space is taken off both ends. */
  function Trimmed(s: seq<byte>): (r: seq<byte>)
    ensures r != [] ==> !Blank(r[0]) && !Blank(r[|r| - 1])
    decreases |s|
  {
    if s == [] then []
    else if Blank(s[0]) then Trimmed(s[1..])
    else if Blank(s[|s| - 1]) then Trimmed(s[..|s| - 1])
    else s
  }

  /** White space put around a text is taken off again. */
  lemma {:induction false} PaddingIsTrimmed(before: seq<byte>, s: seq<byte>, after: seq<byte>)
    requires forall i | 0 <= i < |before| :: Blank(before[i])
    requires forall i | 0 <= i < |after| :: Blank(after[i])
    requires s != [] && !Blank(s[0]) && !Blank(s[|s| - 1])
    ensures Trimmed(before + s + after) == s
    decreases |before| + |after|
  {
    hide Blank;
    var all := before + s + after;
    if before != [] {
      PaddingIsTrimmed(before[1..], s, after);
      assert all[0] == before[0] && all[1..] == before[1..] + s + after;
    } else if after != [] {
      PaddingIsTrimmed([], s, after[..|after| - 1]);
      assert all[0] == s[0] && all[|all| - 1] == after[|after| - 1];
      assert all[..|all| - 1] == [] + s + after[..|after| - 1];
    } else {
      assert all == s;
    }
  }

  function Count(s: seq<byte>, c: byte): (n: nat)
    ensures n == 0 <==> c !in s
  {
    if s == [] then 0 else (if s[0] == c then 1 else 0) + Count(s[1..], c)
  }

  lemma {:induction false} CountOfConcat(s: seq<byte>, t: seq<byte>, c: byte)
    ensures Count(s + t, c) == Count(s, c) + Count(t, c)
  {
    if s == [] {
      assert s + t == t;
    } else {
      CountOfConcat(s[1..], t, c);
      assert (s + t)[1..] == s[1..] + t;
    }
  }

  // ---- ports ----

  function DigitsValue(s: seq<byte>): (n: nat)
    requires forall i | 0 <= i < |s| :: IsDigit(s[i])
  {
    if s == [] then 0
    else
      var last := s[|s| - 1];
      assert IsDigit(last);
      DigitsValue(s[..|s| - 1]) * 10 + last - 0x30
  }

  /** std::from_chars must use up the whole text: one to five digits and nothing else. */
  function ParsePort(text: seq<byte>): (r: Option<u16>)
    ensures r.Some? ==> r.value != 0 && COLON !in text
  {
    if text == [] || |text| > 5 then None
    else if exists i | 0 <= i < |text| :: !IsDigit(text[i]) then None
    else if DigitsValue(text) == 0 || DigitsValue(text) > 65535 then None
    else Some(DigitsValue(text))
  }

  function Decimal(n: nat): (s: seq<byte>)
    ensures |s| > 0 && forall i | 0 <= i < |s| :: IsDigit(s[i])
  {
    if n < 10 then [0x30 + n] else Decimal(n / 10) + [0x30 + n % 10]
  }

  lemma {:induction false} DecimalReadsBack(n: nat, width: nat)
    requires width > 0 && n < Ten(width)
    ensures DigitsValue(Decimal(n)) == n && |Decimal(n)| <= width
  {
    if n >= 10 {
      assert n / 10 < Ten(width - 1);
      DecimalReadsBack(n / 10, width - 1);
      assert Decimal(n)[..|Decimal(n)| - 1] == Decimal(n / 10);
    } else {
      assert Decimal(n)[..0] == [];
    }
  }

  function Ten(k: nat): (p: nat)
    ensures p > 0
  {
    if k == 0 then 1 else 10 * Ten(k - 1)
  }

  /** Zeros, then the given digits. */
  predicate Padded(text: seq<byte>, zeros: nat, digits: seq<byte>) {
    zeros <= |text| && (forall i | 0 <= i < zeros :: text[i] == 0x30) && text[zeros..] == digits
  }

  /** A port as it may be written: not zero, at most five bytes, its decimal with any zeros in front. */
  predicate SpellsPort(text: seq<byte>, port: u16) {
    port != 0 && |text| <= 5 && exists zeros | 0 <= zeros <= 5 :: Padded(text, zeros, Decimal(port))
  }

  lemma {:induction false} ZerosDontCount(text: seq<byte>, zeros: nat, digits: seq<byte>)
    requires Padded(text, zeros, digits)
    requires forall i | 0 <= i < |digits| :: IsDigit(digits[i])
    ensures forall i | 0 <= i < |text| :: IsDigit(text[i])
    ensures DigitsValue(text) == DigitsValue(digits)
    decreases |text|
  {
    forall i | 0 <= i < |text| ensures IsDigit(text[i]) {
      assert i >= zeros ==> text[i] == digits[i - zeros];
    }
    if text != [] {
      var n := |text| - 1;
      if digits == [] {
        ZerosDontCount(text[..n], n, []);
      } else {
        assert text[..n][zeros..] == digits[..|digits| - 1];
        ZerosDontCount(text[..n], zeros, digits[..|digits| - 1]);
      }
    }
  }

  lemma {:induction false} OnlyZerosAreWorthNothing(s: seq<byte>)
    requires (forall i | 0 <= i < |s| :: IsDigit(s[i])) && DigitsValue(s) == 0
    ensures forall i | 0 <= i < |s| :: s[i] == 0x30
  {
    if s != [] {
      OnlyZerosAreWorthNothing(s[..|s| - 1]);
    }
  }

  /** Any digits that are worth something end in the decimal of what they are worth. */
  lemma {:induction false} DigitsAreAPaddedDecimal(s: seq<byte>) returns (zeros: nat)
    requires (forall i | 0 <= i < |s| :: IsDigit(s[i])) && DigitsValue(s) != 0
    ensures Padded(s, zeros, Decimal(DigitsValue(s)))
  {
    var n := |s| - 1;
    var front := DigitsValue(s[..n]);
    if front == 0 {
      OnlyZerosAreWorthNothing(s[..n]);
      zeros := n;
    } else {
      zeros := DigitsAreAPaddedDecimal(s[..n]);
      assert s[zeros..] == s[..n][zeros..] + [s[n]];
      assert DigitsValue(s) / 10 == front;
    }
  }

  /** Exactly the written ports are accepted, each with its own value. */
  lemma ParsePortIff(text: seq<byte>, port: u16)
    ensures ParsePort(text) == Some(port) <==> SpellsPort(text, port)
  {
    if ParsePort(text) == Some(port) {
      var zeros := DigitsAreAPaddedDecimal(text);
    }
    if SpellsPort(text, port) {
      var zeros :| 0 <= zeros <= 5 && Padded(text, zeros, Decimal(port));
      ZerosDontCount(text, zeros, Decimal(port));
      PortReadsBack(port);
    }
  }

  lemma PortReadsBack(port: u16)
    ensures DigitsValue(Decimal(port)) == port && |Decimal(port)| <= 5
    ensures port != 0 ==> ParsePort(Decimal(port)) == Some(port)
  {
    assert Ten(2) == 100;
    assert Ten(3) == 1000;
    assert Ten(4) == 10000;
    assert Ten(5) == 100000;
    DecimalReadsBack(port, 5);
  }

  // ---- the grammar ----

  /** `text` is `front` followed by a port. */
  predicate FrontThenPort(text: seq<byte>, front: seq<byte>, port: u16) {
    |text| >= |front| && text[..|front|] == front && SpellsPort(text[|front|..], port)
  }

  predicate Bracketed(text: seq<byte>, e: Endpoint, defaultPort: u16) {
    && CLOSE !in e.host
    && (FrontThenPort(text, [OPEN] + e.host + [CLOSE, COLON], e.port)
        || (text == [OPEN] + e.host + [CLOSE] && e.port == defaultPort))
  }

  predicate Plain(text: seq<byte>, e: Endpoint) {
    && text != [] && text[0] != OPEN
    && COLON !in e.host
    && FrontThenPort(text, e.host + [COLON], e.port)
  }

  predicate Bare(text: seq<byte>, e: Endpoint, defaultPort: u16) {
    && text == e.host && text != [] && text[0] != OPEN
    && Count(text, COLON) != 1
    && e.port == defaultPort
  }

  /** The trimmed text names this endpoint: one of the four written forms, with a valid host and port. */
  predicate Spells(text: seq<byte>, e: Endpoint, defaultPort: u16) {
    && ValidHost(e.host) && e.port != 0
    && (Bracketed(text, e, defaultPort) || Plain(text, e) || Bare(text, e, defaultPort))
  }

  // ---- the parser ----

  method Trim(value: seq<byte>) returns (r: seq<byte>)
    ensures r == Trimmed(value)
  {
    var start, end := 0, |value|;
    assert value[start..end] == value;
    while start < end && IsSpace(value[start])
      invariant 0 <= start <= end == |value|
      invariant Trimmed(value[start..end]) == Trimmed(value)
    {
      assert value[start..end][1..] == value[start + 1..end];
      start := start + 1;
    }
    while end > start && IsSpace(value[end - 1])
      invariant start <= end <= |value|
      invariant start < end ==> !IsSpace(value[start])
      invariant Trimmed(value[start..end]) == Trimmed(value)
    {
      assert value[start..end][..end - start - 1] == value[start..end - 1];
      end := end - 1;
    }
    return value[start..end];
  }

  method CheckHost(host: seq<byte>) returns (ok: bool)
    ensures ok <==> ValidHost(host)
  {
    if |host| == 0 || |host| > MAX_HOST {
      return false;
    }
    for i := 0 to |host|
      invariant forall j | 0 <= j < i :: !IsControl(host[j]) && !IsSpace(host[j])
    {
      if IsControl(host[i]) || IsSpace(host[i]) {
        return false;
      }
    }
    return true;
  }

  /** find and rfind: the first and the last place of a byte. */
  function Find(s: seq<byte>, c: byte): (r: Option<nat>)
    ensures r.None? <==> c !in s
    ensures r.Some? ==> r.value < |s| && s[r.value] == c && c !in s[..r.value]
  {
    if s == [] then None
    else if s[0] == c then Some(0)
    else
      match Find(s[1..], c)
      case None => None
      case Some(i) =>
        assert s[..i + 1] == [s[0]] + s[1..][..i];
        Some(i + 1)
  }

  lemma {:induction false} FirstAt(s: seq<byte>, c: byte, n: nat)
    requires n < |s| && s[n] == c && c !in s[..n]
    ensures Find(s, c) == Some(n)
  {
    if n > 0 {
      assert s[..n][0] == s[0];
      assert s[..n] == [s[0]] + s[1..][..n - 1];
      FirstAt(s[1..], c, n - 1);
    }
  }

  function FindLast(s: seq<byte>, c: byte): (r: Option<nat>)
    ensures r.None? <==> c !in s
    ensures r.Some? ==> r.value < |s| && s[r.value] == c && c !in s[r.value + 1..]
  {
    if s == [] then None
    else if s[|s| - 1] == c then Some(|s| - 1)
    else
      assert s == s[..|s| - 1] + [s[|s| - 1]];
      match FindLast(s[..|s| - 1], c)
      case None => None
      case Some(i) =>
        assert s[i + 1..] == s[..|s| - 1][i + 1..] + [s[|s| - 1]];
        Some(i)
  }

  /** First and last place are the same one exactly if the byte occurs once. */
  lemma OneColonIff(s: seq<byte>)
    ensures (Find(s, COLON).Some? && Find(s, COLON) == FindLast(s, COLON)) <==> Count(s, COLON) == 1
  {
    if Find(s, COLON).Some? {
      var i, j := Find(s, COLON).value, FindLast(s, COLON).value;
      assert s == s[..i] + [COLON] + s[i + 1..];
      CountOfConcat(s[..i] + [COLON], s[i + 1..], COLON);
      CountOfConcat(s[..i], [COLON], COLON);
      assert Count([COLON], COLON) == 1 + Count([COLON][1..], COLON);
      if i < j {
        assert s[i + 1..][j - i - 1] == COLON;
      }
    }
  }

  // What the grammar comes to in each branch of the parser.

  /** After the closing bracket: nothing and the default port, or a colon and a port. */
  predicate AfterBracket(tail: seq<byte>, port: u16, defaultPort: u16) {
    if tail == [] then port == defaultPort
    else tail[0] == COLON && ParsePort(tail[1..]) == Some(port)
  }

  lemma SpellsInBrackets(text: seq<byte>, e: Endpoint, defaultPort: u16)
    requires text != [] && text[0] == OPEN
    ensures Spells(text, e, defaultPort) <==>
      && ValidHost(e.host) && e.port != 0
      && Find(text, CLOSE).Some?
      && var closing := Find(text, CLOSE).value;
      e.host == text[1..closing] && AfterBracket(text[closing + 1..], e.port, defaultPort)
  {
    hide SpellsPort, ParsePort;
    if Spells(text, e, defaultPort) {
      BracketIsFound(text, e, defaultPort);
    }
    if Find(text, CLOSE).Some? {
      var closing := Find(text, CLOSE).value;
      var host, tail := text[1..closing], text[closing + 1..];
      assert text[..closing] == [OPEN] + host;
      assert text == [OPEN] + host + [CLOSE] + tail;
      if tail != [] && tail[0] == COLON {
        assert text[..|host| + 3] == [OPEN] + host + [CLOSE, COLON];
        assert text[|host| + 3..] == tail[1..];
        ParsePortIff(tail[1..], e.port);
      }
    }
  }

  lemma BracketIsFound(text: seq<byte>, e: Endpoint, defaultPort: u16)
    requires Bracketed(text, e, defaultPort)
    ensures Find(text, CLOSE) == Some(|e.host| + 1) && e.host == text[1..|e.host| + 1]
    ensures AfterBracket(text[|e.host| + 2..], e.port, defaultPort)
  {
    var n := |e.host| + 1;
    assert text[..n + 1] == [OPEN] + e.host + [CLOSE] by {
      if text != [OPEN] + e.host + [CLOSE] {
        assert text[..n + 1] == text[..n + 2][..n + 1];
      }
    }
    assert text[..n] == text[..n + 1][..n] == [OPEN] + e.host;
    assert text[n] == text[..n + 1][n] == CLOSE;
    FirstAt(text, CLOSE, n);
    if text != [OPEN] + e.host + [CLOSE] {
      assert text[n + 1..][0] == text[..n + 2][n + 1] == COLON;
      assert text[n + 1..][1..] == text[n + 2..];
      ParsePortIff(text[n + 2..], e.port);
    }
  }

  lemma SpellsWithOneColon(text: seq<byte>, e: Endpoint, defaultPort: u16)
    requires text != [] && text[0] != OPEN && Count(text, COLON) == 1
    ensures Find(text, COLON).Some?
    ensures var i := Find(text, COLON).value;
      Spells(text, e, defaultPort) <==>
      ValidHost(e.host) && e.port != 0 && e.host == text[..i] && ParsePort(text[i + 1..]) == Some(e.port)
  {
    hide SpellsPort, ParsePort;
    var i := Find(text, COLON).value;
    assert text[..i + 1] == text[..i] + [COLON];
    ParsePortIff(text[i + 1..], e.port);
    if Plain(text, e) {
      var n := |e.host|;
      assert text[..n] == text[..n + 1][..n] == e.host;
      assert text[n] == text[..n + 1][n] == COLON;
      FirstAt(text, COLON, n);
    }
  }

  lemma SpellsOtherwise(text: seq<byte>, e: Endpoint, defaultPort: u16)
    requires text != [] && text[0] != OPEN && Count(text, COLON) != 1
    ensures Spells(text, e, defaultPort) <==>
      ValidHost(e.host) && e.port != 0 && e.host == text && e.port == defaultPort
  {
    if Plain(text, e) {
      var n := |e.host| + 1;
      assert text == (e.host + [COLON]) + text[n..];
      ParsePortIff(text[n..], e.port);
      assert Count([COLON], COLON) == 1 + Count([COLON][1..], COLON);
      CountOfConcat(e.host + [COLON], text[n..], COLON);
      CountOfConcat(e.host, [COLON], COLON);
    }
  }

  /** The text spells exactly this host, with the port it gives or else the default. */
  ghost predicate SpellsJust(text: seq<byte>, host: seq<byte>, port: Option<u16>, defaultPort: u16) {
    forall e: Endpoint :: Spells(text, e, defaultPort) <==>
      ValidHost(e.host) && e.port != 0 && e.host == host && e.port == (if port.Some? then port.value else defaultPort)
  }

  ghost predicate SpellsNothing(text: seq<byte>, defaultPort: u16) {
    forall e: Endpoint :: !Spells(text, e, defaultPort)
  }

  /** A text in brackets: host up to the first closing one, then nothing or a colon and a port. */
  method SplitBracketed(input: seq<byte>, ghost defaultPort: u16) returns (ok: bool, host: seq<byte>, port: Option<u16>)
    requires input != [] && input[0] == OPEN
    ensures ok ==> SpellsJust(input, host, port, defaultPort) && (port.Some? ==> port.value != 0)
    ensures !ok ==> SpellsNothing(input, defaultPort)
  {
    forall e: Endpoint {
      SpellsInBrackets(input, e, defaultPort);
    }
    host, port := [], None;
    var closing := Find(input, CLOSE);
    if closing.None? || closing.value == 1 {
      return false, host, port;
    }
    host := input[1..closing.value];
    if closing.value + 1 < |input| {
      if input[closing.value + 1] != COLON {
        return false, host, port;
      }
      assert input[closing.value + 1..][1..] == input[closing.value + 2..];
      port := ParsePort(input[closing.value + 2..]);
      if port.None? {
        return false, host, port;
      }
    }
    return true, host, port;
  }

  /** Any other text: with exactly one colon, host and port around it; else all of it is the host. */
  method SplitPlain(input: seq<byte>, ghost defaultPort: u16) returns (ok: bool, host: seq<byte>, port: Option<u16>)
    requires input != [] && input[0] != OPEN
    ensures ok ==> SpellsJust(input, host, port, defaultPort) && (port.Some? ==> port.value != 0)
    ensures !ok ==> SpellsNothing(input, defaultPort)
  {
    OneColonIff(input);
    var first, last := Find(input, COLON), FindLast(input, COLON);
    if first.Some? && first == last {
      forall e: Endpoint {
        SpellsWithOneColon(input, e, defaultPort);
      }
      host := input[..first.value];
      port := ParsePort(input[first.value + 1..]);
      return port.Some?, host, port;
    }
    forall e: Endpoint {
      SpellsOtherwise(input, e, defaultPort);
    }
    return true, input, None;
  }

  /** Returns the endpoint the text spells, and none exactly if it spells none. */
  method ParseEndpoint(text: seq<byte>, defaultPort: u16) returns (r: Option<Endpoint>)
    ensures forall e: Endpoint :: r == Some(e) <==> Spells(Trimmed(text), e, defaultPort)
  {
    var input := Trim(text);
    if input == [] {
      return None;
    }
    var ok, host, port;
    if input[0] == OPEN {
      ok, host, port := SplitBracketed(input, defaultPort);
    } else {
      ok, host, port := SplitPlain(input, defaultPort);
    }
    if !ok {
      return None;
    }
    ok := CheckHost(host);
    if !ok {
      return None;
    }
    if port.None? {
      if defaultPort == 0 {
        return None;
      }
      port := Some(defaultPort);
    }
    return Some(Endpoint(host, port.value));
  }

  /** No text spells two endpoints. */
  lemma SpellingIsUnambiguous(text: seq<byte>, e: Endpoint, f: Endpoint, defaultPort: u16)
    requires Spells(text, e, defaultPort) && Spells(text, f, defaultPort)
    ensures e == f
  {
    if text[0] == OPEN {
      SpellsInBrackets(text, e, defaultPort);
      SpellsInBrackets(text, f, defaultPort);
    } else if Count(text, COLON) == 1 {
      SpellsWithOneColon(text, e, defaultPort);
      SpellsWithOneColon(text, f, defaultPort);
    } else {
      SpellsOtherwise(text, e, defaultPort);
      SpellsOtherwise(text, f, defaultPort);
    }
  }

  // ---- the canonical text ----

  predicate NeedsNoBrackets(host: seq<byte>) {
    COLON !in host && (host == [] || host[0] != OPEN)
  }

  /** host:port, else [host]:port, else the host alone. */
  function Canonical(e: Endpoint): seq<byte> {
    if NeedsNoBrackets(e.host) then e.host + [COLON] + Decimal(e.port)
    else if CLOSE !in e.host then [OPEN] + e.host + [CLOSE, COLON] + Decimal(e.port)
    else e.host
  }

  /** A host with a closing bracket only comes from the bare form, which leaves the port to the default. */
  predicate PortIsWritten(host: seq<byte>) {
    NeedsNoBrackets(host) || CLOSE !in host
  }

  /** The endpoints some text spells. */
  predicate Expressible(e: Endpoint) {
    && ValidHost(e.host) && e.port != 0
    && (PortIsWritten(e.host) || (e.host[0] != OPEN && Count(e.host, COLON) >= 2))
  }

  lemma SpelledIsExpressible(text: seq<byte>, e: Endpoint, defaultPort: u16)
    requires Spells(text, e, defaultPort)
    ensures Expressible(e)
  {
    if Plain(text, e) {
      assert text[..|e.host| + 1][0] == e.host[0];
    }
  }

  lemma CanonicalSpells(e: Endpoint, defaultPort: u16)
    requires Expressible(e)
    requires PortIsWritten(e.host) || defaultPort == e.port
    ensures Spells(Canonical(e), e, defaultPort)
    ensures Trimmed(Canonical(e)) == Canonical(e)
  {
    hide SpellsPort, ParsePort;
    var text, digits := Canonical(e), Decimal(e.port);
    PortReadsBack(e.port);
    ParsePortIff(digits, e.port);
    if NeedsNoBrackets(e.host) {
      assert text[..|e.host| + 1] == e.host + [COLON];
      assert text[|e.host| + 1..] == digits;
      assert text[|text| - 1] == digits[|digits| - 1];
    } else if CLOSE !in e.host {
      assert text[..|e.host| + 3] == [OPEN] + e.host + [CLOSE, COLON];
      assert text[|e.host| + 3..] == digits;
      assert text[|text| - 1] == digits[|digits| - 1];
    }
  }

  /**
   * Every endpoint the parser can return has a valid host and port and comes back from its own
   * canonical text, padded or not; and every such endpoint is returned for some text.
   */
  lemma CanonicalReparses(text: seq<byte>, e: Endpoint, defaultPort: u16, other: u16, before: seq<byte>, after: seq<byte>)
    requires Spells(Trimmed(text), e, defaultPort)
    requires PortIsWritten(e.host) || other == e.port
    requires forall i | 0 <= i < |before| :: Blank(before[i])
    requires forall i | 0 <= i < |after| :: Blank(after[i])
    ensures ValidHost(e.host) && 1 <= e.port <= 65535
    ensures Spells(Trimmed(before + Canonical(e) + after), e, other)
  {
    SpelledIsExpressible(Trimmed(text), e, defaultPort);
    CanonicalSpells(e, other);
    PaddingIsTrimmed(before, Canonical(e), after);
  }

  /** Which endpoints come out of the parser at all. */
  lemma ExpressibleIff(e: Endpoint)
    ensures Expressible(e) <==> exists text: seq<byte>, defaultPort: u16 :: Spells(Trimmed(text), e, defaultPort)
  {
    if Expressible(e) {
      CanonicalSpells(e, e.port);
      assert Spells(Trimmed(Canonical(e)), e, e.port);
    }
    forall text: seq<byte>, defaultPort: u16 | Spells(Trimmed(text), e, defaultPort)
      ensures Expressible(e)
    {
      SpelledIsExpressible(Trimmed(text), e, defaultPort);
    }
  }
}
