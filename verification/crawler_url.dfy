/** Printing and parsing URLs (https_crawler.c:51-103 and 170-179).  A C string is the sequence of
    its bytes, without the NUL. */
module CrawlerUrl {
  import opened Bytes
  import opened Options

  type Text = seq<Byte>

  const HOST_SIZE: nat := 128
  const PATH_SIZE: nat := 420
  const MAX_URL: nat := 600
  const SLASH: Byte := 47
  const COLON: Byte := 58
  const ZERO: Byte := 48

  /** struct url */
  datatype Url = Url(host: Text, port: int, https: bool, path: Text)

  const HTTP: Text := [104, 116, 116, 112, 58, 47, 47]
  const HTTPS: Text := [104, 116, 116, 112, 115, 58, 47, 47]

  function DefaultPort(https: bool): int {
    if https then 443 else 80
  }

  /* ---- format_url() ---- */

  /** %d of a number that is not negative */
  function Decimal(n: nat): (r: Text)
    ensures |r| > 0 && forall i :: 0 <= i < |r| ==> ZERO <= r[i] < ZERO + 10
  {
    if n < 10 then [ZERO + n] else Decimal(n / 10) + [ZERO + n % 10]
  }

  function Truncated(s: Text, size: nat): Text {
    if |s| < size || size == 0 then s else s[..size - 1]
  }

  /** The port as printed, if it is printed. */
  function PortText(u: Url): Text
    requires u.port >= 0
  {
    if u.port == DefaultPort(u.https) then [] else [COLON] + Decimal(u.port)
  }

  /** What would be printed into a buffer without end. */
  function Printed(u: Url): Text
    requires u.port >= 0
  {
    (if u.https then HTTPS else HTTP) + (u.host + (PortText(u) + u.path))
  }

  /* ---- parse_url() ---- */

  function Lower(c: Byte): Byte {
    if 65 <= c <= 90 then c + 32 else c
  }

  /** strncasecmp(s, word, strlen(word)) == 0, for a word in lower case */
  predicate StartsWith(s: Text, word: Text) {
    |word| <= |s| && forall i :: 0 <= i < |word| ==> Lower(s[i]) == word[i]
  }

  predicate IsDigit(c: Byte) {
    ZERO <= c < ZERO + 10
  }

  /** How many bytes the host loop takes, at most max. */
  function HostLen(s: Text, max: nat): (n: nat)
    ensures n <= |s| && n <= max && SLASH !in s[..n] && COLON !in s[..n]
    decreases max
  {
    if max == 0 || s == [] || s[0] == SLASH || s[0] == COLON then 0 else 1 + HostLen(s[1..], max - 1)
  }

  function DigitsLen(s: Text): (n: nat)
    ensures n <= |s| && forall i :: 0 <= i < n ==> IsDigit(s[i])
  {
    if s == [] || !IsDigit(s[0]) then 0 else 1 + DigitsLen(s[1..])
  }

  /** The number the digit loop computes. */
  function Value(ds: Text): nat
    requires forall i :: 0 <= i < |ds| ==> IsDigit(ds[i])
  {
    if ds == [] then 0
    else
      assert IsDigit(ds[|ds| - 1]);
      Value(ds[..|ds| - 1]) * 10 + (ds[|ds| - 1] - ZERO)
  }

  const I32: int := 0x8000_0000
  const U32: int := 0x1_0000_0000

  /** What a 32-bit int holds after wrapping around. */
  function Int32(x: int): (r: int)
    ensures -I32 <= r < I32
  {
    (x + I32) % U32 - I32
  }

  /** The same number in a 32-bit int. */
  function Value32(ds: Text): int
    requires forall i :: 0 <= i < |ds| ==> IsDigit(ds[i])
  {
    if ds == [] then 0
    else
      assert IsDigit(ds[|ds| - 1]);
      Int32(Value32(ds[..|ds| - 1]) * 10 + (ds[|ds| - 1] - ZERO))
  }

  lemma Int32Step(x: int, d: int)
    ensures Int32(Int32(x) * 10 + d) == Int32(x * 10 + d)
  {
    var q := (x + I32) / U32;
    assert Int32(x) == x - q * U32;
    ModShift(x * 10 + d + I32, -10 * q);
  }

  lemma ModShift(x: int, k: int)
    ensures (x + k * U32) % U32 == x % U32
  {
    var q := x / U32;
    assert x + k * U32 == (q + k) * U32 + x % U32;
    ModUnique(x + k * U32, q + k, x % U32);
  }

  lemma ModUnique(x: int, q: int, r: int)
    requires x == q * U32 + r && 0 <= r < U32
    ensures x % U32 == r
  {
  }

  /** The loop's number is the one written, reduced to 32 bits; so it is exact exactly below 2^31. */
  lemma {:induction false} Value32Is(ds: Text)
    requires forall i :: 0 <= i < |ds| ==> IsDigit(ds[i])
    ensures Value32(ds) == Int32(Value(ds))
    ensures Value32(ds) == Value(ds) <==> Value(ds) < I32
  {
    if ds != [] {
      assert IsDigit(ds[|ds| - 1]);
      Value32Is(ds[..|ds| - 1]);
      Int32Step(Value(ds[..|ds| - 1]), ds[|ds| - 1] - ZERO);
    }
  }

  /** What follows the host: a port, if there is one. */
  function PortLen(t: Text): (n: nat)
    ensures n <= |t|
  {
    if t != [] && t[0] == COLON then 1 + DigitsLen(t[1..]) else 0
  }

  function PortOf(t: Text, https: bool): int {
    var number := if PortLen(t) > 0 then Value32(t[1..PortLen(t)]) else 0;
    if 0 < number < 65536 then number else DefaultPort(https)
  }

  /** The number written after the host, 0 if there is none. */
  function Written(t: Text): nat {
    if PortLen(t) > 0 then Value(t[1..PortLen(t)]) else 0
  }

  /** The port is the number written if that is a port, and the default otherwise, exactly unless a number of
      2^32 or more wraps around to a port other than the default. */
  lemma PortExact(t: Text, https: bool)
    ensures var standard := if https then 443 else 80;
            PortOf(t, https) == (if 0 < Written(t) < 65536 then Written(t) else standard)
            <==> !(Written(t) >= U32 && 0 < Written(t) % U32 < 65536 && Written(t) % U32 != standard)
  {
    if PortLen(t) > 0 {
      Value32Is(t[1..PortLen(t)]);
    }
    var v := Written(t);
    assert 0 <= v % U32 < U32;
    assert Int32(v) == if v % U32 < I32 then v % U32 else v % U32 - U32 by {
      Int32Low(v);
    }
  }

  lemma Int32Low(v: nat)
    ensures Int32(v) == if v % U32 < I32 then v % U32 else v % U32 - U32
  {
    var q, r := v / U32, v % U32;
    if r < I32 {
      ModUnique(v + I32, q, r + I32);
    } else {
      ModUnique(v + I32, q + 1, r - I32);
    }
  }

  /** A port written as 2^32 more is taken for the port. */
  lemma WrappedPort(port: nat, https: bool)
    requires 0 < port < 65536
    ensures PortOf([COLON] + Decimal(U32 + port) + [SLASH], https) == port
  {
    var ds := Decimal(U32 + port);
    var t := [COLON] + ds + [SLASH];
    assert t[1..] == ds + [SLASH];
    DigitsLenIs(ds, [SLASH]);
    assert t[1..PortLen(t)] == ds;
    ValueDecimal(U32 + port);
    Value32Is(ds);
    ModUnique(U32 + port + I32, 1, port + I32);
  }

  /** The part after the scheme. */
  function ParseRest(https: bool, s: Text): Option<Url> {
    var hn := HostLen(s, HOST_SIZE - 1);
    if hn == 0 then None
    else
      var t := s[hn..];
      var path := t[PortLen(t)..];
      Some(Url(s[..hn], PortOf(t, https), https, if path == [] then [SLASH] else Truncated(path, PATH_SIZE)))
  }

  function Parse(s: Text): Option<Url> {
    if StartsWith(s, HTTPS) then ParseRest(true, s[8..])
    else if StartsWith(s, HTTP) then ParseRest(false, s[7..])
    else None
  }

  /** The same letter, whatever its case, or the same byte. */
  predicate SameLetter(a: nat, b: nat) {
    a == b || (a + 32 == b && 65 <= a <= 90) || (b + 32 == a && 65 <= b <= 90)
  }

  /** `scheme` with its letters in any case, and then rest: 104 116 116 112 58 47 47 spells http://, with 115 before
      the colon https://. */
  ghost predicate Spells(s: Text, scheme: Text, rest: Text) {
    |s| == |scheme| + |rest| && s[|scheme|..] == rest && forall i :: 0 <= i < |scheme| ==> SameLetter(s[i], scheme[i])
  }

  lemma Cases(s: Text, scheme: Text, rest: Text)
    requires Spells(s, scheme, rest)
    requires forall i :: 0 <= i < |scheme| ==> 97 <= scheme[i] <= 122 || scheme[i] < 65
    ensures StartsWith(s, scheme) && s[|scheme|..] == rest
  {
    forall i | 0 <= i < |scheme| ensures Lower(s[i]) == scheme[i] {
      assert SameLetter(s[i], scheme[i]);
    }
  }

  lemma PlainHttp(s: Text)
    requires StartsWith(s, HTTP)
    ensures !StartsWith(s, HTTPS)
  {
    assert Lower(s[4]) == 58 && HTTPS[4] == 115;
  }

  /** A scheme is recognised in any case, and nothing else is. */
  lemma SchemeAnyCase(s: Text, rest: Text)
    ensures Spells(s, [104, 116, 116, 112, 115, 58, 47, 47], rest) ==> Parse(s) == ParseRest(true, rest)
    ensures Spells(s, [104, 116, 116, 112, 58, 47, 47], rest) ==> Parse(s) == ParseRest(false, rest)
    ensures Parse(s).Some? ==> exists r :: Spells(s, [104, 116, 116, 112, 115, 58, 47, 47], r)
                                           || Spells(s, [104, 116, 116, 112, 58, 47, 47], r)
  {
    if Spells(s, [104, 116, 116, 112, 115, 58, 47, 47], rest) {
      Cases(s, HTTPS, rest);
    }
    if Spells(s, [104, 116, 116, 112, 58, 47, 47], rest) {
      Cases(s, HTTP, rest);
      PlainHttp(s);
    }
    if Parse(s).Some? {
      var https := StartsWith(s, HTTPS);
      CasesBack(s, if https then HTTPS else HTTP);
    }
  }

  lemma CasesBack(s: Text, scheme: Text)
    requires StartsWith(s, scheme)
    ensures Spells(s, scheme, s[|scheme|..])
  {
    forall i | 0 <= i < |scheme| ensures SameLetter(s[i], scheme[i]) {
      assert Lower(s[i]) == scheme[i];
    }
  }

  /** What fits in struct url, and what its fields never hold. */
  ghost predicate FieldsOK(u: Url) {
    && 0 < |u.host| < HOST_SIZE && SLASH !in u.host && COLON !in u.host
    && 0 < u.port < 65536 && 0 < |u.path| < PATH_SIZE
  }

  /** A URL as the crawler builds them. */
  ghost predicate UrlOK(u: Url) {
    FieldsOK(u) && u.path[0] == SLASH
  }

  /** A URL parse_url() can give: a path starts with a digit only behind a host that fills its buffer. */
  ghost predicate Accepted(u: Url) {
    && FieldsOK(u)
    && (IsDigit(u.path[0]) ==> u.port == DefaultPort(u.https) && |u.host| == HOST_SIZE - 1)
  }

  /** Nothing can be mistaken where host and path meet: a slash or a printed port is between them, or the
      host fills its buffer and the path does not look like a port. */
  predicate Separated(u: Url)
    requires u.path != []
  {
    || u.path[0] == SLASH
    || u.port != DefaultPort(u.https)
    || (|u.host| == HOST_SIZE - 1 && u.path[0] != COLON)
  }

  lemma {:induction false} HostLenIs(host: Text, rest: Text, max: nat)
    requires SLASH !in host && COLON !in host && |host| <= max
    requires |host| == max || (rest != [] && (rest[0] == SLASH || rest[0] == COLON))
    ensures HostLen(host + rest, max) == |host|
    decreases |host|
  {
    if host == [] {
      assert host + rest == rest;
    } else {
      assert (host + rest)[0] == host[0] && host[0] in host;
      assert (host + rest)[1..] == host[1..] + rest;
      HostLenIs(host[1..], rest, max - 1);
    }
  }

  /** Anything else is taken into the host while there is room. */
  lemma {:induction false} HostLonger(host: Text, rest: Text, max: nat)
    requires SLASH !in host && COLON !in host && |host| < max
    requires rest != [] && rest[0] != SLASH && rest[0] != COLON
    ensures HostLen(host + rest, max) > |host|
    decreases |host|
  {
    if host == [] {
      assert host + rest == rest;
    } else {
      assert (host + rest)[0] == host[0] && host[0] in host;
      assert (host + rest)[1..] == host[1..] + rest;
      HostLonger(host[1..], rest, max - 1);
    }
  }

  lemma {:induction false} HostStops(s: Text, max: nat)
    ensures var n := HostLen(s, max); n < max && n < |s| ==> s[n] == SLASH || s[n] == COLON
    decreases max
  {
    if max > 0 && s != [] && s[0] != SLASH && s[0] != COLON {
      HostStops(s[1..], max - 1);
    }
  }

  lemma {:induction false} DigitsStop(s: Text)
    ensures DigitsLen(s) < |s| ==> !IsDigit(s[DigitsLen(s)])
  {
    if s != [] && IsDigit(s[0]) {
      DigitsStop(s[1..]);
    }
  }

  lemma {:induction false} DigitsLenIs(ds: Text, rest: Text)
    requires forall i :: 0 <= i < |ds| ==> IsDigit(ds[i])
    requires rest != [] && !IsDigit(rest[0])
    ensures DigitsLen(ds + rest) == |ds|
    decreases |ds|
  {
    if ds == [] {
      assert ds + rest == rest;
    } else {
      assert (ds + rest)[0] == ds[0] && (ds + rest)[1..] == ds[1..] + rest;
      DigitsLenIs(ds[1..], rest);
    }
  }

  lemma {:induction false} ValueDecimal(n: nat)
    ensures Value(Decimal(n)) == n
  {
    if n >= 10 {
      ValueDecimal(n / 10);
      var front := Decimal(n / 10);
      assert Decimal(n) == front + [ZERO + n % 10] && Decimal(n)[..|Decimal(n)| - 1] == front;
    } else {
      assert Decimal(n)[..0] == [];
    }
  }

  function Pow10(k: nat): nat {
    if k == 0 then 1 else 10 * Pow10(k - 1)
  }

  lemma {:induction false} DecimalShort(n: nat, k: nat)
    requires n < Pow10(k) && k > 0
    ensures |Decimal(n)| <= k
    decreases k
  {
    if n >= 10 {
      DecimalShort(n / 10, k - 1);
    }
  }

  /** Printing never needs truncation: 8 + 127 + 6 + 419 bytes and a NUL. */
  lemma PrintedFits(u: Url)
    requires FieldsOK(u)
    ensures |Printed(u)| + 1 <= 561 && Truncated(Printed(u), MAX_URL) == Printed(u)
  {
    assert Pow10(1) == 10 && Pow10(2) == 100 && Pow10(3) == 1000 && Pow10(4) == 10000 && Pow10(5) == 100000;
    DecimalShort(u.port, 5);
  }

  lemma DefaultRoundTrip(u: Url)
    requires FieldsOK(u) && u.port == DefaultPort(u.https)
    ensures ParseRest(u.https, u.host + u.path) == Some(u) <==> Separated(u)
  {
    var s := u.host + u.path;
    assert s[|u.host|..] == u.path && s[..|u.host|] == u.host;
    if u.path[0] == COLON {
      HostLenIs(u.host, u.path, HOST_SIZE - 1);
      PathShrinks(u.path);
    } else if u.path[0] == SLASH || |u.host| == HOST_SIZE - 1 {
      HostLenIs(u.host, u.path, HOST_SIZE - 1);
    } else {
      HostLonger(u.host, u.path, HOST_SIZE - 1);
      assert |s[..HostLen(s, HOST_SIZE - 1)]| > |u.host|;
    }
  }

  /** A path that starts with a colon is not what is left behind the port. */
  lemma PathShrinks(path: Text)
    requires path != [] && path[0] == COLON && |path| < PATH_SIZE
    ensures var rest := path[PortLen(path)..];
            (if rest == [] then [SLASH] else Truncated(rest, PATH_SIZE)) != path
  {
  }

  lemma ExplicitRoundTrip(u: Url, digits: Text)
    requires FieldsOK(u) && !IsDigit(u.path[0]) && digits == Decimal(u.port)
    ensures ParseRest(u.https, u.host + ([COLON] + digits + u.path)) == Some(u)
  {
    var t := [COLON] + digits + u.path;
    var s := u.host + t;
    HostLenIs(u.host, t, HOST_SIZE - 1);
    assert s[|u.host|..] == t && s[..|u.host|] == u.host;
    assert t[1..] == digits + u.path;
    DigitsLenIs(digits, u.path);
    assert t[1..1 + |digits|] == digits && t[1 + |digits|..] == u.path;
    ValueDecimal(u.port);
    Value32Is(digits);
  }

  lemma RestRoundTrip(u: Url)
    requires Accepted(u)
    ensures ParseRest(u.https, u.host + (PortText(u) + u.path)) == Some(u) <==> Separated(u)
  {
    if u.port == DefaultPort(u.https) {
      DefaultRoundTrip(u);
      assert PortText(u) + u.path == u.path;
    } else {
      ExplicitRoundTrip(u, Decimal(u.port));
    }
  }

  lemma SchemeRead(https: bool, rest: Text)
    ensures var s := (if https then HTTPS else HTTP) + rest;
            && (https ==> StartsWith(s, HTTPS) && s[8..] == rest)
            && (!https ==> !StartsWith(s, HTTPS) && StartsWith(s, HTTP) && s[7..] == rest)
  {
    var s := (if https then HTTPS else HTTP) + rest;
    if !https && |s| >= 8 {
      assert Lower(s[4]) == 58 && HTTPS[4] == 115;
    }
  }

  /** Parsing what was printed gives the same URL back, exactly if it is separated. */
  lemma PrintParse(u: Url)
    requires Accepted(u)
    ensures Parse(Truncated(Printed(u), MAX_URL)) == Some(u) <==> Separated(u)
  {
    PrintedFits(u);
    SchemeRead(u.https, u.host + (PortText(u) + u.path));
    RestRoundTrip(u);
  }

  /** In particular a URL with a path that starts with a slash. */
  lemma RoundTrip(u: Url)
    requires UrlOK(u)
    ensures Parse(Truncated(Printed(u), MAX_URL)) == Some(u)
  {
    PrintParse(u);
  }

  lemma RestAccepted(https: bool, s: Text, u: Url)
    requires ParseRest(https, s) == Some(u)
    ensures Accepted(u)
  {
    var t := s[HostLen(s, HOST_SIZE - 1)..];
    HostStops(s, HOST_SIZE - 1);
    if t != [] && t[0] == COLON {
      DigitsStop(t[1..]);
      assert t[PortLen(t)..] == t[1..][DigitsLen(t[1..])..];
    }
  }

  /** Whatever text it is given, an accepted URL printed and parsed again is the same, exactly if a slash
      or a port other than the default separates path from host, or the host has 127 bytes and the path
      does not start with a colon. */
  lemma ParsedOK(s: Text, u: Url)
    requires Parse(s) == Some(u)
    ensures Accepted(u)
    ensures Parse(Truncated(Printed(u), MAX_URL)) == Some(u)
            <==> (|| u.path[0] == 47
                  || u.port != (if u.https then 443 else 80)
                  || (|u.host| == 127 && u.path[0] != 58))
  {
    RestAccepted(u.https, if u.https then s[8..] else s[7..], u);
    PrintParse(u);
  }

  const QUERY: Text := [63, 120]      // ?x

  /** http://a:80?x is accepted, printed as http://a?x, and read back with host a?x and path /. */
  lemma QueryLost()
    ensures var u := Url([97], 80, false, QUERY);
            && Parse(HTTP + ([97] + ([COLON, 56, 48] + QUERY))) == Some(u)
            && Truncated(Printed(u), MAX_URL) == HTTP + ([97] + QUERY)
            && Parse(HTTP + ([97] + QUERY)) == Some(Url([97] + QUERY, 80, false, [SLASH]))
  {
    QueryAccepted();
    QueryPrinted();
    QueryRead();
  }

  lemma QueryAccepted()
    ensures Parse(HTTP + ([97] + ([COLON, 56, 48] + QUERY))) == Some(Url([97], 80, false, QUERY))
  {
    QueryParsed();
    ParseHttp([97] + ([COLON, 56, 48] + QUERY));
  }

  lemma QueryRead()
    ensures Parse(HTTP + ([97] + QUERY)) == Some(Url([97] + QUERY, 80, false, [SLASH]))
  {
    ParseHttp([97] + QUERY);
    HostOnly([97] + QUERY);
  }

  lemma ParseHttp(rest: Text)
    ensures Parse(HTTP + rest) == ParseRest(false, rest)
  {
    SchemeRead(false, rest);
  }

  lemma QueryPrinted()
    ensures Truncated(Printed(Url([97], 80, false, QUERY)), MAX_URL) == HTTP + ([97] + QUERY)
  {
    PrintedFits(Url([97], 80, false, QUERY));
    assert [] + QUERY == QUERY;
  }

  lemma QueryParsed()
    ensures ParseRest(false, [97] + ([COLON, 56, 48] + QUERY)) == Some(Url([97], 80, false, QUERY))
  {
    var t: Text := [COLON, 56, 48] + QUERY;
    var s := [97] + t;
    HostLenIs([97], t, HOST_SIZE - 1);
    assert s[1..] == t && s[..1] == [97];
    assert t[1..] == [56, 48] + QUERY;
    DigitsLenIs([56, 48], QUERY);
    EightyRead();
    assert t[1..3] == [56, 48] && t[3..] == QUERY;
  }

  lemma HostOnly(host: Text)
    requires 0 < |host| < HOST_SIZE && SLASH !in host && COLON !in host
    ensures ParseRest(false, host) == Some(Url(host, 80, false, [SLASH]))
  {
    HostWhole(host, HOST_SIZE - 1);
    assert host[..|host|] == host && host[|host|..] == [];
  }

  lemma EightyRead()
    ensures Value32([56, 48]) == 80
  {
    var ds: Text := [56, 48];
    assert ds[..1] == [56] && [56][..0] == [];
    assert Value32([56]) == 8;
  }

  lemma {:induction false} HostWhole(host: Text, max: nat)
    requires SLASH !in host && COLON !in host && |host| <= max
    ensures HostLen(host, max) == |host|
    decreases |host|
  {
    if host != [] {
      assert host[0] in host;
      HostWhole(host[1..], max - 1);
    }
  }

  /** The digit loop of parse_url(). */
  method ParseDigits(s: Text, start: nat) returns (p: nat, port: int)
    requires start <= |s|
    ensures p == start + DigitsLen(s[start..]) && port == Value32(s[start..p])
  {
    p, port := start, 0;
    while p < |s| && IsDigit(s[p])
      invariant start <= p <= |s|
      invariant forall i :: start <= i < p ==> IsDigit(s[i])
      invariant DigitsLen(s[start..]) == (p - start) + DigitsLen(s[p..])
      invariant port == Value32(s[start..p])
    {
      assert s[p..][1..] == s[p + 1..];
      assert s[start..p + 1][..p - start] == s[start..p];
      port := Int32(port * 10 + (s[p] - ZERO));
      p := p + 1;
    }
  }

  /** The host loop of parse_url(). */
  method ParseHost(s: Text, start: nat) returns (host: Text)
    requires start <= |s|
    ensures host == s[start..start + HostLen(s[start..], HOST_SIZE - 1)]
  {
    var p := start;
    host := [];
    while p < |s| && s[p] != SLASH && s[p] != COLON && |host| + 1 < HOST_SIZE
      invariant start <= p <= |s| && host == s[start..p] && |host| < HOST_SIZE
      invariant HostLen(s[start..], HOST_SIZE - 1) == (p - start) + HostLen(s[p..], HOST_SIZE - 1 - (p - start))
      decreases |s| - p
    {
      assert s[p..][1..] == s[p + 1..];
      host := host + [s[p]];
      p := p + 1;
    }
  }

  method ParseUrl(s: Text) returns (r: Option<Url>)
    ensures r == Parse(s)
  {
    if StartsWith(s, HTTPS) {
      r := ParseAfterScheme(s, 8, true);
    } else if StartsWith(s, HTTP) {
      r := ParseAfterScheme(s, 7, false);
    } else {
      r := None;
    }
  }

  method ParseAfterScheme(s: Text, start: nat, https: bool) returns (r: Option<Url>)
    requires start <= |s|
    ensures r == ParseRest(https, s[start..])
  {
    var host := ParseHost(s, start);
    if |host| == 0 {
      return None;
    }
    ghost var t := s[start..][|host|..];
    assert |host| == HostLen(s[start..], HOST_SIZE - 1) && host == s[start..][..|host|];
    var p := start + |host|;
    assert t == s[p..];
    var port;
    port, p := ParsePort(s, p, https);
    assert t[PortLen(t)..] == s[p..];
    r := Some(Url(host, port, https, if p == |s| then [SLASH] else Truncated(s[p..], PATH_SIZE)));
  }

  method ParsePort(s: Text, p: nat, https: bool) returns (port: int, q: nat)
    requires p <= |s|
    ensures port == PortOf(s[p..], https) && q == p + PortLen(s[p..]) <= |s|
  {
    port, q := DefaultPort(https), p;
    ghost var t := s[p..];
    assert p < |s| ==> t[0] == s[p];
    if p < |s| && s[p] == COLON {
      assert t[1..] == s[p + 1..];
      var number;
      q, number := ParseDigits(s, p + 1);
      assert t[1..q - p] == s[p + 1..q];
      if 0 < number < 65536 {
        port := number;
      }
    }
  }
}
