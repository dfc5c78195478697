/** The JSON escaper and extractor of telegram_groq_bot.c:153-189 and 243-272.  A C string is the
    sequence of its bytes, without the NUL; buffers are byte arrays. */
module TelegramJson {
  import opened Bytes

  const QUOTE: Byte := 34
  const BACKSLASH: Byte := 92
  const SLASH: Byte := 47
  const NEWLINE: Byte := 10
  const TAB: Byte := 9
  const RETURN: Byte := 13
  const LOWER_N: Byte := 110
  const LOWER_R: Byte := 114
  const LOWER_T: Byte := 116
  const LOWER_U: Byte := 117
  const COLON: Byte := 58

  /** A NUL would end the string. */
  ghost predicate CString(s: seq<Byte>) {
    forall i :: 0 <= i < |s| ==> s[i] != 0
  }

  /* ---- json_escape_append() ---- */

  /** What one byte is written as; control characters other than newline and tab are dropped. */
  function EscapeOne(c: Byte): seq<Byte> {
    if c == QUOTE || c == BACKSLASH then [BACKSLASH, c]
    else if c == NEWLINE then [BACKSLASH, LOWER_N]
    else if c == TAB then [BACKSLASH, LOWER_T]
    else if c < 32 then []
    else [c]
  }

  function Escape(s: seq<Byte>): seq<Byte> {
    if s == [] then [] else EscapeOne(s[0]) + Escape(s[1..])
  }

  predicate Dropped(c: Byte) {
    c < 32 && c != NEWLINE && c != TAB
  }

  /** The bytes that survive escaping. */
  function Kept(s: seq<Byte>): seq<Byte> {
    if s == [] then [] else (if Dropped(s[0]) then [] else [s[0]]) + Kept(s[1..])
  }

  /** What survives is every byte but the control characters (below 32) other than tab (9) and newline (10), as often
      as it was there. */
  lemma {:induction false} KeptIs(s: seq<Byte>, c: Byte)
    ensures multiset(Kept(s))[c] == if c >= 32 || c == 9 || c == 10 then multiset(s)[c] else 0
  {
    if s != [] {
      KeptIs(s[1..], c);
      assert s == [s[0]] + s[1..];
      var head: seq<Byte> := if Dropped(s[0]) then [] else [s[0]];
      assert multiset(s) == multiset([s[0]]) + multiset(s[1..]);
      assert multiset(Kept(s)) == multiset(head) + multiset(Kept(s[1..]));
    }
  }

  /** How many bytes of s the loop gets through with `room` bytes left, one being for the NUL. */
  function Fitting(s: seq<Byte>, room: nat): (k: nat)
    ensures k <= |s|
  {
    if s == [] then 0
    else if EscapeOne(s[0]) != [] && |EscapeOne(s[0])| >= room then 0
    else 1 + Fitting(s[1..], room - |EscapeOne(s[0])|)
  }

  lemma {:induction false} EscapeAppend(a: seq<Byte>, b: seq<Byte>)
    ensures Escape(a + b) == Escape(a) + Escape(b)
    decreases |a|
  {
    if a == [] {
      assert a + b == b;
    } else {
      assert (a + b)[1..] == a[1..] + b;
      EscapeAppend(a[1..], b);
      Joins(EscapeOne(a[0]), Escape(a[1..]), Escape(b));
    }
  }

  lemma {:induction false} KeptAppend(a: seq<Byte>, b: seq<Byte>)
    ensures Kept(a + b) == Kept(a) + Kept(b)
    decreases |a|
  {
    if a == [] {
      assert a + b == b;
    } else {
      assert (a + b)[1..] == a[1..] + b;
      KeptAppend(a[1..], b);
    }
  }

  /** What is written fits, and the next byte's escape would not. */
  lemma {:induction false} FittingIsMaximal(s: seq<Byte>, room: nat)
    requires room > 0
    ensures var k := Fitting(s, room);
            && |Escape(s[..k])| < room
            && (k < |s| ==> |Escape(s[..k + 1])| >= room)
  {
    if s != [] && !(EscapeOne(s[0]) != [] && |EscapeOne(s[0])| >= room) {
      var left := room - |EscapeOne(s[0])|;
      FittingIsMaximal(s[1..], left);
      var k := Fitting(s[1..], left);
      assert s[..k + 1][1..] == s[1..][..k];
      if k + 1 < |s| {
        assert s[..k + 2][1..] == s[1..][..k + 1];
      }
    } else if s != [] {
      assert s[..1] == [s[0]] && s[..1][1..] == [];
      assert Escape(s[..1]) == EscapeOne(s[0]) + Escape([]);
    }
  }

  /** One turn of the loop: c goes out escaped, or there is no room for it. */
  method PutEscaped(out: array<Byte>, pos: nat, c: Byte) returns (end: nat, full: bool)
    requires pos < out.Length
    modifies out
    ensures full <==> EscapeOne(c) != [] && pos + |EscapeOne(c)| >= out.Length
    ensures full ==> end == pos && out[..] == old(out[..])
    ensures !full ==> end == pos + |EscapeOne(c)| < out.Length && out[..end] == old(out[..pos]) + EscapeOne(c)
  {
    end, full := pos, false;
    if c == QUOTE || c == BACKSLASH {
      if pos + 2 >= out.Length {
        full := true;
        return;
      }
      out[pos], out[pos + 1] := BACKSLASH, c;
      end := pos + 2;
    } else if c == NEWLINE {
      if pos + 2 >= out.Length {
        full := true;
        return;
      }
      out[pos], out[pos + 1] := BACKSLASH, LOWER_N;
      end := pos + 2;
    } else if c == TAB {
      if pos + 2 >= out.Length {
        full := true;
        return;
      }
      out[pos], out[pos + 1] := BACKSLASH, LOWER_T;
      end := pos + 2;
    } else if c < 32 {
    } else {
      if pos + 1 >= out.Length {
        full := true;
        return;
      }
      out[pos] := c;
      end := pos + 1;
    }
  }

  method JsonEscapeAppend(out: array<Byte>, pos: nat, s: seq<Byte>) returns (end: nat)
    requires pos < out.Length
    modifies out
    // whole escapes of as long a prefix of s as fits, then a NUL
    ensures var k := Fitting(s, out.Length - pos);
            && end == pos + |Escape(s[..k])| < out.Length
            && out[..end] == old(out[..pos]) + Escape(s[..k])
    ensures out[end] == 0
  {
    end := pos;
    ghost var start, room := out[..pos], out.Length - pos;
    assert s[..0] == [] && s[0..] == s;
    var i, full := 0, false;
    while i < |s| && !full
      invariant 0 <= i <= |s| && end < out.Length && out[..end] == start + Escape(s[..i])
      invariant Fitting(s, room) == i + if full then 0 else Fitting(s[i..], out.Length - end)
      decreases |s| - i, !full
    {
      end, full := EscapeTurn(out, end, s, i, start);
      i := if full then i else i + 1;
    }
    out[end] := 0;
  }

  /** Byte i goes out after what is there already, or there is no room for it. */
  method EscapeTurn(out: array<Byte>, pos: nat, s: seq<Byte>, i: nat, ghost start: seq<Byte>)
      returns (end: nat, full: bool)
    requires i < |s| && pos < out.Length && out[..pos] == start + Escape(s[..i])
    modifies out
    ensures full ==> end == pos && out[..pos] == old(out[..pos]) && Fitting(s[i..], out.Length - pos) == 0
    ensures !full ==> end < out.Length && out[..end] == start + Escape(s[..i + 1])
    ensures !full ==> Fitting(s[i..], out.Length - pos) == 1 + Fitting(s[i + 1..], out.Length - end)
  {
    EscapeNext(s, i);
    end, full := PutEscaped(out, pos, s[i]);
    Joins(start, Escape(s[..i]), EscapeOne(s[i]));
    assert full ==> out[..pos] == old(out[..pos]);
  }

  lemma EscapeNext(s: seq<Byte>, i: nat)
    requires i < |s|
    ensures Escape(s[..i + 1]) == Escape(s[..i]) + EscapeOne(s[i]) && s[i..][0] == s[i] && s[i..][1..] == s[i + 1..]
  {
    assert s[..i + 1] == s[..i] + [s[i]];
    EscapeAppend(s[..i], [s[i]]);
    assert [s[i]][1..] == [];
    assert Escape([s[i]]) == EscapeOne(s[i]) + Escape([]);
  }

  /* ---- json_extract_string() ---- */

  /** What the character after a backslash stands for; unknown ones, and \u, for nothing. */
  function EscapeValue(c: Byte): seq<Byte> {
    if c == LOWER_N then [NEWLINE]
    else if c == LOWER_R then [RETURN]
    else if c == LOWER_T then [TAB]
    else if c == QUOTE || c == BACKSLASH || c == SLASH then [c]
    else []
  }

  /** How many bytes an escape starting t takes: \u swallows up to four more. */
  function EscapeLength(t: seq<Byte>): (n: nat)
    requires |t| > 1
    ensures 2 <= n <= |t|
  {
    if t[1] != LOWER_U then 2 else if |t| - 2 < 4 then |t| else 6
  }

  /** The extraction loop on the text after the opening quote, for at most cap bytes. */
  function Decode(t: seq<Byte>, cap: nat): (r: seq<Byte>)
    ensures |r| <= cap
  {
    if t == [] || t[0] == QUOTE || cap == 0 then []
    else if t[0] == BACKSLASH && |t| > 1 then
      EscapeValue(t[1]) + Decode(t[EscapeLength(t)..], cap - |EscapeValue(t[1])|)
    else [t[0]] + Decode(t[1..], cap - 1)
  }

  function Take(s: seq<Byte>, n: nat): seq<Byte> {
    if |s| <= n then s else s[..n]
  }

  /** The text after the opening quote: s escaped, then the rest. */
  function Body(s: seq<Byte>, tail: seq<Byte>): seq<Byte> {
    Escape(s) + tail
  }

  /** The rest starts with the closing quote, or a full buffer left none. */
  predicate Closes(tail: seq<Byte>) {
    tail == [] || tail[0] == QUOTE
  }

  /** Decoding what was escaped gives back the bytes that were not dropped, as far as they fit. */
  lemma {:induction false} DecodeEscape(s: seq<Byte>, tail: seq<Byte>, cap: nat)
    requires Closes(tail)
    ensures Decode(Body(s, tail), cap) == Take(Kept(s), cap)
  {
    if s == [] {
      assert Body(s, tail) == tail;
    } else if Dropped(s[0]) {
      assert Escape(s) == Escape(s[1..]) && Kept(s) == Kept(s[1..]);
      DecodeEscape(s[1..], tail, cap);
    } else if cap > 0 {
      DecodeEscape(s[1..], tail, cap - 1);
      DecodeKept(s, tail, cap);
    }
  }

  lemma DecodeKept(s: seq<Byte>, tail: seq<Byte>, cap: nat)
    requires s != [] && !Dropped(s[0]) && cap > 0
    requires Decode(Body(s[1..], tail), cap - 1) == Take(Kept(s[1..]), cap - 1)
    ensures Decode(Body(s, tail), cap) == Take(Kept(s), cap)
  {
    var c, more := s[0], Body(s[1..], tail);
    assert Body(s, tail) == EscapeOne(c) + more;
    DecodeOne(c, more, cap);
    TakeCons(c, Kept(s[1..]), cap);
  }

  lemma TakeCons(c: Byte, s: seq<Byte>, n: nat)
    requires n > 0
    ensures Take([c] + s, n) == [c] + Take(s, n - 1)
  {
  }

  lemma DecodeOne(c: Byte, tail: seq<Byte>, cap: nat)
    requires !Dropped(c) && cap > 0
    ensures Decode(EscapeOne(c) + tail, cap) == [c] + Decode(tail, cap - 1)
  {
    var t := EscapeOne(c) + tail;
    if |EscapeOne(c)| == 2 {
      assert t[0] == BACKSLASH && t[1] == EscapeOne(c)[1] && t[2..] == tail;
      assert EscapeValue(t[1]) == [c];
    } else {
      assert t[0] == c && t[1..] == tail;
    }
  }

  /** Escaping byte by byte, what survives of a prefix is a prefix of what survives. */
  lemma KeptPrefix(s: seq<Byte>, k: nat)
    requires k <= |s|
    ensures Kept(s[..k]) <= Kept(s)
  {
    assert s == s[..k] + s[k..];
    KeptAppend(s[..k], s[k..]);
  }

  /* ---- what each escape stands for ---- */

  /** The parts of a JSON string: a byte as it is, a backslash and one character, or a backslash, a u and four
      characters. */
  datatype Token = Plain(c: Byte) | Simple(c: Byte) | Unicode(digits: seq<Byte>)

  predicate TokenOK(t: Token) {
    match t
    case Plain(c) => c != 34 && c != 92
    case Simple(c) => c != 117
    case Unicode(digits) => |digits| == 4
  }

  function Spelled(t: Token): seq<Byte> {
    match t
    case Plain(c) => [c]
    case Simple(c) => [92, c]
    case Unicode(digits) => [92, 117] + digits
  }

  /** n is a newline (10), r a carriage return (13), t a tab (9); a quote (34), a backslash (92) and a slash (47) are
      themselves; anything else, and every Unicode escape, is left out. */
  function Meant(t: Token): seq<Byte> {
    match t
    case Plain(c) => [c]
    case Simple(c) =>
      if c == 110 then [10] else if c == 114 then [13] else if c == 116 then [9]
      else if c == 34 || c == 92 || c == 47 then [c] else []
    case Unicode(_) => []
  }

  function AllSpelled(ts: seq<Token>): seq<Byte> {
    if ts == [] then [] else Spelled(ts[0]) + AllSpelled(ts[1..])
  }

  function AllMeant(ts: seq<Token>): seq<Byte> {
    if ts == [] then [] else Meant(ts[0]) + AllMeant(ts[1..])
  }

  /** Decoding any such string gives what its parts mean, as far as it fits. */
  lemma {:induction false} DecodeTokens(ts: seq<Token>, tail: seq<Byte>, cap: nat)
    requires Closes(tail) && forall i :: 0 <= i < |ts| ==> TokenOK(ts[i])
    ensures Decode(AllSpelled(ts) + tail, cap) == Take(AllMeant(ts), cap)
    decreases |ts|
  {
    if ts == [] {
      assert AllSpelled(ts) + tail == tail;
    } else if cap > 0 {
      Joins(Spelled(ts[0]), AllSpelled(ts[1..]), tail);
      DecodeToken(ts[0], AllSpelled(ts[1..]) + tail, cap);
      DecodeTokens(ts[1..], tail, cap - |Meant(ts[0])|);
      TakeAfter(Meant(ts[0]), AllMeant(ts[1..]), cap);
    }
  }

  lemma TakeAfter(a: seq<Byte>, b: seq<Byte>, n: nat)
    requires |a| <= n
    ensures Take(a + b, n) == a + Take(b, n - |a|)
  {
  }

  lemma DecodeToken(t: Token, more: seq<Byte>, cap: nat)
    requires TokenOK(t) && cap > 0
    ensures |Meant(t)| <= 1 && Decode(Spelled(t) + more, cap) == Meant(t) + Decode(more, cap - |Meant(t)|)
  {
    var s := Spelled(t) + more;
    match t
    case Plain(c) => assert s[0] == c && s[1..] == more;
    case Simple(c) => assert s[0] == 92 && s[1] == c && s[2..] == more;
    case Unicode(digits) => assert s[0] == 92 && s[1] == 117 && s[6..] == more;
  }

  /** A Unicode escape that the text cuts short takes the rest. */
  lemma ShortUnicode(rest: seq<Byte>, cap: nat)
    requires |rest| < 4
    ensures Decode([92, 117] + rest, cap) == []
  {
    var s: seq<Byte> := [92, 117] + rest;
    assert s[|s|..] == [];
  }

  predicate OccursAt(text: seq<Byte>, pat: seq<Byte>, k: nat) {
    k + |pat| <= |text| && text[k..k + |pat|] == pat
  }

  /** strstr(): where pat first occurs at or after i; |text| + 1 if nowhere. */
  function Find(text: seq<Byte>, pat: seq<Byte>, i: nat): (r: nat)
    requires i <= |text| + 1
    ensures i <= r <= |text| + 1 && (r <= |text| ==> OccursAt(text, pat, r))
    ensures forall k :: i <= k < r ==> !OccursAt(text, pat, k)
    decreases |text| + 1 - i
  {
    if i > |text| || OccursAt(text, pat, i) then i else Find(text, pat, i + 1)
  }

  const PATTERN_SIZE: nat := 64

  /** "key":" as snprintf() leaves it in pat[64]. */
  function Pattern(key: seq<Byte>): seq<Byte> {
    Take([QUOTE] + key + [QUOTE, COLON, QUOTE], PATTERN_SIZE - 1)
  }

  /** The pattern is found where it was put exactly if it does not occur before. */
  lemma FindAfterPrefix(prefix: seq<Byte>, key: seq<Byte>, body: seq<Byte>)
    ensures Find(prefix + Pattern(key) + body, Pattern(key), 0) == |prefix|
            <==> !OccursBefore(prefix + Pattern(key) + body, Pattern(key), |prefix|)
  {
    var text, pat := prefix + Pattern(key) + body, Pattern(key);
    assert text[|prefix|..|prefix| + |pat|] == pat;
    assert OccursAt(text, pat, |prefix|);
  }

  ghost predicate OccursBefore(text: seq<Byte>, pat: seq<Byte>, at: nat) {
    exists k :: 0 <= k < at && OccursAt(text, pat, k)
  }

  /** What json_extract_string() leaves in a buffer of outsz bytes, before the NUL. */
  function Extracted(json: seq<Byte>, key: seq<Byte>, outsz: nat): seq<Byte>
    requires outsz > 0
  {
    var at := Find(json, Pattern(key), 0);
    if at > |json| then [] else Decode(json[at + |Pattern(key)|..], outsz - 1)
  }

  /** The extractor undoes the escaper, whatever follows, where the key is the first of its name. */
  lemma ExtractEscaped(prefix: seq<Byte>, key: seq<Byte>, s: seq<Byte>, tail: seq<Byte>, outsz: nat)
    requires outsz > 0 && Closes(tail)
    requires !OccursBefore(prefix + Pattern(key) + Body(s, tail), Pattern(key), |prefix|)
    ensures Extracted(prefix + Pattern(key) + Body(s, tail), key, outsz) == Take(Kept(s), outsz - 1)
  {
    DecodeEscape(s, tail, outsz - 1);
    ExtractBody(prefix, key, Body(s, tail), outsz);
  }

  lemma ExtractBody(prefix: seq<Byte>, key: seq<Byte>, body: seq<Byte>, outsz: nat)
    requires outsz > 0 && !OccursBefore(prefix + Pattern(key) + body, Pattern(key), |prefix|)
    ensures Extracted(prefix + Pattern(key) + body, key, outsz) == Decode(body, outsz - 1)
  {
    FindAfterPrefix(prefix, key, body);
    BodyAfter(prefix, Pattern(key), body);
  }

  lemma BodyAfter(prefix: seq<Byte>, pat: seq<Byte>, body: seq<Byte>)
    ensures (prefix + pat + body)[|prefix| + |pat|..] == body
  {
  }

  /** Even when the escaper ran out of room, what is read back is a prefix of what survives. */
  lemma ExtractTruncated(prefix: seq<Byte>, key: seq<Byte>, s: seq<Byte>, room: nat, tail: seq<Byte>, outsz: nat)
    requires outsz > 0 && Closes(tail)
    requires var text := prefix + Pattern(key) + Body(s[..Fitting(s, room)], tail);
             !OccursBefore(text, Pattern(key), |prefix|)
    ensures Extracted(prefix + Pattern(key) + Body(s[..Fitting(s, room)], tail), key, outsz) <= Kept(s)
  {
    ExtractEscaped(prefix, key, s[..Fitting(s, room)], tail, outsz);
    KeptPrefix(s, Fitting(s, room));
  }

  /** Keys of up to 59 bytes are looked for whole. */
  lemma PatternWhole(key: seq<Byte>)
    ensures Pattern(key) == [QUOTE] + key + [QUOTE, COLON, QUOTE] <==> |key| + 4 < PATTERN_SIZE
  {
  }

  /** One turn of the extraction loop at index p. */
  lemma DecodeNext(json: seq<Byte>, p: nat, cap: nat)
    requires p < |json| && json[p] != QUOTE && cap > 0
    ensures Decode(json[p..], cap)
            == StepValue(json, p) + Decode(json[p + StepLength(json, p)..], cap - |StepValue(json, p)|)
  {
    var t := json[p..];
    assert t[0] == json[p] && t[1..] == json[p + 1..];
    if json[p] == BACKSLASH && p + 1 < |json| {
      assert t[1] == json[p + 1];
      assert t[EscapeLength(t)..] == json[p + EscapeLength(t)..];
    }
  }

  /** What the turn at index p puts out, and how far it moves. */
  function StepValue(json: seq<Byte>, p: nat): (v: seq<Byte>)
    requires p < |json|
    ensures |v| <= 1
  {
    if json[p] == BACKSLASH && p + 1 < |json| then EscapeValue(json[p + 1]) else [json[p]]
  }

  function StepLength(json: seq<Byte>, p: nat): (n: nat)
    requires p < |json|
    ensures 0 < n && p + n <= |json|
  {
    if json[p] == BACKSLASH && p + 1 < |json| then
      if json[p + 1] != LOWER_U then 2 else if |json| - p - 2 < 4 then |json| - p else 6
    else 1
  }

  method JsonExtractString(json: seq<Byte>, key: seq<Byte>, out: array<Byte>) returns (found: bool, n: nat)
    requires out.Length > 0 && CString(json)
    modifies out
    ensures found <==> Find(json, Pattern(key), 0) <= |json|
    ensures n < out.Length && out[n] == 0 && out[..n] == Extracted(json, key, out.Length)
  {
    out[0] := 0;
    n := 0;
    assert out[..0] == [];
    var at := Find(json, Pattern(key), 0);
    found := at <= |json|;
    if found {
      assert OccursAt(json, Pattern(key), at);
      n := CopyDecoded(json, at + |Pattern(key)|, out);
    }
  }

  lemma JoinStep(whole: seq<Byte>, done: seq<Byte>, rest: seq<Byte>, value: seq<Byte>, rest': seq<Byte>)
    requires whole == done + rest && rest == value + rest'
    ensures whole == (done + value) + rest'
  {
  }

  lemma DecodeStops(json: seq<Byte>, p: nat, cap: nat)
    requires p <= |json| && (p == |json| || json[p] == QUOTE || cap == 0)
    ensures Decode(json[p..], cap) == []
  {
  }

  /** The loop of json_extract_string(), from just after the opening quote. */
  method CopyDecoded(json: seq<Byte>, start: nat, out: array<Byte>) returns (n: nat)
    requires out.Length > 0 && start <= |json|
    modifies out
    ensures n < out.Length && out[n] == 0 && out[..n] == Decode(json[start..], out.Length - 1)
  {
    var p := start;
    n := 0;
    ghost var whole, done := Decode(json[start..], out.Length - 1), [];
    ghost var rest := whole;
    assert whole == done + rest;
    while p < |json| && json[p] != QUOTE && n + 1 < out.Length
      invariant p <= |json| && n < out.Length && out[..n] == done
      invariant whole == done + rest && rest == Decode(json[p..], out.Length - 1 - n)
      decreases |json| - p
    {
      ghost var value, rest';
      p, n, value, rest' := PutDecoded(json, p, out, n);
      JoinStep(whole, done, rest, value, rest');
      done, rest := done + value, rest';
    }
    DecodeStops(json, p, out.Length - 1 - n);
    assert whole == done;
    out[n] := 0;
  }

  /** One turn of that loop. */
  method PutDecoded(json: seq<Byte>, p: nat, out: array<Byte>, n: nat)
      returns (p': nat, n': nat, ghost value: seq<Byte>, ghost rest: seq<Byte>)
    requires p < |json| && json[p] != QUOTE && n + 1 < out.Length
    modifies out
    ensures p < p' <= |json| && n' == n + |value| < out.Length && out[..n'] == old(out[..n]) + value
    ensures rest == Decode(json[p'..], out.Length - 1 - n') && Decode(json[p..], out.Length - 1 - n) == value + rest
  {
    DecodeNext(json, p, out.Length - 1 - n);
    p', n' := TurnAt(json, p, out, n);
    value := StepValue(json, p);
    rest := Decode(json[p'..], out.Length - 1 - n');
  }

  method TurnAt(json: seq<Byte>, p: nat, out: array<Byte>, n: nat) returns (p': nat, n': nat)
    requires p < |json| && n + 1 < out.Length
    modifies out
    ensures p' == p + StepLength(json, p) && n' == n + |StepValue(json, p)|
    ensures out[..n'] == old(out[..n]) + StepValue(json, p)
  {
    p', n' := p, n;
    if json[p'] == BACKSLASH && p + 1 < |json| {
      p' := p' + 1;
      var v := EscapeValue(json[p']);
      if |v| == 1 {
        out[n] := v[0];
        n' := n + 1;
      }
      if json[p'] == LOWER_U {
        for i := 0 to 4
          invariant p + 1 <= p' < |json| && p' == p + 1 + (if i <= |json| - p - 2 then i else |json| - p - 2)
        {
          if p' + 1 < |json| {
            p' := p' + 1;
          }
        }
      }
      p' := p' + 1;
    } else {
      out[n] := json[p];
      p', n' := p + 1, n + 1;
    }
  }
}
