/** Extracting from whole texts: objects of string fields, and the two payloads the bot builds
    (telegram_groq_bot.c:153-189, 283-291 and 359-366). */
module TelegramObject {
  import opened Bytes
  import opened TelegramJson

  const OPEN: Byte := 123
  const CLOSE: Byte := 125
  const COMMA: Byte := 44

  datatype Field = Field(key: seq<Byte>, value: seq<Byte>)

  /** A key that can be looked for: it fits the pattern buffer and needs no escapes. */
  ghost predicate PlainKey(key: seq<Byte>) {
    QUOTE !in key && BACKSLASH !in key && |key| + 4 < PATTERN_SIZE
  }

  /** Where the extractor finds "key":" in text. */
  function Seek(text: seq<Byte>, key: seq<Byte>): nat {
    Find(text, Pattern(key), 0)
  }

  lemma MatchAt(text: seq<Byte>, key: seq<Byte>, p: nat)
    requires |key| + 4 < PATTERN_SIZE
    ensures OccursAt(text, Pattern(key), p) <==>
            && p + |key| + 4 <= |text| && text[p] == QUOTE && text[p + 1..p + 1 + |key|] == key
            && text[p + 1 + |key|..p + 4 + |key|] == [QUOTE, COLON, QUOTE]
  {
    var n := |key|;
    PatternWhole(key);
    if p + n + 4 <= |text| {
      var w := text[p..p + n + 4];
      SliceOfSlice(text, p, p + n + 4, 1, 1 + n);
      SliceOfSlice(text, p, p + n + 4, 1 + n, n + 4);
      assert w[1 + n..] == w[1 + n..n + 4];
      SplitThree(w, QUOTE, key, [QUOTE, COLON, QUOTE]);
    }
  }

  lemma SliceOfSlice(t: seq<Byte>, p: nat, q: nat, i: nat, j: nat)
    requires p <= q <= |t| && i <= j <= q - p
    ensures t[p..q][i..j] == t[p + i..p + j]
  {
    forall k | 0 <= k < j - i ensures t[p..q][i..j][k] == t[p + i..p + j][k] {
      assert t[p..q][i + k] == t[p + (i + k)];
    }
  }

  lemma SplitThree(w: seq<Byte>, c: Byte, a: seq<Byte>, b: seq<Byte>)
    requires |w| == 1 + |a| + |b|
    ensures w == [c] + a + b <==> w[0] == c && w[1..1 + |a|] == a && w[1 + |a|..] == b
  {
    CutThree(c, a, b);
    JoinThree(w, |a|);
  }

  lemma CutThree(c: Byte, a: seq<Byte>, b: seq<Byte>)
    ensures var v := [c] + a + b; v[0] == c && v[1..1 + |a|] == a && v[1 + |a|..] == b
  {
  }

  lemma JoinThree(w: seq<Byte>, n: nat)
    requires 1 + n <= |w|
    ensures w == [w[0]] + w[1..1 + n] + w[1 + n..]
  {
  }

  /** Passing over a, where the pattern does not start. */
  lemma {:induction false} Skip(a: seq<Byte>, b: seq<Byte>, pat: seq<Byte>)
    requires forall k :: 0 <= k < |a| ==> !OccursAt(a + b, pat, k)
    ensures Find(a + b, pat, 0) == |a| + Find(b, pat, 0)
  {
    var text, r := a + b, Find(b, pat, 0);
    forall k: nat ensures OccursAt(text, pat, |a| + k) <==> OccursAt(b, pat, k) {
      if k + |pat| <= |b| {
        assert text[|a| + k..|a| + k + |pat|] == b[k..k + |pat|];
      }
    }
    forall k | 0 <= k < |a| + r ensures !OccursAt(text, pat, k) {
      if k >= |a| {
        assert !OccursAt(b, pat, k - |a|);
      }
    }
  }

  /** Text without quotes is passed over. */
  lemma PlainSkipped(chunk: seq<Byte>, more: seq<Byte>, key: seq<Byte>)
    requires QUOTE !in chunk && PlainKey(key)
    ensures Seek(chunk + more, key) == |chunk| + Seek(more, key)
  {
    forall k | 0 <= k < |chunk| ensures !OccursAt(chunk + more, Pattern(key), k) {
      MatchAt(chunk + more, key, k);
      assert (chunk + more)[k] == chunk[k];
    }
    Skip(chunk, more, Pattern(key));
  }

  lemma NoQuoteNoMatch(text: seq<Byte>, key: seq<Byte>)
    requires PlainKey(key) && forall i :: 1 <= i < |text| ==> text[i] != QUOTE
    ensures Seek(text, key) == |text| + 1
  {
    forall k: nat ensures !OccursAt(text, Pattern(key), k) {
      MatchAt(text, key, k);
      assert k + |key| + 4 <= |text| ==> text[k + 1 + |key|..k + 4 + |key|][0] == text[k + 1 + |key|];
    }
  }

  /** A quoted stretch is the key exactly if it reads the same and a colon and a quote follow. */
  lemma QuotedSeek(chunk: seq<Byte>, more: seq<Byte>, key: seq<Byte>)
    requires QUOTE !in chunk && PlainKey(key)
    ensures var text := [QUOTE] + chunk + ([QUOTE] + more);
            Seek(text, key) == if chunk == key && [COLON, QUOTE] <= more then 0
                else |chunk| + 1 + Seek([QUOTE] + more, key)
  {
    var text := [QUOTE] + chunk + ([QUOTE] + more);
    QuotedMatch(chunk, more, key);
    if !(chunk == key && [COLON, QUOTE] <= more) {
      forall k | 0 <= k < |chunk| + 1 ensures !OccursAt(text, Pattern(key), k) {
        if k > 0 {
          MatchAt(text, key, k);
          assert text[k] == chunk[k - 1];
        }
      }
      Skip([QUOTE] + chunk, [QUOTE] + more, Pattern(key));
    }
  }

  lemma QuotedMatch(chunk: seq<Byte>, more: seq<Byte>, key: seq<Byte>)
    requires QUOTE !in chunk && PlainKey(key)
    ensures OccursAt([QUOTE] + chunk + ([QUOTE] + more), Pattern(key), 0) <==> chunk == key && [COLON, QUOTE] <= more
  {
    var u := chunk + ([QUOTE] + more);
    var text := [QUOTE] + chunk + ([QUOTE] + more);
    assert text == [QUOTE] + u;
    MatchAt(text, key, 0);
    FirstQuoteAt(chunk, [QUOTE] + more);
    if OccursAt(text, Pattern(key), 0) {
      assert u[..|key|] == key && u == key + u[|key|..] && u[|key|..][..3] == [QUOTE, COLON, QUOTE];
      FirstQuoteAt(key, u[|key|..]);
      assert u[..|chunk|] == chunk && u[|chunk|..] == [QUOTE] + more;
      assert more[..2] == u[|key|..][..3][1..];
    }
    if chunk == key && [COLON, QUOTE] <= more {
      assert text[1..1 + |key|] == chunk;
      assert more[..2] == [COLON, QUOTE];
      assert text[1 + |key|..4 + |key|] == [QUOTE] + more[..2];
    }
  }

  function FirstQuote(t: seq<Byte>): nat {
    if t == [] || t[0] == QUOTE then 0 else 1 + FirstQuote(t[1..])
  }

  lemma {:induction false} FirstQuoteAt(a: seq<Byte>, t: seq<Byte>)
    requires QUOTE !in a && t != [] && t[0] == QUOTE
    ensures FirstQuote(a + t) == |a|
    decreases |a|
  {
    if a == [] {
      assert a + t == t;
    } else {
      assert (a + t)[1..] == a[1..] + t;
      FirstQuoteAt(a[1..], t);
    }
  }

  /** Inside escaped text every quote comes after a backslash. */
  lemma {:induction false} QuoteEscaped(v: seq<Byte>, j: nat)
    requires j < |Escape(v)| && Escape(v)[j] == QUOTE
    ensures j > 0 && Escape(v)[j - 1] == BACKSLASH
  {
    var e := EscapeOne(v[0]);
    assert Escape(v) == e + Escape(v[1..]);
    if j >= |e| {
      QuoteEscaped(v[1..], j - |e|);
    }
  }

  /** No key is found from the opening quote of a value up to its closing quote. */
  lemma ValueSkipped(v: seq<Byte>, after: seq<Byte>, key: seq<Byte>)
    requires PlainKey(key) && (after == [] || after[0] != COLON)
    ensures Seek([QUOTE] + Escape(v) + ([QUOTE] + after), key) == |Escape(v)| + 1 + Seek([QUOTE] + after, key)
  {
    forall q | 0 <= q < |Escape(v)| + 1 ensures !OccursAt([QUOTE] + Escape(v) + ([QUOTE] + after), Pattern(key), q) {
      NoMatchInValue(v, after, key, q);
    }
    Skip([QUOTE] + Escape(v), [QUOTE] + after, Pattern(key));
  }

  lemma NoMatchInValue(v: seq<Byte>, after: seq<Byte>, key: seq<Byte>, q: nat)
    requires PlainKey(key) && (after == [] || after[0] != COLON) && q <= |Escape(v)|
    ensures !OccursAt([QUOTE] + Escape(v) + ([QUOTE] + after), Pattern(key), q)
  {
    var e := Escape(v);
    var text := [QUOTE] + e + ([QUOTE] + after);
    assert text[|e| + 1] == QUOTE && (after != [] ==> text[|e| + 2] == after[0]);
    forall j | 0 < j <= |e| && text[j] == QUOTE ensures text[j - 1] == BACKSLASH {
      QuoteEscaped(v, j - 1);
    }
    NoMatchInQuotes(text, |e| + 1, key, q);
  }

  /** The quotes before position n all come after a backslash, and the one at n is not followed by a colon. */
  lemma NoMatchInQuotes(text: seq<Byte>, n: nat, key: seq<Byte>, q: nat)
    requires PlainKey(key) && q < n < |text| && text[n] == QUOTE && (n + 1 < |text| ==> text[n + 1] != COLON)
    requires text[0] == QUOTE && forall j :: 0 < j < n && text[j] == QUOTE ==> text[j - 1] == BACKSLASH
    ensures !OccursAt(text, Pattern(key), q)
  {
    MatchRead(text, key, q);
  }

  lemma MatchRead(text: seq<Byte>, key: seq<Byte>, q: nat)
    requires PlainKey(key)
    ensures OccursAt(text, Pattern(key), q) ==>
              && q + |key| + 4 <= |text| && text[q] == QUOTE && text[q + |key|] != BACKSLASH
              && text[q + 1 + |key|] == QUOTE && text[q + 2 + |key|] == COLON
              && forall j :: q < j < q + 1 + |key| ==> text[j] != QUOTE
  {
    MatchAt(text, key, q);
    if OccursAt(text, Pattern(key), q) {
      InsideKey(text, key, q);
      var end := text[q + 1 + |key|..q + 4 + |key|];
      assert end[0] == text[q + 1 + |key|] && end[1] == text[q + 2 + |key|];
    }
  }

  lemma InsideKey(text: seq<Byte>, key: seq<Byte>, q: nat)
    requires PlainKey(key) && q + 1 + |key| <= |text| && text[q + 1..q + 1 + |key|] == key
    ensures forall j :: q < j < q + 1 + |key| ==> text[j] != QUOTE && text[j] != BACKSLASH
  {
    forall j | q < j < q + 1 + |key| ensures text[j] != QUOTE && text[j] != BACKSLASH {
      assert text[j] == key[j - q - 1];
    }
  }

  /* ---- objects ---- */

  /** "key":"escaped value", then the text after it */
  function FieldText(f: Field, after: seq<Byte>): seq<Byte> {
    [QUOTE] + f.key + ([QUOTE] + ([COLON] + ([QUOTE] + Escape(f.value) + ([QUOTE] + after))))
  }

  /** The fields separated by commas, and the closing brace. */
  function Members(fs: seq<Field>): seq<Byte>
    requires fs != []
    decreases |fs|
  {
    FieldText(fs[0], if |fs| == 1 then [CLOSE] else [COMMA] + Members(fs[1..]))
  }

  function Object(fs: seq<Field>): seq<Byte> {
    if fs == [] then [OPEN, CLOSE] else [OPEN] + Members(fs)
  }

  ghost predicate KeysOK(fs: seq<Field>) {
    forall i :: 0 <= i < |fs| ==> QUOTE !in fs[i].key
  }

  function FirstNamed(fs: seq<Field>, key: seq<Byte>): (n: nat)
    ensures n <= |fs| && (n < |fs| ==> fs[n].key == key)
    ensures forall i :: 0 <= i < n ==> fs[i].key != key
  {
    if fs == [] || fs[0].key == key then 0 else 1 + FirstNamed(fs[1..], key)
  }

  /** Punctuation that reads like the key: `":"` as a value on its own, or `","` before a field named `:`. */
  predicate Lookalike(fs: seq<Field>, key: seq<Byte>)
    requires fs != []
  {
    (key == [COLON] && Escape(fs[0].value) == [COLON]) || (key == [COMMA] && |fs| > 1 && fs[1].key == [COLON])
  }

  /** No such punctuation before the first field named key. */
  predicate Clear(fs: seq<Field>, key: seq<Byte>)
    decreases |fs|
  {
    fs == [] || fs[0].key == key || (!Lookalike(fs, key) && Clear(fs[1..], key))
  }

  /** Offset of the first field of that name; one past the end if there is none. */
  function Offset(fs: seq<Field>, key: seq<Byte>): nat
    requires fs != []
    decreases |fs|
  {
    if fs[0].key == key then 0
    else if |fs| == 1 then |Members(fs)| + 1
    else |FieldText(fs[0], [])| + 1 + Offset(fs[1..], key)
  }

  lemma TextAfter(f: Field, after: seq<Byte>)
    ensures FieldText(f, after) == FieldText(f, []) + after
  {
    var e := Escape(f.value);
    assert [QUOTE] + after == [QUOTE] + [] + after;
    assert [QUOTE] + e + ([QUOTE] + after) == [QUOTE] + e + ([QUOTE] + []) + after;
    var value := [QUOTE] + e + ([QUOTE] + []);
    assert [COLON] + (value + after) == [COLON] + value + after;
    var colon := [COLON] + value;
    assert [QUOTE] + (colon + after) == [QUOTE] + colon + after;
    assert [QUOTE] + f.key + ([QUOTE] + colon + after) == [QUOTE] + f.key + ([QUOTE] + colon) + after;
  }

  /** Passing over one field not named key. */
  lemma FieldSeek(f: Field, after: seq<Byte>, key: seq<Byte>)
    requires QUOTE !in f.key && PlainKey(key) && f.key != key && (after == [] || after[0] != COLON)
    ensures var r := Seek(FieldText(f, after), key);
            if key == [COLON] && Escape(f.value) == [COLON] then r == |f.key| + 1
            else r == |f.key| + |Escape(f.value)| + 4 + Seek([QUOTE] + after, key)
  {
    var e := Escape(f.value);
    QuotedSeek(f.key, [COLON] + ([QUOTE] + e + ([QUOTE] + after)), key);
    ColonSeek(e, after, key);
    ColonValue(f.value, after);
    ValueSkipped(f.value, after, key);
  }

  /** From the closing quote of a field's key to the opening quote of its value. */
  lemma ColonSeek(e: seq<Byte>, after: seq<Byte>, key: seq<Byte>)
    requires PlainKey(key)
    ensures var value := [QUOTE] + e + ([QUOTE] + after);
            Seek([QUOTE] + ([COLON] + value), key) ==
            if key == [COLON] && [COLON, QUOTE] <= e + ([QUOTE] + after) then 0 else 2 + Seek(value, key)
  {
    var more := e + ([QUOTE] + after);
    assert [QUOTE] + e + ([QUOTE] + after) == [QUOTE] + more;
    assert [QUOTE] + ([COLON] + ([QUOTE] + more)) == [QUOTE] + [COLON] + ([QUOTE] + more);
    QuotedSeek([COLON], more, key);
  }

  lemma ColonValue(v: seq<Byte>, after: seq<Byte>)
    ensures [COLON, QUOTE] <= Escape(v) + ([QUOTE] + after) <==> Escape(v) == [COLON]
  {
    var e := Escape(v);
    var text := e + ([QUOTE] + after);
    if |e| >= 2 && e[1] == QUOTE {
      QuoteEscaped(v, 1);
    }
    if e == [COLON] {
      assert text[..2] == [COLON, QUOTE];
    }
    if [COLON, QUOTE] <= text {
      assert text[0] == COLON && text[1] == QUOTE;
    }
  }

  /** From the closing quote of a value to the next field. */
  lemma CommaSeek(fs: seq<Field>, key: seq<Byte>)
    requires fs != [] && KeysOK(fs) && PlainKey(key)
    ensures Seek([QUOTE] + ([COMMA] + Members(fs)), key) ==
            if key == [COMMA] && fs[0].key == [COLON] then 0 else 2 + Seek(Members(fs), key)
  {
    var k := fs[0].key;
    var rest := MembersStart(fs);
    CommaText(k + rest);
    QuotedSeek([COMMA], k + rest, key);
    ColonKey(k, rest);
  }

  lemma MembersStart(fs: seq<Field>) returns (rest: seq<Byte>)
    requires fs != []
    ensures Members(fs) == [QUOTE] + (fs[0].key + rest) && rest != [] && rest[0] == QUOTE
  {
    var after := if |fs| == 1 then [CLOSE] else [COMMA] + Members(fs[1..]);
    rest := [QUOTE] + ([COLON] + ([QUOTE] + Escape(fs[0].value) + ([QUOTE] + after)));
    Joins([QUOTE], fs[0].key, rest);
  }

  lemma CommaText(m: seq<Byte>)
    ensures [QUOTE] + ([COMMA] + ([QUOTE] + m)) == [QUOTE] + [COMMA] + ([QUOTE] + m)
  {
  }

  lemma ColonKey(k: seq<Byte>, rest: seq<Byte>)
    requires QUOTE !in k && rest != [] && rest[0] == QUOTE
    ensures [COLON, QUOTE] <= k + rest <==> k == [COLON]
  {
    var text := k + rest;
    FirstQuoteAt(k, rest);
    if k == [COLON] {
      assert text[..2] == [COLON, QUOTE];
    }
    if [COLON, QUOTE] <= text {
      assert text == [COLON] + text[1..];
      FirstQuoteAt([COLON], text[1..]);
      assert k == text[..1];
    }
  }

  /** The extractor stops at the first field of that name exactly if no punctuation before it
      reads like the key. */
  lemma {:induction false} MembersSeek(fs: seq<Field>, key: seq<Byte>)
    requires fs != [] && KeysOK(fs) && PlainKey(key)
    ensures Seek(Members(fs), key) <= Offset(fs, key)
    ensures Seek(Members(fs), key) == Offset(fs, key) <==> Clear(fs, key)
    decreases |fs|
  {
    var f := fs[0];
    var after := if |fs| == 1 then [CLOSE] else [COMMA] + Members(fs[1..]);
    if f.key == key {
      HereSeek(f, after);
    } else {
      FieldSeek(f, after, key);
      TextAfter(f, after);
      if |fs| == 1 {
        NoQuoteNoMatch([QUOTE, CLOSE], key);
      } else {
        CommaSeek(fs[1..], key);
        MembersSeek(fs[1..], key);
      }
    }
  }

  lemma HereSeek(f: Field, after: seq<Byte>)
    requires PlainKey(f.key)
    ensures Seek(FieldText(f, after), f.key) == 0
  {
    var more := [COLON] + ([QUOTE] + Escape(f.value) + ([QUOTE] + after));
    assert more[..2] == [COLON, QUOTE];
    QuotedSeek(f.key, more, f.key);
  }

  lemma FieldHere(f: Field, after: seq<Byte>)
    requires PlainKey(f.key)
    ensures FieldText(f, after) == Pattern(f.key) + Body(f.value, [QUOTE] + after)
  {
    PatternWhole(f.key);
  }

  lemma MembersCons(fs: seq<Field>)
    requires |fs| > 1
    ensures Members(fs) == (FieldText(fs[0], []) + [COMMA]) + Members(fs[1..])
  {
    var m := Members(fs[1..]);
    TextAfter(fs[0], [COMMA] + m);
    Joins(FieldText(fs[0], []), [COMMA], m);
  }

  /** What is in front of the value of the first field named key, and what is after it. */
  lemma {:induction false} FieldPlace(fs: seq<Field>, key: seq<Byte>) returns (front: seq<Byte>, tail: seq<Byte>)
    requires PlainKey(key) && FirstNamed(fs, key) < |fs|
    ensures Members(fs) == front + Body(fs[FirstNamed(fs, key)].value, tail)
    ensures |front| == Offset(fs, key) + |Pattern(key)| && Closes(tail)
    decreases |fs|
  {
    if fs[0].key == key {
      var after := if |fs| == 1 then [CLOSE] else [COMMA] + Members(fs[1..]);
      front, tail := Pattern(key), [QUOTE] + after;
      FieldHere(fs[0], after);
    } else {
      var near;
      near, tail := FieldPlace(fs[1..], key);
      MembersCons(fs);
      front := FieldText(fs[0], []) + [COMMA] + near;
      Joins(FieldText(fs[0], []) + [COMMA], near, Body(fs[FirstNamed(fs, key)].value, tail));
    }
  }

  lemma {:induction false} OffsetMissing(fs: seq<Field>, key: seq<Byte>)
    requires fs != []
    ensures Offset(fs, key) <= |Members(fs)| <==> FirstNamed(fs, key) < |fs|
    ensures FirstNamed(fs, key) == |fs| ==> Offset(fs, key) == |Members(fs)| + 1
    decreases |fs|
  {
    if fs[0].key != key && |fs| > 1 {
      OffsetMissing(fs[1..], key);
      MembersCons(fs);
    }
  }

  lemma ExtractAt(json: seq<Byte>, front: seq<Byte>, key: seq<Byte>, body: seq<Byte>, outsz: nat)
    requires json == front + body && Seek(json, key) + |Pattern(key)| == |front| && outsz > 0
    ensures Extracted(json, key, outsz) == TelegramJson.Decode(body, outsz - 1)
  {
    assert json[|front|..] == body;
  }

  /** What the extractor gives back from an object: the first field of that name, or nothing. */
  lemma ObjectExtract(fs: seq<Field>, key: seq<Byte>, outsz: nat)
    requires KeysOK(fs) && PlainKey(key) && Clear(fs, key) && outsz > 0
    ensures var n := FirstNamed(fs, key);
            && (Seek(Object(fs), key) <= |Object(fs)| <==> n < |fs|)
            && Extracted(Object(fs), key, outsz) == if n == |fs| then [] else Take(Kept(fs[n].value), outsz - 1)
  {
    if fs == [] {
      NoQuoteNoMatch(Object(fs), key);
    } else {
      ObjectSeek(fs, key);
      OffsetMissing(fs, key);
      if FirstNamed(fs, key) < |fs| {
        var front, tail := FieldPlace(fs, key);
        ReadBehind(Members(fs), front, key, fs[FirstNamed(fs, key)].value, tail, outsz);
      }
    }
  }

  lemma ReadBehind(m: seq<Byte>, front: seq<Byte>, key: seq<Byte>, value: seq<Byte>, tail: seq<Byte>, outsz: nat)
    requires m == front + Body(value, tail) && Closes(tail) && outsz > 0
    requires Seek([OPEN] + m, key) + |Pattern(key)| == 1 + |front|
    ensures Extracted([OPEN] + m, key, outsz) == Take(Kept(value), outsz - 1)
  {
    var json, body := [OPEN] + m, Body(value, tail);
    Joins([OPEN], front, body);
    DecodeEscape(value, tail, outsz - 1);
    ExtractAt(json, [OPEN] + front, key, body, outsz);
  }

  /** The same from the brace on. */
  lemma ObjectSeek(fs: seq<Field>, key: seq<Byte>)
    requires fs != [] && KeysOK(fs) && PlainKey(key)
    ensures Seek(Object(fs), key) == 1 + Offset(fs, key) <==> Clear(fs, key)
  {
    PlainSkipped([OPEN], Members(fs), key);
    MembersSeek(fs, key);
  }

  /** Only the keys `:` and `,` can be mistaken. */
  lemma {:induction false} OtherKeysClear(fs: seq<Field>, key: seq<Byte>)
    requires key != [COLON] && key != [COMMA]
    ensures Clear(fs, key)
    decreases |fs|
  {
    if fs != [] && fs[0].key != key {
      OtherKeysClear(fs[1..], key);
    }
  }

  lemma OneEscaped(c: Byte)
    ensures Escape([c]) == EscapeOne(c)
  {
    assert [c][1..] == [];
    assert Escape([c]) == EscapeOne(c) + Escape([]);
  }

  /** The text of a field whose value is `:`, when another quote comes after it. */
  lemma ColonText(key: seq<Byte>, m: seq<Byte>)
    requires m != [] && m[0] == QUOTE
    ensures [OPEN] + FieldText(Field(key, [COLON]), [COMMA] + m)
         == ([OPEN, QUOTE] + key) + Pattern([COLON]) + Body([COMMA], m)
  {
    PatternWhole([COLON]);
    OneEscaped(COLON);
    OneEscaped(COMMA);
  }

  /** In {"a":":",":":"b"} the value `:` is taken for the key `:`, and a comma is read. */
  lemma ColonMistaken()
    ensures var fs := [Field([97], [COLON]), Field([COLON], [98])];
            && KeysOK(fs) && FirstNamed(fs, [COLON]) == 1
            && Extracted(Object(fs), [COLON], 10) == [COMMA] && Kept(fs[1].value) == [98]
  {
    var f, key := Field([97], [COLON]), [COLON];
    var fs := [f, Field(key, [98])];
    var m := Members(fs[1..]);
    OneEscaped(COLON);
    FieldSeek(f, [COMMA] + m, key);
    PlainSkipped([OPEN], Members(fs), key);
    ColonText(f.key, m);
    ExtractAt(Object(fs), [OPEN, QUOTE] + f.key + Pattern(key), key, Body([COMMA], m), 10);
    DecodeEscape([COMMA], m, 9);
    assert Kept([COMMA]) == [COMMA] && Kept([98]) == [98];
  }

  /* ---- the payloads the bot builds ---- */

  /** The bytes of a literal. */
  function Ascii(s: string): (r: seq<Byte>)
    requires forall i :: 0 <= i < |s| ==> s[i] < 128 as char
    ensures |r| == |s| && forall i :: 0 <= i < |s| ==> r[i] == s[i] as int
  {
    seq(|s|, i requires 0 <= i < |s| => s[i] as int)
  }

  /** Text split at its quotes: each part is followed by one. */
  function Spell(parts: seq<seq<Byte>>, rest: seq<Byte>): seq<Byte> {
    if parts == [] then rest else parts[0] + ([QUOTE] + Spell(parts[1..], rest))
  }

  /** None of the parts is the key before a colon. */
  ghost predicate NoKey(parts: seq<seq<Byte>>, key: seq<Byte>) {
    && (forall i :: 0 <= i < |parts| ==> QUOTE !in parts[i])
    && (forall i :: 0 <= i < |parts| && parts[i] == key ==> i + 1 < |parts| && parts[i + 1] != [COLON])
  }

  lemma {:induction false} SpellSeek(parts: seq<seq<Byte>>, rest: seq<Byte>, key: seq<Byte>)
    requires NoKey(parts, key) && PlainKey(key)
    ensures Seek([QUOTE] + Spell(parts, rest), key) == |Spell(parts, [])| + Seek([QUOTE] + rest, key)
    ensures |Spell(parts, rest)| == |Spell(parts, [])| + |rest|
    decreases |parts|
  {
    if parts != [] {
      var more := Spell(parts[1..], rest);
      forall i | 0 <= i < |parts[1..]| && parts[1..][i] == key ensures i + 1 < |parts[1..]|
          && parts[1..][i + 1] != [COLON] {
        assert parts[i + 1] == key;
      }
      SpellSeek(parts[1..], rest, key);
      QuotedSeek(parts[0], more, key);
      assert [QUOTE] + parts[0] + ([QUOTE] + more) == [QUOTE] + Spell(parts, rest);
      if |parts| > 1 {
        ColonKey(parts[1], [QUOTE] + Spell(parts[2..], rest));
      }
    }
  }

  lemma {:induction false} SpellAppend(a: seq<seq<Byte>>, b: seq<seq<Byte>>, rest: seq<Byte>)
    ensures Spell(a + b, rest) == Spell(a, []) + Spell(b, rest)
    decreases |a|
  {
    if a == [] {
      assert a + b == b;
    } else {
      assert (a + b)[1..] == a[1..] + b;
      SpellAppend(a[1..], b, rest);
    }
  }

  /** Up to the opening quote of the value of a key that no part before it looks like. */
  function Head(parts: seq<seq<Byte>>, key: seq<Byte>): seq<Byte> {
    [OPEN, QUOTE] + Spell(parts, []) + (key + [QUOTE, COLON, QUOTE])
  }

  lemma HeadExtract(parts: seq<seq<Byte>>, key: seq<Byte>, body: seq<Byte>, outsz: nat)
    requires NoKey(parts, key) && PlainKey(key) && outsz > 0
    ensures Extracted(Head(parts, key) + body, key, outsz) == TelegramJson.Decode(body, outsz - 1)
  {
    HeadSeek(parts, key, body);
    PatternWhole(key);
    ExtractAt(Head(parts, key) + body, Head(parts, key), key, body, outsz);
  }

  lemma HeadSeek(parts: seq<seq<Byte>>, key: seq<Byte>, body: seq<Byte>)
    requires NoKey(parts, key) && PlainKey(key)
    ensures Seek(Head(parts, key) + body, key) == 1 + |Spell(parts, [])|
  {
    var rest := key + ([QUOTE] + ([COLON, QUOTE] + body));
    HeadText(parts, key, body);
    PlainSkipped([OPEN], [QUOTE] + Spell(parts, rest), key);
    SpellSeek(parts, rest, key);
    KeySeek(key, body);
  }

  lemma KeySeek(key: seq<Byte>, body: seq<Byte>)
    requires PlainKey(key)
    ensures Seek([QUOTE] + (key + ([QUOTE] + ([COLON, QUOTE] + body))), key) == 0
  {
    var more := [COLON, QUOTE] + body;
    QuotedSeek(key, more, key);
    Joins([QUOTE], key, [QUOTE] + more);
  }

  lemma HeadText(parts: seq<seq<Byte>>, key: seq<Byte>, body: seq<Byte>)
    ensures Head(parts, key) + body == [OPEN] + ([QUOTE] + Spell(parts, key + ([QUOTE] + ([COLON, QUOTE] + body))))
  {
    var rest := key + ([QUOTE] + ([COLON, QUOTE] + body));
    var open, spelled, name := [OPEN, QUOTE], Spell(parts, []), key + [QUOTE, COLON, QUOTE];
    SpellAppend(parts, [], rest);
    assert parts + [] == parts;
    KeyText(key, body);
    Joins(open + spelled, name, body);
    Joins(open, spelled, name + body);
    assert open == [OPEN] + [QUOTE];
    Joins([OPEN], [QUOTE], spelled + rest);
  }

  lemma KeyText(key: seq<Byte>, body: seq<Byte>)
    ensures key + [QUOTE, COLON, QUOTE] + body == key + ([QUOTE] + ([COLON, QUOTE] + body))
  {
  }

  /** What a buffer of that size holds: the head, as many escapes of s as fit, and the close if there is room. */
  function Payload(head: seq<Byte>, s: seq<Byte>, close: seq<Byte>, size: nat): seq<Byte>
    requires |head| < size
  {
    var text := head + Escape(s[..Fitting(s, size - |head|)]);
    if |text| + |close| < size then text + close else text
  }

  /** snprintf() or strcpy() of s at index `at`. */
  method PutText(out: array<Byte>, at: nat, s: seq<Byte>)
    requires at + |s| < out.Length
    modifies out
    ensures out[..at + |s|] == old(out[..at]) + s && out[at + |s|] == 0
  {
    forall i | 0 <= i < |s| {
      out[at + i] := s[i];
    }
    out[at + |s|] := 0;
  }

  method BuildPayload(payload: array<Byte>, head: seq<Byte>, s: seq<Byte>, close: seq<Byte>) returns (pos: nat)
    requires |head| < payload.Length
    modifies payload
    ensures pos < payload.Length && payload[pos] == 0
    ensures payload[..pos] == Payload(head, s, close, payload.Length)
  {
    PutText(payload, 0, head);
    assert payload[..|head|] == head;
    pos := JsonEscapeAppend(payload, |head|, s);
    if pos + |close| < payload.Length {
      PutText(payload, pos, close);
      pos := pos + |close|;
    }
  }

  /** {"chat_id":...,"text":" */
  function MessageHead(chatId: seq<Byte>): seq<Byte> {
    Head([Ascii("chat_id"), [COLON] + chatId + [COMMA]], Ascii("text"))
  }

  const MESSAGE_CLOSE: seq<Byte> := [QUOTE, CLOSE]

  /** What the extractor reads back from the message the bot sends, cut short or not. */
  lemma MessageExtract(chatId: seq<Byte>, s: seq<Byte>, size: nat, outsz: nat)
    requires QUOTE !in chatId && |MessageHead(chatId)| < size && outsz > 0
    ensures var sent := s[..Fitting(s, size - |MessageHead(chatId)|)];
            Extracted(Payload(MessageHead(chatId), s, MESSAGE_CLOSE, size), Ascii("text"), outsz)
            == Take(Kept(sent), outsz - 1)
  {
    var parts := [Ascii("chat_id"), [COLON] + chatId + [COMMA]];
    var sent := s[..Fitting(s, size - |MessageHead(chatId)|)];
    var text := MessageHead(chatId) + Escape(sent);
    var tail := if |text| + 2 < size then MESSAGE_CLOSE else [];
    assert Payload(MessageHead(chatId), s, MESSAGE_CLOSE, size) == MessageHead(chatId) + Body(sent, tail);
    assert parts[1][0] == COLON;
    HeadExtract(parts, Ascii("text"), Body(sent, tail), outsz);
    DecodeEscape(sent, tail, outsz - 1);
  }

  /** {"model":"...","messages":[{"role":"system","content":"...  and so on, its first `content` cut at the colon */
  function ChatHead(model: seq<Byte>, prompt: seq<Byte>): seq<Byte> {
    Head(ChatParts(model), Ascii("content")) + ChatRest(prompt)
  }

  function ChatParts(model: seq<Byte>): seq<seq<Byte>> {
    [Ascii("model"), [COLON], model, [COMMA], Ascii("messages"), Ascii(":[{"),
     Ascii("role"), [COLON], Ascii("system"), [COMMA]]
  }

  function ChatRest(prompt: seq<Byte>): seq<Byte> {
    Spell([prompt, Ascii("},{"), Ascii("role"), [COLON], Ascii("user"), [COMMA], Ascii("content"), [COLON]], [])
  }

  lemma {:induction false} DecodePlain(s: seq<Byte>, tail: seq<Byte>, cap: nat)
    requires QUOTE !in s && BACKSLASH !in s && tail != [] && tail[0] == QUOTE
    ensures TelegramJson.Decode(s + tail, cap) == Take(s, cap)
  {
    if s == [] {
      assert s + tail == tail;
    } else if cap > 0 {
      assert (s + tail)[1..] == s[1..] + tail;
      DecodePlain(s[1..], tail, cap - 1);
      TakeCons(s[0], s[1..], cap);
      assert s == [s[0]] + s[1..];
    }
  }

  /** The request to the model has two fields named content: the extractor reads back the prompt,
      whatever the user wrote. */
  lemma ChatExtract(model: seq<Byte>, prompt: seq<Byte>, user: seq<Byte>, close: seq<Byte>, size: nat, outsz: nat)
    requires QUOTE !in model && QUOTE !in prompt && BACKSLASH !in prompt
    requires |ChatHead(model, prompt)| < size && outsz > 0
    ensures Extracted(Payload(ChatHead(model, prompt), user, close, size), Ascii("content"), outsz)
            == Take(prompt, outsz - 1)
  {
    var more := PayloadStarts(ChatHead(model, prompt), user, close, size);
    var rest := ChatStart(prompt);
    var head := Head(ChatParts(model), Ascii("content"));
    Joins(head, prompt + rest, more);
    Joins(prompt, rest, more);
    ChatNoKey(model);
    HeadExtract(ChatParts(model), Ascii("content"), prompt + (rest + more), outsz);
    DecodePlain(prompt, rest + more, outsz - 1);
  }

  lemma PayloadStarts(head: seq<Byte>, s: seq<Byte>, close: seq<Byte>, size: nat) returns (more: seq<Byte>)
    requires |head| < size
    ensures Payload(head, s, close, size) == head + more
  {
    more := Payload(head, s, close, size)[|head|..];
  }

  lemma ChatStart(prompt: seq<Byte>) returns (rest: seq<Byte>)
    ensures ChatRest(prompt) == prompt + rest && rest != [] && rest[0] == QUOTE
  {
    rest := ChatRest(prompt)[|prompt|..];
  }

  lemma ChatNoKey(model: seq<Byte>)
    requires QUOTE !in model
    ensures NoKey(ChatParts(model), Ascii("content"))
  {
  }
}
