/** normalize_path() of https_crawler.c:130-166. */
module CrawlerPath {
  import opened Bytes
  import opened CrawlerUrl

  const TMP_SIZE: nat := 820
  const MAX_SEGS: nat := 64
  const DOT: Byte := 46

  type Segments = seq<Text>

  /** The token at the front of s, as strtok_r() with "/" delivers it. */
  function TokenLen(s: Text): (n: nat)
    ensures n <= |s| && SLASH !in s[..n] && (n < |s| ==> s[n] == SLASH)
  {
    if s == [] || s[0] == SLASH then 0
    else
      var n := 1 + TokenLen(s[1..]);
      assert s[..n] == [s[0]] + s[1..][..n - 1];
      n
  }

  /** The tokens of s: what is between slashes, empty stretches left out. */
  function Tokens(s: Text): Segments
    decreases |s|
  {
    if s == [] then []
    else if s[0] == SLASH then Tokens(s[1..])
    else [s[..TokenLen(s)]] + Tokens(s[TokenLen(s)..])
  }

  /** The loop over tokens; it stops for good once there are 64 segments. */
  function Collect(toks: Segments, segs: Segments): Segments
    decreases |toks|
  {
    if toks == [] || |segs| >= MAX_SEGS then segs
    else if toks[0] == [DOT] then Collect(toks[1..], segs)
    else if toks[0] == [DOT, DOT] then Collect(toks[1..], if segs == [] then segs else segs[..|segs| - 1])
    else Collect(toks[1..], segs + [toks[0]])
  }

  /** Each segment after a slash. */
  function Slashed(segs: Segments): Text {
    if segs == [] then [] else [SLASH] + segs[0] + Slashed(segs[1..])
  }

  /** How many segments fit in a buffer with `room` bytes left, one being for the NUL. */
  function FitSegs(segs: Segments, room: nat): (k: nat)
    ensures k <= |segs|
  {
    if segs == [] || 1 + |segs[0]| + 1 > room then 0 else 1 + FitSegs(segs[1..], room - 1 - |segs[0]|)
  }

  function Emit(segs: Segments, outsz: nat): Text {
    var body := Slashed(segs[..FitSegs(segs, outsz)]);
    if body == [] then [SLASH] else body
  }

  function Normalize(s: Text, outsz: nat): Text {
    Emit(Collect(Tokens(Truncated(s, TMP_SIZE)), []), outsz)
  }

  /** A segment that normalising keeps. */
  ghost predicate Plain(t: Text) {
    t != [] && SLASH !in t && t != [DOT] && t != [DOT, DOT]
  }

  ghost predicate AllPlain(segs: Segments) {
    forall i :: 0 <= i < |segs| ==> Plain(segs[i])
  }

  ghost predicate AllTokens(toks: Segments) {
    forall i :: 0 <= i < |toks| ==> toks[i] != [] && SLASH !in toks[i]
  }

  lemma {:induction false} TokensOK(s: Text)
    ensures AllTokens(Tokens(s))
    decreases |s|
  {
    if s == [] {
    } else if s[0] == SLASH {
      TokensOK(s[1..]);
    } else {
      TokensOK(s[TokenLen(s)..]);
    }
  }

  lemma {:induction false} CollectPlain(toks: Segments, segs: Segments)
    requires AllTokens(toks) && AllPlain(segs) && |segs| <= MAX_SEGS
    ensures AllPlain(Collect(toks, segs)) && |Collect(toks, segs)| <= MAX_SEGS
    decreases |toks|
  {
    if toks == [] || |segs| >= MAX_SEGS {
    } else if toks[0] == [DOT] {
      CollectPlain(toks[1..], segs);
    } else if toks[0] == [DOT, DOT] {
      CollectPlain(toks[1..], if segs == [] then segs else segs[..|segs| - 1]);
    } else {
      CollectPlain(toks[1..], segs + [toks[0]]);
    }
  }

  lemma {:induction false} TokenLenIs(t: Text, rest: Text)
    requires SLASH !in t && (rest == [] || rest[0] == SLASH)
    ensures TokenLen(t + rest) == |t|
    decreases |t|
  {
    if t == [] {
      assert t + rest == rest;
    } else {
      assert (t + rest)[0] == t[0] && (t + rest)[1..] == t[1..] + rest;
      TokenLenIs(t[1..], rest);
    }
  }

  lemma {:induction false} TokensOfSlashed(segs: Segments)
    requires AllPlain(segs)
    ensures Tokens(Slashed(segs)) == segs
    decreases |segs|
  {
    if segs != [] {
      var t, rest := segs[0], Slashed(segs[1..]);
      assert Slashed(segs)[1..] == t + rest;
      TokenLenIs(t, rest);
      assert (t + rest)[..|t|] == t && (t + rest)[|t|..] == rest;
      TokensOfSlashed(segs[1..]);
    }
  }

  /** Segments already normal are collected unchanged. */
  lemma {:induction false} CollectAll(toks: Segments, segs: Segments)
    requires AllPlain(toks) && |segs| + |toks| <= MAX_SEGS
    ensures Collect(toks, segs) == segs + toks
    decreases |toks|
  {
    if toks == [] {
      assert segs + toks == segs;
    } else {
      CollectAll(toks[1..], segs + [toks[0]]);
      assert (segs + [toks[0]]) + toks[1..] == segs + toks;
    }
  }

  /** The segments that fitted fit again, all of them. */
  lemma {:induction false} FitAgain(segs: Segments, room: nat)
    ensures var k := FitSegs(segs, room); FitSegs(segs[..k], room) == k && |Slashed(segs[..k])| < room + 1
    ensures FitSegs(segs, room) > 0 ==> |Slashed(segs[..FitSegs(segs, room)])| + 1 <= room
    decreases |segs|
  {
    var k := FitSegs(segs, room);
    if k > 0 {
      FitAgain(segs[1..], room - 1 - |segs[0]|);
      assert segs[..k][1..] == segs[1..][..k - 1];
    } else {
      assert segs[..0] == [];
    }
  }

  /** What normalising printed, normalising leaves alone. */
  lemma Idempotent(s: Text, outsz: nat)
    requires 2 <= outsz <= TMP_SIZE
    ensures Normalize(Normalize(s, outsz), outsz) == Normalize(s, outsz)
    ensures |Normalize(s, outsz)| < outsz && Normalize(s, outsz)[0] == SLASH
  {
    var toks := Tokens(Truncated(s, TMP_SIZE));
    TokensOK(Truncated(s, TMP_SIZE));
    CollectPlain(toks, []);
    EmitIdempotent(Collect(toks, []), outsz);
  }

  lemma EmitIdempotent(segs: Segments, outsz: nat)
    requires AllPlain(segs) && |segs| <= MAX_SEGS && 2 <= outsz <= TMP_SIZE
    ensures |Emit(segs, outsz)| < outsz && Emit(segs, outsz)[0] == SLASH
    ensures Normalize(Emit(segs, outsz), outsz) == Emit(segs, outsz)
  {
    var k := FitSegs(segs, outsz);
    var kept := segs[..k];
    FitAgain(segs, outsz);
    TokensOfSlashed(kept);
    CollectAll(kept, []);
    assert [] + kept == kept && kept[..k] == kept;
    if k == 0 {
      assert Tokens([SLASH]) == Tokens([SLASH][1..]);
    }
  }

  /* ---- where a path leads ---- */

  /** Where the steps of toks lead from directory d: `.` stays, `..` goes to the parent, a name to a child. */
  function Follow<D>(toks: Segments, d: D, child: (D, Text) -> D, parent: D -> D): D {
    if toks == [] then d
    else if toks[0] == [46] then Follow(toks[1..], d, child, parent)
    else if toks[0] == [46, 46] then Follow(toks[1..], parent(d), child, parent)
    else Follow(toks[1..], child(d, toks[0]), child, parent)
  }

  lemma {:induction false} FollowAppend<D>(a: Segments, b: Segments, d: D, child: (D, Text) -> D, parent: D -> D)
    ensures Follow(a + b, d, child, parent) == Follow(b, Follow(a, d, child, parent), child, parent)
    decreases |a|
  {
    if a == [] {
      assert a + b == b;
    } else {
      assert (a + b)[1..] == a[1..] + b;
      var next := if a[0] == [46] then d else if a[0] == [46, 46] then parent(d) else child(d, a[0]);
      FollowAppend(a[1..], b, next, child, parent);
    }
  }

  lemma FollowOne<D>(front: Segments, t: Text, d: D, child: (D, Text) -> D, parent: D -> D)
    requires Plain(t)
    ensures Follow(front + [t], d, child, parent) == child(Follow(front, d, child, parent), t)
  {
    var one: Segments := [t];
    FollowAppend(front, one, d, child, parent);
    assert one[1..] == [];
    assert Follow(one[1..], child(Follow(front, d, child, parent), t), child, parent)
        == child(Follow(front, d, child, parent), t);
  }

  /** Steps collected after segs lead where they did. */
  lemma {:induction false} CollectLeads<D(!new)>(toks: Segments, segs: Segments, root: D, child: (D, Text) -> D,
                                                 parent: D -> D)
    requires AllTokens(toks) && AllPlain(segs) && |segs| + |toks| <= 64
    requires parent(root) == root && forall d, n :: parent(child(d, n)) == d
    ensures Follow(Collect(toks, segs), root, child, parent)
            == Follow(toks, Follow(segs, root, child, parent), child, parent)
    decreases |toks|
  {
    if toks == [] {
    } else if toks[0] == [DOT] {
      CollectLeads(toks[1..], segs, root, child, parent);
    } else if toks[0] == [DOT, DOT] {
      if segs != [] {
        assert segs == segs[..|segs| - 1] + [segs[|segs| - 1]];
        FollowOne(segs[..|segs| - 1], segs[|segs| - 1], root, child, parent);
        CollectLeads(toks[1..], segs[..|segs| - 1], root, child, parent);
      } else {
        CollectLeads(toks[1..], segs, root, child, parent);
      }
    } else {
      FollowOne(segs, toks[0], root, child, parent);
      CollectLeads(toks[1..], segs + [toks[0]], root, child, parent);
    }
  }

  /** The tokens written out again are no longer than the text, but for the slash in front. */
  lemma {:induction false} TokensShort(s: Text)
    ensures |Slashed(Tokens(s))| <= |s| + if s == [] || s[0] == SLASH then 0 else 1
    decreases |s|
  {
    if s == [] {
    } else if s[0] == SLASH {
      TokensShort(s[1..]);
    } else {
      TokensShort(s[TokenLen(s)..]);
      assert Tokens(s)[1..] == Tokens(s[TokenLen(s)..]);
    }
  }

  /** Collecting only drops. */
  lemma {:induction false} CollectShort(toks: Segments, segs: Segments)
    ensures |Slashed(Collect(toks, segs))| <= |Slashed(segs)| + |Slashed(toks)|
    decreases |toks|
  {
    if toks == [] || |segs| >= MAX_SEGS {
    } else if toks[0] == [DOT] {
      CollectShort(toks[1..], segs);
    } else if toks[0] == [DOT, DOT] {
      if segs != [] {
        assert segs == segs[..|segs| - 1] + [segs[|segs| - 1]];
        SlashedAppend(segs[..|segs| - 1], [segs[|segs| - 1]]);
      }
      CollectShort(toks[1..], if segs == [] then segs else segs[..|segs| - 1]);
    } else {
      var one: Segments := [toks[0]];
      SlashedAppend(segs, one);
      assert one[1..] == [];
      assert Slashed(one) == [SLASH] + toks[0] + Slashed([]);
      CollectShort(toks[1..], segs + one);
    }
  }

  lemma {:induction false} FitsAll(segs: Segments, room: nat)
    requires |Slashed(segs)| + 1 <= room
    ensures FitSegs(segs, room) == |segs|
    decreases |segs|
  {
    if segs != [] {
      FitsAll(segs[1..], room - 1 - |segs[0]|);
    }
  }

  /** The normal form leads to the same directory from the root, in any tree in which the parent of a child is where
      it was entered from and the root its own parent: for any text of at most 64 segments that the buffers hold. */
  lemma SameDirectory<D(!new)>(s: Text, outsz: nat, root: D, child: (D, Text) -> D, parent: D -> D)
    requires |s| < 820 && |s| + 2 <= outsz && |Tokens(s)| <= 64
    requires parent(root) == root && forall d, n :: parent(child(d, n)) == d
    ensures Follow(Tokens(Normalize(s, outsz)), root, child, parent) == Follow(Tokens(s), root, child, parent)
  {
    var toks := Tokens(s);
    var segs := Collect(toks, []);
    TokensOK(s);
    CollectPlain(toks, []);
    CollectLeads(toks, [], root, child, parent);
    TokensShort(s);
    CollectShort(toks, []);
    FitsAll(segs, outsz);
    assert segs[..|segs|] == segs;
    TokensOfSlashed(segs);
    if segs == [] {
      assert Tokens([SLASH]) == Tokens([SLASH][1..]);
    }
  }

  /** And its segments are names, none of them `.` or `..`. */
  lemma NamesOnly(s: Text, outsz: nat)
    requires outsz >= 2
    ensures forall i :: 0 <= i < |Tokens(Normalize(s, outsz))| ==>
              Tokens(Normalize(s, outsz))[i] != [46] && Tokens(Normalize(s, outsz))[i] != [46, 46]
  {
    var toks := Tokens(Truncated(s, TMP_SIZE));
    TokensOK(Truncated(s, TMP_SIZE));
    CollectPlain(toks, []);
    var segs := Collect(toks, []);
    var kept := segs[..FitSegs(segs, outsz)];
    TokensOfSlashed(kept);
    if Slashed(kept) == [] {
      assert Tokens([SLASH]) == Tokens([SLASH][1..]);
    }
  }

  /** The output loop. */
  method EmitLoop(segs: Segments, out: array<Byte>) returns (len: nat)
    requires out.Length >= 2
    modifies out
    ensures len < out.Length && out[len] == 0 && out[..len] == Emit(segs, out.Length)
  {
    len := 0;
    var i := 0;
    while i < |segs|
      invariant 0 <= i <= |segs| && len < out.Length
      invariant out[..len] == Slashed(segs[..i])
      invariant FitSegs(segs, out.Length) == i + FitSegs(segs[i..], out.Length - len)
      invariant i == 0 <==> len == 0
    {
      var seg := segs[i];
      assert segs[i..][0] == seg && segs[i..][1..] == segs[i + 1..];
      if len + 1 + |seg| + 1 > out.Length {
        break;
      }
      SlashedNext(segs, i);
      ghost var before := out[..len];
      len := PutSegment(out, len, seg);
      i := i + 1;
    }
    assert out[..len] == Slashed(segs[..FitSegs(segs, out.Length)]);
    if len == 0 {
      out[0] := SLASH;
      len := 1;
    }
    out[len] := 0;
  }

  lemma {:induction false} SlashedAppend(a: Segments, b: Segments)
    ensures Slashed(a + b) == Slashed(a) + Slashed(b)
    decreases |a|
  {
    if a == [] {
      assert a + b == b;
    } else {
      assert (a + b)[1..] == a[1..] + b;
      SlashedAppend(a[1..], b);
      assert ([SLASH] + a[0]) + (Slashed(a[1..]) + Slashed(b)) == (([SLASH] + a[0]) + Slashed(a[1..])) + Slashed(b);
    }
  }

  lemma SlashedNext(segs: Segments, i: nat)
    requires i < |segs|
    ensures Slashed(segs[..i + 1]) == Slashed(segs[..i]) + ([SLASH] + segs[i])
  {
    assert segs[..i + 1] == segs[..i] + [segs[i]];
    SlashedAppend(segs[..i], [segs[i]]);
    var one: Segments := [segs[i]];
    assert one[1..] == [];
    assert Slashed(one) == [SLASH] + segs[i] + Slashed([]);
  }

  /** out[len++] = '/', then memcpy() of the segment */
  method PutSegment(out: array<Byte>, len: nat, seg: Text) returns (end: nat)
    requires len + 1 + |seg| < out.Length
    modifies out
    ensures end == len + 1 + |seg| && out[..end] == old(out[..len]) + ([SLASH] + seg)
  {
    out[len] := SLASH;
    for i := 0 to |seg|
      invariant out[..len + 1 + i] == old(out[..len]) + ([SLASH] + seg[..i])
    {
      ghost var before := out[..len + 1 + i];
      out[len + 1 + i] := seg[i];
      assert out[..len + 2 + i] == before + [seg[i]];
      assert ([SLASH] + seg[..i]) + [seg[i]] == [SLASH] + seg[..i + 1];
    }
    assert seg[..|seg|] == seg;
    end := len + 1 + |seg|;
  }

  /** The tokenising loop; a token is dropped, or drops its predecessor, or is kept. */
  method CollectLoop(tmp: Text) returns (segs: Segments)
    ensures segs == Collect(Tokens(tmp), [])
  {
    segs := [];
    var p := 0;
    while p < |tmp| && |segs| < MAX_SEGS
      invariant 0 <= p <= |tmp|
      invariant Collect(Tokens(tmp), []) == Collect(Tokens(tmp[p..]), segs)
      decreases |tmp| - p
    {
      ghost var t := tmp[p..];
      if tmp[p] == SLASH {
        assert t[1..] == tmp[p + 1..];
        p := p + 1;
      } else {
        var n := NextToken(tmp, p);
        assert t[n..] == tmp[p + n..] && t[..n] == tmp[p..p + n];
        assert Tokens(t) == [t[..n]] + Tokens(t[n..]);
        segs := AddSegment(segs, tmp[p..p + n], Tokens(tmp[p + n..]));
        p := p + n;
      }
    }
  }

  method NextToken(tmp: Text, p: nat) returns (n: nat)
    requires p < |tmp| && tmp[p] != SLASH
    ensures n == TokenLen(tmp[p..]) && n > 0
  {
    n := 0;
    while p + n < |tmp| && tmp[p + n] != SLASH
      invariant p + n <= |tmp| && TokenLen(tmp[p..]) == n + TokenLen(tmp[p + n..])
    {
      assert tmp[p + n..][0] == tmp[p + n] && tmp[p + n..][1..] == tmp[p + n + 1..];
      n := n + 1;
    }
  }

  /** One turn of the loop, `rest` being the tokens to come. */
  method AddSegment(segs: Segments, tok: Text, ghost rest: Segments) returns (r: Segments)
    requires |segs| < MAX_SEGS
    ensures Collect([tok] + rest, segs) == Collect(rest, r)
  {
    assert ([tok] + rest)[1..] == rest;
    r := segs;
    if tok == [DOT] {
    } else if tok == [DOT, DOT] {
      if |segs| > 0 {
        r := segs[..|segs| - 1];
      }
    } else {
      r := segs + [tok];
    }
  }

  method NormalizePath(s: Text, out: array<Byte>) returns (len: nat)
    requires out.Length >= 2
    modifies out
    ensures len < out.Length && out[len] == 0 && out[..len] == Normalize(s, out.Length)
  {
    var segs := CollectLoop(Truncated(s, TMP_SIZE));
    len := EmitLoop(segs, out);
  }
}
