/** truncate_utf8() of telegram_groq_bot.c:226-237. */
module TelegramUtf8 {
  import opened Bytes

  /** (c & 0xC0) == 0x80 */
  predicate Continuation(c: Byte) {
    128 <= c < 192
  }

  /** An encoded character: one leading byte, then continuation bytes, whose two top bits are 1 and 0. */
  ghost predicate IsChar(c: seq<Byte>) {
    c != [] && c[0] / 64 != 2 && forall i :: 0 < i < |c| ==> c[i] / 64 == 2
  }

  function Join(cs: seq<seq<Byte>>): seq<Byte> {
    if cs == [] then [] else cs[0] + Join(cs[1..])
  }

  /** How many whole characters fit in max bytes. */
  function WholeFit(cs: seq<seq<Byte>>, max: nat): (k: nat)
    ensures k <= |cs|
  {
    if cs == [] || |cs[0]| > max then 0 else 1 + WholeFit(cs[1..], max - |cs[0]|)
  }

  /** Where the loop that steps back from `cut` stops. */
  function StepBack(s: seq<Byte>, cut: nat): (r: nat)
    requires cut < |s|
    ensures r <= cut && (r == 0 || !Continuation(s[r]))
    ensures forall i :: r < i <= cut ==> Continuation(s[i])
  {
    if cut > 0 && Continuation(s[cut]) then StepBack(s, cut - 1) else cut
  }

  /** What is left of s. */
  function Truncated(s: seq<Byte>, max: nat): seq<Byte> {
    if |s| <= max then s else s[..StepBack(s, max)]
  }

  lemma StepBackStop(s: seq<Byte>, cut: nat, at: nat)
    requires at <= cut < |s| && !Continuation(s[at])
    requires forall i :: at < i <= cut ==> Continuation(s[i])
    ensures StepBack(s, cut) == at
  {
    if at < cut {
      StepBackStop(s, cut - 1, at);
    }
  }

  /** Shifting by a first character. */
  lemma StepBackShift(c: seq<Byte>, rest: seq<Byte>, cut: nat)
    requires |c| <= cut < |c| + |rest| && rest != [] && !Continuation(rest[0])
    ensures StepBack(c + rest, cut) == |c| + StepBack(rest, cut - |c|)
  {
    var r := StepBack(rest, cut - |c|);
    var s := c + rest;
    assert s[|c| + r] == rest[r];
    forall i | |c| + r < i <= cut ensures Continuation(s[i]) {
      assert s[i] == rest[i - |c|];
    }
    StepBackStop(s, cut, |c| + r);
  }

  lemma JoinStarts(cs: seq<seq<Byte>>)
    requires cs != [] && IsChar(cs[0])
    ensures Join(cs) != [] && Join(cs)[0] == cs[0][0]
  {
  }

  /** The first character does not fit. */
  lemma CutsAll(c: seq<Byte>, rest: seq<Byte>, max: nat)
    requires IsChar(c) && |c| > max
    ensures Truncated(c + rest, max) == []
  {
    var s := c + rest;
    assert s[0] == c[0];
    forall i | 0 < i <= max ensures Continuation(s[i]) {
      assert s[i] == c[i];
    }
    StepBackStop(s, max, 0);
    assert s[..0] == [];
  }

  /** The first character fits: the cut is made in the rest. */
  lemma CutsRest(c: seq<Byte>, rest: seq<Byte>, max: nat)
    requires |c| <= max && (rest != [] ==> !Continuation(rest[0]))
    ensures Truncated(c + rest, max) == c + Truncated(rest, max - |c|)
  {
    if |c + rest| > max {
      StepBackShift(c, rest, max);
      var r := StepBack(rest, max - |c|);
      assert (c + rest)[..|c| + r] == c + rest[..r];
    }
  }

  /** Text made of whole characters stays so: the cut keeps as many of them as fit, and no part of
      the next one. */
  lemma {:induction false} CutsWholeChars(cs: seq<seq<Byte>>, max: nat)
    requires forall i :: 0 <= i < |cs| ==> IsChar(cs[i])
    ensures Truncated(Join(cs), max) == Join(cs[..WholeFit(cs, max)])
    decreases |cs|
  {
    if cs == [] {
    } else if |cs[0]| > max {
      CutsAll(cs[0], Join(cs[1..]), max);
      assert cs[..0] == [];
    } else {
      CutsWholeChars(cs[1..], max - |cs[0]|);
      var k := WholeFit(cs[1..], max - |cs[0]|);
      assert cs[..k + 1][1..] == cs[1..][..k];
      if cs[1..] != [] {
        JoinStarts(cs[1..]);
      }
      CutsRest(cs[0], Join(cs[1..]), max);
    }
  }

  /** The text is the first len bytes of s, then a NUL. */
  method TruncateUtf8(s: array<Byte>, len: nat, max: nat) returns (newLen: nat)
    requires len < s.Length && s[len] == 0
    modifies s
    ensures newLen <= len && s[newLen] == 0 && s[..newLen] == Truncated(old(s[..len]), max)
    ensures len <= max ==> newLen == len
  {
    if len <= max {
      return len;
    }
    var cut := max;
    ghost var text := s[..len];
    while cut > 0 && Continuation(s[cut])
      invariant 0 <= cut <= max && StepBack(text, max) == StepBack(text, cut)
    {
      cut := cut - 1;
    }
    s[cut] := 0;
    return cut;
  }
}
