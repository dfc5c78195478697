/** ext4_shim_getdents() (port/ext4_shim.c:535-604): directory entries packed as musl's struct
    dirent, the entry that no longer fits being pushed back by rewinding next_off. */
module Ext4Getdents {
  import opened Bytes

  type Name = n: seq<Byte> | |n| < 256 && forall i :: 0 <= i < |n| ==> n[i] != 0

  const EINVAL: int := 22
  const ENOTDIR: int := 20
  const HEADER: nat := 19       // d_ino, d_off, d_reclen, d_type
  const INO_MAX: nat := 0x1_0000_0000

  datatype Kind = RegFile | Directory | CharDev | BlockDev | Fifo | Socket | Symlink | OtherKind

  datatype Entry = Entry(inode: nat, kind: Kind, name: Name)

  ghost predicate EntryOK(e: Entry) {
    e.inode < INO_MAX
  }

  /** ext4_shim_dtype() */
  function Dtype(k: Kind): Byte {
    match k
    case RegFile => 8
    case Directory => 4
    case CharDev => 2
    case BlockDev => 6
    case Fifo => 1
    case Socket => 12
    case Symlink => 10
    case OtherKind => 0
  }

  /** What a reader of the type byte understands. */
  function KindOf(d: Byte): Kind {
    if d == 8 then RegFile else if d == 4 then Directory else if d == 2 then CharDev else if d == 6 then BlockDev
    else if d == 1 then Fifo else if d == 12 then Socket else if d == 10 then Symlink else OtherKind
  }

  function RecLen(e: Entry): (r: nat)
    ensures r % 8 == 0 && 20 + |e.name| <= r < 28 + |e.name| && r < 65536
  {
    (HEADER + |e.name| + 1 + 7) / 8 * 8
  }

  function Zeros(n: nat): (r: seq<Byte>)
    ensures |r| == n && forall i :: 0 <= i < n ==> r[i] == 0
  {
    seq(n, _ => 0)
  }

  /** The fixed part of a record: inode, zero cookie, length, type. */
  function Head(e: Entry): (r: seq<Byte>)
    ensures |r| == HEADER
  {
    Encode(e.inode, 8) + Zeros(8) + Encode(RecLen(e), 2) + [Dtype(e.kind)]
  }

  /** One record: that, the name, NUL padding. */
  function Pack(e: Entry): (r: seq<Byte>)
    ensures |r| == RecLen(e)
  {
    Head(e) + e.name + Zeros(RecLen(e) - HEADER - |e.name|)
  }

  function PackAll(es: seq<Entry>): seq<Byte> {
    if es == [] then [] else Pack(es[0]) + PackAll(es[1..])
  }

  /* ---- a reader: readdir() steps by d_reclen ---- */

  /** The name up to its NUL. */
  function UpToNul(bs: seq<Byte>): seq<Byte> {
    if bs == [] || bs[0] == 0 then [] else [bs[0]] + UpToNul(bs[1..])
  }

  /** What a walk by reclen reads: inode, kind and name of each record. */
  function Walk(bs: seq<Byte>): seq<(nat, Kind, seq<Byte>)>
    decreases |bs|
  {
    if |bs| < HEADER then []
    else
      var reclen := Decode(bs[16..18]);
      if reclen < HEADER || reclen > |bs| then []
      else [(Decode(bs[..8]), KindOf(bs[18]), UpToNul(bs[HEADER..reclen]))] + Walk(bs[reclen..])
  }

  function Read(es: seq<Entry>): seq<(nat, Kind, seq<Byte>)> {
    if es == [] then [] else [(es[0].inode, es[0].kind, es[0].name)] + Read(es[1..])
  }

  lemma {:induction false} NameRead(name: Name, pad: nat)
    requires pad > 0
    ensures UpToNul(name + Zeros(pad)) == name
    decreases |name|
  {
    if name == [] {
      assert name + Zeros(pad) == Zeros(pad);
    } else {
      var tail: Name := name[1..];
      assert (name + Zeros(pad))[1..] == tail + Zeros(pad);
      NameRead(tail, pad);
    }
  }

  /** A record byte by byte: inode, no cookie, length, DT_REG (8), DT_DIR (4), DT_CHR (2), DT_BLK (6), DT_FIFO (1),
      DT_SOCK (12), DT_LNK (10) or DT_UNKNOWN (0), then the name and NULs up to the next multiple of eight. */
  lemma RecordBytes(e: Entry)
    requires EntryOK(e)
    ensures var p, n := Pack(e), |e.name|;
            && |p| % 8 == 0 && 20 + n <= |p| < 28 + n
            && Decode(p[..8]) == e.inode && (forall i :: 8 <= i < 16 ==> p[i] == 0) && Decode(p[16..18]) == |p|
            && p[18] == (if e.kind == RegFile then 8 else if e.kind == Directory then 4
                         else if e.kind == CharDev then 2 else if e.kind == BlockDev then 6
                         else if e.kind == Fifo then 1 else if e.kind == Socket then 12
                         else if e.kind == Symlink then 10 else 0)
            && p[19..19 + n] == e.name && forall i :: 19 + n <= i < |p| ==> p[i] == 0
  {
    PackFields(e);
    var p, n := Pack(e), |e.name|;
    assert p[8..16] == Zeros(8);
    forall i | 8 <= i < 16 ensures p[i] == 0 {
      assert p[i] == p[8..16][i - 8];
    }
    assert p[19 + n..] == Zeros(RecLen(e) - HEADER - n);
    forall i | 19 + n <= i < |p| ensures p[i] == 0 {
      assert p[i] == p[19 + n..][i - 19 - n];
    }
  }

  lemma PackFields(e: Entry)
    requires EntryOK(e)
    ensures var p := Pack(e);
            && Decode(p[..8]) == e.inode && Decode(p[16..18]) == RecLen(e) && KindOf(p[18]) == e.kind
            && UpToNul(p[HEADER..]) == e.name
  {
    var p := Pack(e);
    assert p[..8] == Encode(e.inode, 8);
    assert p[16..18] == Encode(RecLen(e), 2);
    assert p[HEADER..] == e.name + Zeros(RecLen(e) - HEADER - |e.name|);
    assert Pow256(2) == 65536 && Pow256(3) == 0x100_0000 && Pow256(4) == INO_MAX;
    assert Pow256(5) >= INO_MAX && Pow256(6) >= INO_MAX && Pow256(7) >= INO_MAX && Pow256(8) >= INO_MAX;
    DecodeEncode(e.inode, 8);
    DecodeEncode(RecLen(e), 2);
    NameRead(e.name, RecLen(e) - HEADER - |e.name|);
  }

  /** Walking packed records gives back the entries, in order. */
  lemma {:induction false} WalkPacked(es: seq<Entry>)
    requires forall i :: 0 <= i < |es| ==> EntryOK(es[i])
    ensures Walk(PackAll(es)) == Read(es)
  {
    if es != [] {
      var p, rest := Pack(es[0]), PackAll(es[1..]);
      var bs := p + rest;
      PackFields(es[0]);
      WalkPacked(es[1..]);
      assert bs[..8] == p[..8] && bs[16..18] == p[16..18] && bs[18] == p[18];
      assert bs[HEADER..RecLen(es[0])] == p[HEADER..] && bs[RecLen(es[0])..] == rest;
    }
  }

  lemma {:induction false} PackAppend(a: seq<Entry>, b: seq<Entry>)
    ensures PackAll(a + b) == PackAll(a) + PackAll(b)
    decreases |a|
  {
    if a == [] {
      assert a + b == b;
    } else {
      assert (a + b)[1..] == a[1..] + b;
      PackAppend(a[1..], b);
      Joins(Pack(a[0]), PackAll(a[1..]), PackAll(b));
    }
  }

  lemma {:induction false} ReadAppend(a: seq<Entry>, b: seq<Entry>)
    ensures Read(a + b) == Read(a) + Read(b)
    decreases |a|
  {
    if a == [] {
      assert a + b == b;
    } else {
      assert (a + b)[1..] == a[1..] + b;
      ReadAppend(a[1..], b);
    }
  }

  /* ---- which entries one call delivers ---- */

  /** How many of these entries fit in len bytes. */
  function Fitting(es: seq<Entry>, len: nat): (k: nat)
    ensures k <= |es|
  {
    if es == [] || RecLen(es[0]) > len then 0 else 1 + Fitting(es[1..], len - RecLen(es[0]))
  }

  /** As many as possible: the next one would not fit. */
  lemma {:induction false} FittingIsMaximal(es: seq<Entry>, len: nat)
    ensures var k := Fitting(es, len);
            |PackAll(es[..k])| <= len && (k < |es| ==> |PackAll(es[..k])| + RecLen(es[k]) > len)
    decreases |es|
  {
    if es != [] && RecLen(es[0]) <= len {
      var k := Fitting(es[1..], len - RecLen(es[0]));
      FittingIsMaximal(es[1..], len - RecLen(es[0]));
      assert es[..k + 1][1..] == es[1..][..k];
    }
  }

  predicate Less(offsets: seq<nat>, i: nat, j: nat)
    requires i < |offsets| && j < |offsets|
  {
    offsets[i] < offsets[j]
  }

  ghost predicate Increasing(offsets: seq<nat>) {
    forall i, j :: 0 <= i < j < |offsets| ==> Less(offsets, i, j)
  }

  /** lwext4's directory iterator: offsets[k] is where entry k starts, the last one is the end. */
  class DirIterator {
    const entries: seq<Entry>
    const offsets: seq<nat>
    var nextOff: nat
    ghost var pos: nat

    ghost predicate Valid()
      reads this
    {
      && |offsets| == |entries| + 1 && pos <= |entries| && nextOff == offsets[pos]
      && Increasing(offsets)
      && forall i :: 0 <= i < |entries| ==> EntryOK(entries[i])
    }

    constructor (entries: seq<Entry>, offsets: seq<nat>)
      requires |offsets| == |entries| + 1 && Increasing(offsets)
      requires forall i :: 0 <= i < |entries| ==> EntryOK(entries[i])
      ensures Valid() && pos == 0 && this.entries == entries
    {
      this.entries, this.offsets := entries, offsets;
      nextOff, pos := offsets[0], 0;
    }

    /** ext4_dir_entry_next(): re-seeks to next_off, returns the entry there and moves past it. */
    method Next() returns (found: bool, k: nat)
      requires Valid()
      modifies this
      ensures Valid() && k == old(pos)
      ensures found <==> old(pos) < |entries|
      ensures pos == if found then old(pos) + 1 else old(pos)
    {
      k := 0;
      while k < |entries| && offsets[k] != nextOff
        invariant 0 <= k <= pos
      {
        k := k + 1;
      }
      assert k < pos ==> Less(offsets, k, pos);
      found := k < |entries|;
      if found {
        nextOff := offsets[k + 1];
        pos := pos + 1;
      }
    }

    /** sf->d.next_off = before */
    method Rewind(before: nat, ghost to: nat)
      requires Valid() && to <= |entries| && before == offsets[to]
      modifies this
      ensures Valid() && pos == to
    {
      nextOff, pos := before, to;
    }
  }

  /** memcpy() */
  method CopyInto(out: array<Byte>, at: nat, bytes: seq<Byte>)
    requires at + |bytes| <= out.Length
    modifies out
    ensures out[..at + |bytes|] == old(out[..at]) + bytes
    ensures forall x :: at + |bytes| <= x < out.Length ==> out[x] == old(out[x])
  {
    for i := 0 to |bytes|
      invariant out[..at + i] == old(out[..at]) + bytes[..i]
      invariant forall x :: at + i <= x < out.Length ==> out[x] == old(out[x])
    {
      ghost var before := out[..at + i];
      out[at + i] := bytes[i];
      assert out[..at + i + 1] == before + [bytes[i]];
    }
    assert bytes[..|bytes|] == bytes;
  }

  /** The fixed part of a record. */
  method PutHeader(out: array<Byte>, used: nat, e: Entry)
    requires used + HEADER <= out.Length
    modifies out
    ensures out[..used + HEADER] == old(out[..used]) + Head(e)
    ensures forall x :: used + HEADER <= x < out.Length ==> out[x] == old(out[x])
  {
    CopyInto(out, used, Encode(e.inode, 8));
    CopyInto(out, used + 8, Zeros(8));
    CopyInto(out, used + 16, Encode(RecLen(e), 2));
    CopyInto(out, used + 18, [Dtype(e.kind)]);
  }

  lemma ThreeParts(a: seq<Byte>, b: seq<Byte>, c: seq<Byte>, d: seq<Byte>)
    ensures ((a + b) + c) + d == a + (b + c + d)
  {
  }

  /** One record. */
  method PutRecord(out: array<Byte>, used: nat, e: Entry)
    requires used + RecLen(e) <= out.Length
    modifies out
    ensures out[..used + RecLen(e)] == old(out[..used]) + Pack(e)
    ensures forall x :: used + RecLen(e) <= x < out.Length ==> out[x] == old(out[x])
  {
    ghost var start, head, pad := out[..used], Head(e), Zeros(RecLen(e) - HEADER - |e.name|);
    PutHeader(out, used, e);
    CopyInto(out, used + HEADER, e.name);
    CopyInto(out, used + HEADER + |e.name|, Zeros(RecLen(e) - HEADER - |e.name|));
    ThreeParts(start, head, e.name, pad);
  }

  /** getdents(): as many whole records as fit; the first that does not is left for the next call.
      A buffer too small for even one is an error, and that entry is then lost. */
  method Getdents(isDir: bool, it: DirIterator, out: array<Byte>) returns (r: int)
    requires it.Valid()
    modifies it, out
    ensures it.Valid() && (isDir ==> it.pos == NextPos(it.entries, old(it.pos), out.Length))
    ensures var p := old(it.pos);
            var k := Fitting(it.entries[p..], out.Length);
            if !isDir then r == -20 && it.pos == p
            else if p < |it.entries| && RecLen(it.entries[p]) > out.Length then r == -22 && it.pos == p + 1
            else it.pos == p + k && 0 <= r <= out.Length && out[..r] == PackAll(it.entries[p..p + k])
    ensures forall x :: (if r < 0 then 0 else r) <= x < out.Length ==> out[x] == old(out[x])
  {
    if !isDir {
      return -ENOTDIR;
    }
    ghost var p := it.pos;
    assert p < |it.entries| ==> it.entries[p..][0] == it.entries[p];
    var used, none;
    ghost var n;
    assert it.entries[p..p] == [];
    used, none, n := FillBuffer(it, out);
    r := if none then -EINVAL else used;
  }

  /** The buffer, which was `orig`, starts with these bytes and is unchanged behind them. */
  ghost predicate Starts(now: seq<Byte>, orig: seq<Byte>, used: nat, bytes: seq<Byte>) {
    && |now| == |orig| && used <= |now| && now[..used] == bytes
    && forall x :: used <= x < |now| ==> now[x] == orig[x]
  }

  /** The loop of getdents(). */
  method FillBuffer(it: DirIterator, out: array<Byte>) returns (used: nat, none: bool, ghost n: nat)
    requires it.Valid()
    modifies it, out
    ensures it.Valid() && n == Fitting(it.entries[old(it.pos)..], out.Length) && old(it.pos) + n <= |it.entries|
    ensures none <==> old(it.pos) < |it.entries| && n == 0
    ensures it.pos == old(it.pos) + if none then 1 else n
    ensures Starts(out[..], old(out[..]), used, PackAll(it.entries[old(it.pos)..old(it.pos) + n]))
    ensures (none ==> used == 0)
  {
    ghost var es, p, orig := it.entries, it.pos, out[..];
    assert es[p..p] == [];
    used, none, n := 0, false, 0;
    var more := true;
    while more
      invariant it.Valid() && p + n <= |es| && Starts(out[..], orig, used, PackAll(es[p..p + n]))
      invariant more ==> !none && it.pos == p + n
      invariant !more ==> Stops(es, p + n, used, out.Length, none) && it.pos == p + n + if none then 1 else 0
      decreases |es| - n, more
    {
      more, none, used, n := FillOne(it, out, used, p, n, orig);
    }
    FittingIs(es, p, n, used, out.Length);
  }

  /** The loop ends before entry m: there is none, or it does not fit. */
  ghost predicate Stops(es: seq<Entry>, m: nat, used: nat, len: nat, none: bool) {
    && (m < |es| ==> used + RecLen(es[m]) > len)
    && (none <==> m < |es| && used == 0)
  }

  lemma StartsOn(was: seq<Byte>, now: seq<Byte>, orig: seq<Byte>, used: nat, used': nat, bytes: seq<Byte>,
                 more: seq<Byte>)
    requires Starts(was, orig, used, bytes) && |now| == |was| && used <= used' <= |now|
    requires now[..used'] == was[..used] + more
    requires forall x :: used' <= x < |now| ==> now[x] == was[x]
    ensures Starts(now, orig, used', bytes + more)
  {
  }

  /** One turn of that loop: an entry packed, or the end, or one pushed back. */
  method FillOne(it: DirIterator, out: array<Byte>, used: nat, ghost p: nat, ghost n: nat, ghost orig: seq<Byte>)
      returns (more: bool, none: bool, used': nat, ghost n': nat)
    requires it.Valid() && it.pos == p + n && Starts(out[..], orig, used, PackAll(it.entries[p..p + n]))
    modifies it, out
    ensures it.Valid() && p + n' <= |it.entries| && Starts(out[..], orig, used', PackAll(it.entries[p..p + n']))
    ensures more ==> !none && n' == n + 1 && it.pos == p + n'
    ensures !more ==> n' == n && Stops(it.entries, p + n, used', out.Length, none)
                      && it.pos == p + n + if none then 1 else 0
  {
    var before := it.nextOff;
    ghost var was := out[..];
    var found, fits;
    found, fits, used' := PackOne(it, out, used);
    more, none, n' := found && fits, found && !fits && used == 0, n;
    if more {
      StartsOn(was, out[..], orig, used, used', PackAll(it.entries[p..p + n]), Pack(it.entries[p + n]));
      PackNext(it.entries, p, n);
      n' := n + 1;
    }
    if found && !fits && used != 0 {
      it.Rewind(before, p + n);
    }
  }

  /** The next entry, packed at `used` if there is one and it fits. */
  method PackOne(it: DirIterator, out: array<Byte>, used: nat) returns (found: bool, fits: bool, used': nat)
    requires it.Valid() && used <= out.Length
    modifies it, out
    ensures it.Valid() && (found <==> old(it.pos) < |it.entries|)
    ensures !found ==> it.pos == old(it.pos) && out[..] == old(out[..]) && used' == used
    ensures found ==> it.pos == old(it.pos) + 1 && (fits <==> used + RecLen(it.entries[old(it.pos)]) <= out.Length)
    ensures found && !fits ==> out[..] == old(out[..]) && used' == used
    ensures found && fits ==> used' == used + RecLen(it.entries[old(it.pos)]) && used' <= out.Length
                              && out[..used'] == old(out[..used]) + Pack(it.entries[old(it.pos)])
                              && forall x :: used' <= x < out.Length ==> out[x] == old(out[x])
  {
    fits, used' := false, used;
    var k;
    found, k := it.Next();
    if found {
      var reclen := RecLen(it.entries[k]);
      if used + reclen <= out.Length {
        PutRecord(out, used, it.entries[k]);
        fits, used' := true, used + reclen;
      }
    }
  }

  /** Entries packed one after the other, up to one that does not fit, are those that fit. */
  lemma {:induction false} FittingUnique(es: seq<Entry>, n: nat, len: nat)
    requires n <= |es| && |PackAll(es[..n])| <= len && (n < |es| ==> |PackAll(es[..n])| + RecLen(es[n]) > len)
    ensures n == Fitting(es, len)
    decreases n
  {
    if n > 0 {
      assert es[..n][0] == es[0] && es[..n][1..] == es[1..][..n - 1];
      FittingUnique(es[1..], n - 1, len - RecLen(es[0]));
    } else {
      assert es[..0] == [];
    }
  }

  lemma FittingIs(es: seq<Entry>, p: nat, n: nat, used: nat, len: nat)
    requires p + n <= |es| && used == |PackAll(es[p..p + n])| <= len
    requires p + n < |es| ==> used + RecLen(es[p + n]) > len
    ensures n == Fitting(es[p..], len) && (used == 0 ==> n == 0)
  {
    assert es[p..][..n] == es[p..p + n] && (n < |es[p..]| ==> es[p..][n] == es[p + n]);
    FittingUnique(es[p..], n, len);
  }

  lemma PackNext(es: seq<Entry>, p: nat, n: nat)
    requires p + n < |es|
    ensures PackAll(es[p..p + n + 1]) == PackAll(es[p..p + n]) + Pack(es[p + n])
  {
    assert es[p..p + n + 1] == es[p..p + n] + [es[p + n]];
    PackAppend(es[p..p + n], [es[p + n]]);
    assert [es[p + n]][1..] == [];
    assert PackAll([es[p + n]]) == Pack(es[p + n]) + PackAll([]);
  }

  /* ---- a whole directory, over any sequence of calls ---- */

  /** Where a call leaves the iterator: behind what it packed, or behind an entry it had no room for. */
  function NextPos(es: seq<Entry>, p: nat, len: nat): (q: nat)
    requires p <= |es|
    ensures p <= q <= |es|
  {
    if p < |es| && RecLen(es[p]) > len then p + 1 else p + Fitting(es[p..], len)
  }

  /** Each call's buffer has room for the next entry, unless none is left. */
  ghost predicate RoomEach(es: seq<Entry>, p: nat, lens: seq<nat>)
    requires p <= |es|
    decreases |lens|
  {
    lens == [] || ((p < |es| ==> RecLen(es[p]) <= lens[0]) && RoomEach(es, NextPos(es, p, lens[0]), lens[1..]))
  }

  /** What a call delivers, walked. */
  function OneDelivers(es: seq<Entry>, p: nat, len: nat): seq<(nat, Kind, seq<Byte>)>
    requires p <= |es|
  {
    Walk(PackAll(es[p..p + Fitting(es[p..], len)]))
  }

  /** What the calls deliver, put together. */
  function Delivered(es: seq<Entry>, p: nat, lens: seq<nat>): seq<(nat, Kind, seq<Byte>)>
    requires p <= |es|
    decreases |lens|
  {
    if lens == [] then []
    else OneDelivers(es, p, lens[0]) + Delivered(es, NextPos(es, p, lens[0]), lens[1..])
  }

  function PosAfter(es: seq<Entry>, p: nat, lens: seq<nat>): (q: nat)
    requires p <= |es|
    ensures p <= q <= |es|
    decreases |lens|
  {
    if lens == [] then p else PosAfter(es, NextPos(es, p, lens[0]), lens[1..])
  }

  ghost predicate AllOK(es: seq<Entry>) {
    forall i :: 0 <= i < |es| ==> EntryOK(es[i])
  }

  lemma {:induction false} ReadLength(es: seq<Entry>)
    ensures |Read(es)| == |es|
  {
    if es != [] {
      ReadLength(es[1..]);
    }
  }

  lemma OneCall(es: seq<Entry>, p: nat, len: nat)
    requires p <= |es| && AllOK(es)
    ensures var k := Fitting(es[p..], len);
            && OneDelivers(es, p, len) == Read(es[p..p + k])
            && (if p < |es| && RecLen(es[p]) > len then k == 0 else NextPos(es, p, len) == p + k)
            && (p < |es| && RecLen(es[p]) <= len ==> k > 0)
  {
    WalkPacked(es[p..p + Fitting(es[p..], len)]);
    if p < |es| {
      assert es[p..][0] == es[p];
    }
  }

  lemma ReadJoined(es: seq<Entry>, p: nat, m: nat, q: nat)
    requires p <= m <= q <= |es|
    ensures Read(es[p..m]) + Read(es[m..q]) == Read(es[p..q])
  {
    assert es[p..q] == es[p..m] + es[m..q];
    ReadAppend(es[p..m], es[m..q]);
  }

  lemma CallCount(es: seq<Entry>, p: nat, len: nat)
    requires p <= |es| && AllOK(es)
    ensures |OneDelivers(es, p, len)| <= NextPos(es, p, len) - p
    ensures |OneDelivers(es, p, len)| == NextPos(es, p, len) - p <==> (p < |es| ==> RecLen(es[p]) <= len)
  {
    OneCall(es, p, len);
    ReadLength(es[p..p + Fitting(es[p..], len)]);
  }

  /** A call without room loses an entry, so fewer are delivered than the iterator passed. */
  lemma {:induction false} NoneLost(es: seq<Entry>, p: nat, lens: seq<nat>)
    requires p <= |es| && AllOK(es)
    ensures |Delivered(es, p, lens)| <= PosAfter(es, p, lens) - p
    ensures |Delivered(es, p, lens)| == PosAfter(es, p, lens) - p <==> RoomEach(es, p, lens)
    decreases |lens|
  {
    if lens != [] {
      var m := NextPos(es, p, lens[0]);
      CallCount(es, p, lens[0]);
      NoneLost(es, m, lens[1..]);
      assert |Delivered(es, p, lens)| == |OneDelivers(es, p, lens[0])| + |Delivered(es, m, lens[1..])|;
      assert PosAfter(es, p, lens) == PosAfter(es, m, lens[1..]);
    }
  }

  lemma {:induction false} InOrder(es: seq<Entry>, p: nat, lens: seq<nat>)
    requires p <= |es| && RoomEach(es, p, lens) && AllOK(es)
    ensures Delivered(es, p, lens) == Read(es[p..PosAfter(es, p, lens)])
    decreases |lens|
  {
    if lens == [] {
      assert es[p..p] == [];
    } else {
      var m, q := NextPos(es, p, lens[0]), PosAfter(es, p, lens);
      InOrder(es, m, lens[1..]);
      assert Delivered(es, p, lens) == OneDelivers(es, p, lens[0]) + Read(es[m..q]);
      CallJoined(es, p, lens[0], q);
    }
  }

  lemma CallJoined(es: seq<Entry>, p: nat, len: nat, q: nat)
    requires p <= |es| && AllOK(es) && (p < |es| ==> RecLen(es[p]) <= len) && NextPos(es, p, len) <= q <= |es|
    ensures OneDelivers(es, p, len) + Read(es[NextPos(es, p, len)..q]) == Read(es[p..q])
  {
    OneCall(es, p, len);
    ReadJoined(es, p, NextPos(es, p, len), q);
  }

  /** The calls together deliver every entry they pass, once each and in order, exactly if each of them
      has room for the next entry; and enough calls pass the whole directory. */
  lemma EveryEntryOnce(es: seq<Entry>, p: nat, lens: seq<nat>)
    requires p <= |es| && AllOK(es)
    ensures Delivered(es, p, lens) == Read(es[p..PosAfter(es, p, lens)]) <==> RoomEach(es, p, lens)
    ensures PosAfter(es, p, lens) == |es| || PosAfter(es, p, lens) >= p + |lens|
  {
    NoneLost(es, p, lens);
    ReadLength(es[p..PosAfter(es, p, lens)]);
    if RoomEach(es, p, lens) {
      InOrder(es, p, lens);
    }
    Progress(es, p, lens);
  }

  lemma {:induction false} Progress(es: seq<Entry>, p: nat, lens: seq<nat>)
    requires p <= |es| && AllOK(es)
    ensures PosAfter(es, p, lens) == |es| || PosAfter(es, p, lens) >= p + |lens|
    decreases |lens|
  {
    if lens != [] {
      OneCall(es, p, lens[0]);
      Progress(es, NextPos(es, p, lens[0]), lens[1..]);
    }
  }

  /** A directory of one entry: a call with 8 bytes passes it, and the next, with room enough, finds nothing. */
  lemma EntryLost(e: Entry, len: nat)
    requires EntryOK(e)
    ensures Delivered([e], 0, [8, len]) == [] && PosAfter([e], 0, [8, len]) == 1
  {
    var es := [e];
    assert NextPos(es, 0, 8) == 1;
    OneCall(es, 0, 8);
    assert [8, len][1..] == [len] && [len][1..] == [];
    OneCall(es, 1, len);
    assert es[0..0] == [] && es[1..1] == [];
    assert OneDelivers(es, 0, 8) == [] && OneDelivers(es, 1, len) == [];
    assert Delivered(es, 1, [len]) == [] + Delivered(es, 1, []);
  }
}
