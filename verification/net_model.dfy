/** One socket of the table in port/net_shim.c: rings, the received-data chain, and what the
    calls see of them.  A pbuf is its payload and an identity; a chain of pbufs is a sequence. */
module NetModel {
  const SOCK_MAX: nat := 16
  const ACCEPTQ_MAX: nat := 16
  const UDP_RXQ_MAX: nat := 8
  const NET_BLOCK_TIMEOUT_MS: nat := 30000

  /** What the network carries; nothing here looks into it. */
  type Octet = bv8

  /** lwIP's lengths are 16 bits. */
  type Payload = d: seq<Octet> | |d| < 0x10000

  datatype Pbuf = Pbuf(id: nat, data: Payload)
  datatype Datagram = Datagram(p: Pbuf, addr: nat, port: nat)

  datatype SState = SkFree | SkClosed | SkConnecting | SkConnected | SkListening | SkError
  datatype SType = SockStream | SockDgram

  datatype Ring<T> = Ring(slots: seq<T>, head: nat, tail: nat, count: nat)

  /** struct bsock.  pcb and upcb say whether the protocol block is there. */
  datatype Sock = Sock(
    state: SState, stype: SType, pcb: bool, upcb: bool,
    chain: seq<Pbuf>, off: nat, eof: bool,
    udpq: Ring<Datagram>, acceptq: Ring<nat>,
    rcvTimeout: nat, sndTimeout: nat, nonblock: bool, soError: int)

  /* ---- rings ---- */

  /** Both rings' sizes; (head + count) % size never wraps twice. */
  ghost predicate RingOK<T>(r: Ring<T>) {
    && (|r.slots| == ACCEPTQ_MAX || |r.slots| == UDP_RXQ_MAX)
    && r.count <= |r.slots| && r.head < |r.slots| && r.tail == Wrap(r.head + r.count, |r.slots|)
  }

  function Wrap(k: nat, n: nat): nat
    requires k < 2 * n
  {
    if k < n then k else k - n
  }

  /** The entries, oldest first. */
  ghost function Entries<T>(r: Ring<T>): (q: seq<T>)
    requires RingOK(r)
    ensures |q| == r.count && forall k :: 0 <= k < r.count ==> q[k] == r.slots[Wrap(r.head + k, |r.slots|)]
  {
    seq(r.count, k requires 0 <= k < r.count => r.slots[Wrap(r.head + k, |r.slots|)])
  }

  function Push<T>(r: Ring<T>, x: T): Ring<T>
    requires r.tail < |r.slots|
  {
    r.(slots := r.slots[r.tail := x], tail := (r.tail + 1) % |r.slots|, count := r.count + 1)
  }

  function Pop<T>(r: Ring<T>): Ring<T>
    requires |r.slots| > 0 && r.count > 0
  {
    r.(head := (r.head + 1) % |r.slots|, count := r.count - 1)
  }

  lemma NextWraps(k: nat, n: nat)
    requires k < n && (n == ACCEPTQ_MAX || n == UDP_RXQ_MAX)
    ensures (k + 1) % n == Wrap(k + 1, n)
  {
    if n == ACCEPTQ_MAX {
      assert (k + 1) % 16 == if k == 15 then 0 else k + 1;
    } else {
      assert (k + 1) % 8 == if k == 7 then 0 else k + 1;
    }
  }

  /** Pushing appends, unless the ring is full. */
  lemma PushAppends<T>(r: Ring<T>, x: T)
    requires RingOK(r) && r.count < |r.slots|
    ensures RingOK(Push(r, x)) && Entries(Push(r, x)) == Entries(r) + [x]
  {
    NextWraps(r.tail, |r.slots|);
    var r' := Push(r, x);
    forall k | 0 <= k < r.count + 1 ensures Entries(r')[k] == (Entries(r) + [x])[k] {
    }
  }

  /** Popping drops the oldest entry. */
  lemma PopDrops<T>(r: Ring<T>)
    requires RingOK(r) && r.count > 0
    ensures RingOK(Pop(r)) && Entries(r)[0] == r.slots[r.head] && Entries(Pop(r)) == Entries(r)[1..]
  {
    NextWraps(r.head, |r.slots|);
    var r' := Pop(r);
    forall k | 0 <= k < r'.count ensures Entries(r')[k] == Entries(r)[1..][k] {
    }
  }

  /* ---- the received-data chain ---- */

  function ChainBytes(chain: seq<Pbuf>): seq<Octet> {
    if chain == [] then [] else chain[0].data + ChainBytes(chain[1..])
  }

  /** rx_off points into the first pbuf. */
  ghost predicate ChainOK(chain: seq<Pbuf>, off: nat) {
    if chain == [] then off == 0 else off < |chain[0].data| || (off == 0 && chain[0].data == [])
  }

  lemma ChainBytesLonger(chain: seq<Pbuf>)
    requires chain != []
    ensures |ChainBytes(chain)| >= |chain[0].data|
  {
  }

  /** Bytes received but not handed out. */
  ghost function Queued(chain: seq<Pbuf>, off: nat): seq<Octet>
    requires ChainOK(chain, off)
  {
    if chain == [] then [] else ChainBytes(chain)[off..]
  }

  lemma {:induction false} ChainBytesAppend(a: seq<Pbuf>, b: seq<Pbuf>)
    ensures ChainBytes(a + b) == ChainBytes(a) + ChainBytes(b)
    decreases |a|
  {
    if a == [] {
      assert a + b == b;
    } else {
      assert (a + b)[1..] == a[1..] + b;
      ChainBytesAppend(a[1..], b);
    }
  }

  /** pbuf_cat() adds exactly the new bytes at the end. */
  lemma CatQueues(chain: seq<Pbuf>, off: nat, more: seq<Pbuf>)
    requires ChainOK(chain, off)
    ensures ChainOK(chain + more, off) && Queued(chain + more, off) == Queued(chain, off) + ChainBytes(more)
  {
    if chain == [] {
      assert chain + more == more;
      assert more != [] ==> ChainBytes(more)[0..] == ChainBytes(more);
    } else {
      ChainBytesAppend(chain, more);
      ChainBytesLonger(chain);
      assert (chain + more)[0] == chain[0];
      DropFirst(ChainBytes(chain), ChainBytes(more), off);
    }
  }

  lemma DropFirst(a: seq<Octet>, b: seq<Octet>, k: nat)
    requires k <= |a|
    ensures (a + b)[k..] == a[k..] + b
  {
  }

  /** What one bsock_read() does: the bytes, the chain after it, the pbufs freed. */
  datatype Read = Read(got: seq<Octet>, chain: seq<Pbuf>, off: nat, freed: seq<Pbuf>)

  function ReadOne(chain: seq<Pbuf>, off: nat, len: nat): Read
    requires chain != [] && off <= |chain[0].data|
  {
    var p := chain[0];
    var avail := |p.data| - off;
    var n := if len < avail then len else avail;
    if off + n == |p.data| then Read(p.data[off..off + n], chain[1..], 0, [p])
    else Read(p.data[off..off + n], chain, off + n, [])
  }

  /** What reading first r and then s comes to. */
  function Then(r: Read, s: Read): Read {
    Read(r.got + s.got, s.chain, s.off, r.freed + s.freed)
  }

  /** The loop of net_shim_recv(): reads until len bytes are there or nothing is queued. */
  function Drain(chain: seq<Pbuf>, off: nat, len: nat): Read
    requires chain != [] ==> off <= |chain[0].data|
    decreases |chain|
  {
    if len == 0 || chain == [] then Read([], chain, off, [])
    else
      var r := ReadOne(chain, off, len);
      if r.freed == [] then r else Then(r, Drain(r.chain, 0, len - |r.got|))
  }

  lemma ReadOneTakes(chain: seq<Pbuf>, off: nat, len: nat)
    requires ChainOK(chain, off) && chain != [] && len > 0
    ensures var r := ReadOne(chain, off, len);
            && ChainOK(r.chain, r.off) && |r.got| <= len
            && (r.freed == [] ==> |r.got| == len)
            && Queued(chain, off) == r.got + Queued(r.chain, r.off)
            && chain == r.freed + r.chain
  {
    var r := ReadOne(chain, off, len);
    var data := chain[0].data;
    if r.freed == [] {
      assert r.got == data[off..off + len];
      DropTwice(data, ChainBytes(chain[1..]), off, len);
    } else {
      assert r.got == data[off..];
      DropFirst(data, ChainBytes(chain[1..]), off);
      assert r.chain != [] ==> ChainBytes(r.chain)[0..] == ChainBytes(r.chain);
    }
  }

  lemma DropTwice(a: seq<Octet>, b: seq<Octet>, k: nat, n: nat)
    requires k + n <= |a|
    ensures (a + b)[k..] == a[k..k + n] + (a + b)[k + n..]
  {
  }

  /** r is what reading up to len bytes from this chain may give. */
  ghost predicate Takes(chain: seq<Pbuf>, off: nat, len: nat, r: Read)
    requires ChainOK(chain, off)
  {
    && ChainOK(r.chain, r.off)
    && Queued(chain, off) == r.got + Queued(r.chain, r.off)
    && |r.got| <= len && (|r.got| < len ==> r.chain == [])
    && chain == r.freed + r.chain
  }

  lemma TakesMore(chain: seq<Pbuf>, off: nat, len: nat, r: Read, rest: Read)
    requires ChainOK(chain, off) && ChainOK(r.chain, r.off) && |r.got| <= len
    requires Queued(chain, off) == r.got + Queued(r.chain, r.off) && chain == r.freed + r.chain
    requires Takes(r.chain, r.off, len - |r.got|, rest)
    ensures Takes(chain, off, len, Then(r, rest))
  {
    assert r.got + (rest.got + Queued(rest.chain, rest.off)) == (r.got + rest.got) + Queued(rest.chain, rest.off);
    assert r.freed + (rest.freed + rest.chain) == (r.freed + rest.freed) + rest.chain;
  }

  /** recv() hands out a prefix of what is queued, as long as it can, and keeps the rest. */
  lemma {:induction false} DrainTakes(chain: seq<Pbuf>, off: nat, len: nat)
    requires ChainOK(chain, off)
    ensures Takes(chain, off, len, Drain(chain, off, len))
    decreases |chain|
  {
    if len > 0 && chain != [] {
      var r := ReadOne(chain, off, len);
      ReadOneTakes(chain, off, len);
      if r.freed != [] {
        DrainTakes(r.chain, r.off, len - |r.got|);
        TakesMore(chain, off, len, r, Drain(r.chain, r.off, len - |r.got|));
      }
    }
  }

  lemma ThenAssoc(r: Read, s: Read, t: Read)
    ensures Then(r, Then(s, t)) == Then(Then(r, s), t)
  {
    assert r.got + (s.got + t.got) == (r.got + s.got) + t.got;
    assert r.freed + (s.freed + t.freed) == (r.freed + s.freed) + t.freed;
  }

  /** Reading a bytes and then b more is the same as reading a + b at once. */
  ghost predicate Splits(chain: seq<Pbuf>, off: nat, a: nat, b: nat)
    requires ChainOK(chain, off)
  {
    var first := Drain(chain, off, a);
    && ChainOK(first.chain, first.off)
    && Drain(chain, off, a + b) == Then(first, Drain(first.chain, first.off, b))
  }

  lemma {:induction false} DrainSplit(chain: seq<Pbuf>, off: nat, a: nat, b: nat)
    requires ChainOK(chain, off)
    ensures Splits(chain, off, a, b)
    decreases |chain|
  {
    if a == 0 || chain == [] {
      SplitNothing(chain, off, a, b);
    } else {
      ReadOneLeaves(chain, off, a);
      if ReadOne(chain, off, a).freed == [] {
        SplitInside(chain, off, a, b);
      } else {
        var r := ReadOne(chain, off, a);
        DrainSplit(r.chain, r.off, a - |r.got|, b);
        SplitBeyond(chain, off, a, b);
      }
    }
  }

  lemma ReadOneLeaves(chain: seq<Pbuf>, off: nat, a: nat)
    requires ChainOK(chain, off) && chain != [] && a > 0
    ensures var r := ReadOne(chain, off, a);
            && ChainOK(r.chain, r.off) && |r.got| <= a
            && (r.freed == [] ==> |r.got| == a) && (r.freed != [] ==> r.off == 0 && |r.chain| < |chain|)
  {
    ReadOneTakes(chain, off, a);
  }

  lemma SplitBeyond(chain: seq<Pbuf>, off: nat, a: nat, b: nat)
    requires ChainOK(chain, off) && chain != [] && a > 0
    requires var r := ReadOne(chain, off, a);
             r.freed != [] && |r.got| <= a && ChainOK(r.chain, 0) && Splits(r.chain, 0, a - |r.got|, b)
    ensures Splits(chain, off, a, b)
  {
    var r := ReadOne(chain, off, a);
    SplitAfter(chain, off, a, b);
    SplitJoin(r, Drain(r.chain, 0, a - |r.got|), b, Drain(chain, off, a), Drain(chain, off, a + b),
              Drain(r.chain, 0, (a - |r.got|) + b));
  }

  lemma SplitJoin(r: Read, rest: Read, b: nat, first: Read, whole: Read, tail: Read)
    requires ChainOK(rest.chain, rest.off) && first == Then(r, rest) && whole == Then(r, tail)
    requires tail == Then(rest, Drain(rest.chain, rest.off, b))
    ensures ChainOK(first.chain, first.off) && whole == Then(first, Drain(first.chain, first.off, b))
  {
    ThenAssoc(r, rest, Drain(rest.chain, rest.off, b));
  }

  lemma SplitNothing(chain: seq<Pbuf>, off: nat, a: nat, b: nat)
    requires ChainOK(chain, off) && (a == 0 || chain == [])
    ensures Drain(chain, off, a) == Read([], chain, off, [])
    ensures Drain(chain, off, a + b) == Then(Read([], chain, off, []), Drain(chain, off, b))
  {
    var r := Drain(chain, off, b);
    assert [] + r.got == r.got && [] + r.freed == r.freed;
  }

  /** The first a bytes end inside the first pbuf. */
  lemma SplitInside(chain: seq<Pbuf>, off: nat, a: nat, b: nat)
    requires ChainOK(chain, off) && chain != [] && 0 < a && ReadOne(chain, off, a).freed == []
    ensures Drain(chain, off, a) == ReadOne(chain, off, a)
    ensures Drain(chain, off, a + b) == Then(ReadOne(chain, off, a), Drain(chain, off + a, b))
  {
    if b > 0 {
      var first, whole, tail := ReadOne(chain, off, a), ReadOne(chain, off, a + b), ReadOne(chain, off + a, b);
      assert whole.got == first.got + tail.got;
      assert whole == Then(first, tail);
      if tail.freed != [] {
        assert (a + b) - |whole.got| == b - |tail.got|;
        ThenAssoc(first, tail, Drain(tail.chain, 0, b - |tail.got|));
      }
    } else {
      var first := ReadOne(chain, off, a);
      assert first.got + [] == first.got;
    }
  }

  /** The first pbuf is used up within the first a bytes. */
  lemma SplitAfter(chain: seq<Pbuf>, off: nat, a: nat, b: nat)
    requires ChainOK(chain, off) && chain != [] && a > 0 && ReadOne(chain, off, a).freed != []
    ensures var r := ReadOne(chain, off, a);
            && Drain(chain, off, a) == Then(r, Drain(r.chain, 0, a - |r.got|))
            && Drain(chain, off, a + b) == Then(r, Drain(r.chain, 0, (a - |r.got|) + b))
  {
    assert ReadOne(chain, off, a + b) == ReadOne(chain, off, a);
    DrainFreed(chain, off, a);
    DrainFreed(chain, off, a + b);
  }

  lemma DrainFreed(chain: seq<Pbuf>, off: nat, n: nat)
    requires ChainOK(chain, off) && chain != [] && n > 0 && ReadOne(chain, off, n).freed != []
    ensures var r := ReadOne(chain, off, n);
            |r.got| <= n && Drain(chain, off, n) == Then(r, Drain(r.chain, 0, n - |r.got|))
  {
  }

  /* ---- recvmsg() ---- */

  function Sum(lens: seq<nat>): nat {
    if lens == [] then 0 else lens[0] + Sum(lens[1..])
  }

  function Flatten(pieces: seq<seq<Octet>>): seq<Octet> {
    if pieces == [] then [] else pieces[0] + Flatten(pieces[1..])
  }

  /** The loop of net_shim_recvmsg(): what went into each buffer, and what was read in all. */
  function Scatter(chain: seq<Pbuf>, off: nat, lens: seq<nat>): (r: (seq<seq<Octet>>, Read))
    requires ChainOK(chain, off)
    decreases |lens|
  {
    if lens == [] || chain == [] then ([], Read([], chain, off, []))
    else
      DrainTakes(chain, off, lens[0]);
      var first := Drain(chain, off, lens[0]);
      var (pieces, rest) := Scatter(first.chain, first.off, lens[1..]);
      ([first.got] + pieces, Then(first, rest))
  }

  /** Cutting data at the buffers' lengths: each is filled before the next gets anything. */
  function Cut(data: seq<Octet>, lens: seq<nat>): seq<seq<Octet>>
    requires |data| <= Sum(lens)
    decreases |lens|
  {
    if lens == [] then []
    else if |data| <= lens[0] then [data] + Cut([], lens[1..])
    else [data[..lens[0]]] + Cut(data[lens[0]..], lens[1..])
  }

  /** The same buffers, those never reached being empty. */
  function Padded(pieces: seq<seq<Octet>>, n: nat): (r: seq<seq<Octet>>)
    decreases n
  {
    if n == 0 then []
    else if pieces == [] then [[]] + Padded([], n - 1)
    else [pieces[0]] + Padded(pieces[1..], n - 1)
  }

  /** Buffers filled one after the other hold the data between them. */
  lemma {:induction false} FlattenCut(data: seq<Octet>, lens: seq<nat>)
    requires |data| <= Sum(lens)
    ensures Flatten(Cut(data, lens)) == data && |Cut(data, lens)| == |lens|
    ensures forall k :: 0 <= k < |lens| ==> |Cut(data, lens)[k]| <= lens[k]
    decreases |lens|
  {
    if lens != [] {
      if |data| <= lens[0] {
        FlattenCut([], lens[1..]);
      } else {
        FlattenCut(data[lens[0]..], lens[1..]);
        assert data[..lens[0]] + data[lens[0]..] == data;
      }
    }
  }

  lemma {:induction false} FlattenPadded(pieces: seq<seq<Octet>>, n: nat)
    requires |pieces| <= n
    ensures Flatten(Padded(pieces, n)) == Flatten(pieces)
    decreases n
  {
    if n > 0 {
      if pieces == [] { FlattenPadded([], n - 1); } else { FlattenPadded(pieces[1..], n - 1); }
    }
  }

  lemma FlattenPieces(pieces: seq<seq<Octet>>, data: seq<Octet>, lens: seq<nat>)
    requires |data| <= Sum(lens) && |pieces| <= |lens| && Padded(pieces, |lens|) == Cut(data, lens)
    ensures Flatten(pieces) == data
  {
    FlattenPadded(pieces, |lens|);
    FlattenCut(data, lens);
  }

  lemma {:induction false} CutNothing(lens: seq<nat>)
    ensures Cut([], lens) == Padded([], |lens|)
  {
    if lens != [] {
      CutNothing(lens[1..]);
    }
  }

  /** recvmsg() is one recv() of the total capacity, whose bytes are then cut up over the buffers. */
  lemma {:induction false} ScatterIsRecv(chain: seq<Pbuf>, off: nat, lens: seq<nat>)
    requires ChainOK(chain, off)
    ensures var (pieces, whole) := Scatter(chain, off, lens);
            && whole == Drain(chain, off, Sum(lens))
            && |whole.got| <= Sum(lens)
            && Padded(pieces, |lens|) == Cut(whole.got, lens)
    decreases |lens|
  {
    DrainTakes(chain, off, Sum(lens));
    if lens == [] {
    } else if chain == [] {
      CutNothing(lens);
      CutNothing(lens[1..]);
    } else {
      DrainTakes(chain, off, lens[0]);
      var first := Drain(chain, off, lens[0]);
      ScatterIsRecv(first.chain, first.off, lens[1..]);
      DrainSplit(chain, off, lens[0], Sum(lens[1..]));
      ScatterStep(first, lens, Scatter(first.chain, first.off, lens[1..]).1);
    }
  }

  lemma ScatterStep(first: Read, lens: seq<nat>, rest: Read)
    requires lens != [] && |first.got| <= lens[0] && |rest.got| <= Sum(lens[1..])
    requires |first.got| < lens[0] ==> rest.got == []
    ensures Cut(Then(first, rest).got, lens) == [first.got] + Cut(rest.got, lens[1..])
  {
    var data := first.got + rest.got;
    if |data| > lens[0] {
      assert data[..lens[0]] == first.got && data[lens[0]..] == rest.got;
    } else {
      assert rest.got == [] && data == first.got;
    }
  }
}
