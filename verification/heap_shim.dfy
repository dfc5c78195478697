/** The heap as the source keeps it (port/posix_shim.c:79-356): one memory that holds both the
    application's data and, inside freed ranges, the free list's own links.  Cell a of the memory
    is the 64-bit word at byte address a; only multiples of 8 are addressed. */
module HeapShim {
  import opened HeapModel
  import opened HeapArena

  const U64: nat := 0x1_0000_0000_0000_0000
  const TOP: nat := 0x8000_0000_0000         // end of the user half of the address space
  const ENOMEM: int := 12
  const ENODEV: int := 19

  type Word = w: nat | w < U64

  /** Address of block i, or null past the end: what the link before it holds. */
  function LinkTo(bs: seq<Block>, i: nat): nat {
    if i < |bs| then bs[i].addr else 0
  }

  /** The header of b: `next` at its address, `size` in the word after it. */
  predicate Node(m: seq<Word>, b: Block, next: nat) {
    b.addr + 8 < |m| && m[b.addr] == next && m[b.addr + 8] == b.size
  }

  /** Memory m holds the header of block k, linked to the next block. */
  ghost predicate NodeAt(m: seq<Word>, bs: seq<Block>, k: nat) {
    k < |bs| && Node(m, bs[k], LinkTo(bs, k + 1))
  }

  /** Memory m holds the headers of bs, but for that of block `but`. */
  ghost predicate Nodes(m: seq<Word>, bs: seq<Block>, but: int) {
    forall k :: 0 <= k < |bs| && k != but ==> NodeAt(m, bs, k)
  }

  /** Linking a new block in front of block i. */
  lemma PlaceNodes(m: seq<Word>, bs: seq<Block>, i: nat, b: Block)
    requires i <= |bs| && Nodes(m, bs, i - 1) && Node(m, b, LinkTo(bs, i))
    requires i > 0 ==> Node(m, bs[i - 1], b.addr)
    ensures Nodes(m, Place(bs, i, b), -1)
  {
    var r := Place(bs, i, b);
    forall k | 0 <= k < |r| ensures NodeAt(m, r, k) {
      if k < i - 1 {
        assert NodeAt(m, bs, k) && r[k] == bs[k] && LinkTo(r, k + 1) == LinkTo(bs, k + 1);
      } else if k == i - 1 {
        assert r[k] == bs[k] && LinkTo(r, k + 1) == b.addr;
      } else if k == i {
        assert r[k] == b && LinkTo(r, k + 1) == LinkTo(bs, i);
      } else {
        assert NodeAt(m, bs, k - 1) && r[k] == bs[k - 1] && LinkTo(r, k + 1) == LinkTo(bs, k);
      }
    }
  }

  /** Block i swallowing block i + 1. */
  lemma MergeNodes(m: seq<Word>, bs: seq<Block>, i: nat)
    requires i + 1 < |bs| && bs[i].End() == bs[i + 1].addr && Nodes(m, bs, i)
    requires Node(m, Block(bs[i].addr, bs[i].size + bs[i + 1].size), LinkTo(bs, i + 2))
    ensures Nodes(m, Coalesce(bs, i), -1)
  {
    var r := Coalesce(bs, i);
    forall k | 0 <= k < |r| ensures NodeAt(m, r, k) {
      if k < i {
        assert NodeAt(m, bs, k) && r[k] == bs[k] && LinkTo(r, k + 1) == LinkTo(bs, k + 1);
      } else if k == i {
        assert LinkTo(r, k + 1) == LinkTo(bs, i + 2);
      } else {
        assert NodeAt(m, bs, k + 1) && r[k] == bs[k + 1] && LinkTo(r, k + 1) == LinkTo(bs, k + 2);
      }
    }
  }

  /** Cutting n bytes off block i: the link to it now leads to the rest, or past it. */
  lemma TakeNodes(m: seq<Word>, bs: seq<Block>, i: nat, n: nat)
    requires i < |bs| && n <= bs[i].size
    requires forall k :: 0 <= k < |bs| && k != i && k != i - 1 ==> NodeAt(m, bs, k)
    requires var kept := bs[i].size - n >= HEADER;
             var rest := Block(bs[i].addr + n, bs[i].size - n);
             && (kept ==> Node(m, rest, LinkTo(bs, i + 1)))
             && (i > 0 ==> Node(m, bs[i - 1], if kept then rest.addr else LinkTo(bs, i + 1)))
    ensures Nodes(m, Take(bs, i, n), -1)
  {
    var r := Take(bs, i, n);
    forall k | 0 <= k < |r| ensures NodeAt(m, r, k) {
      if bs[i].size - n >= HEADER {
        if k != i && k != i - 1 {
          assert NodeAt(m, bs, k) && r[k] == bs[k] && LinkTo(r, k + 1) == LinkTo(bs, k + 1);
        } else if k == i {
          assert LinkTo(r, k + 1) == LinkTo(bs, k + 1);
        }
      } else if k < i - 1 {
        assert NodeAt(m, bs, k) && r[k] == bs[k] && LinkTo(r, k + 1) == LinkTo(bs, k + 1);
      } else if k == i - 1 {
        assert r[k] == bs[k] && LinkTo(r, k + 1) == LinkTo(bs, i + 1);
      } else {
        assert NodeAt(m, bs, k + 1) && r[k] == bs[k + 1] && LinkTo(r, k + 1) == LinkTo(bs, k + 2);
      }
    }
  }

  lemma PositionIs(bs: seq<Block>, addr: nat, i: nat)
    requires i <= |bs| && (forall k :: 0 <= k < i ==> bs[k].addr < addr)
    requires i < |bs| ==> bs[i].addr >= addr
    ensures Position(bs, addr, 0) == i
  {
  }

  lemma FirstFitIs(bs: seq<Block>, n: nat, i: nat)
    requires i <= |bs| && (forall k :: 0 <= k < i ==> bs[k].size < n)
    requires i < |bs| ==> bs[i].size >= n
    ensures FirstFit(bs, n, 0) == i
  {
  }

  /** Blocks in order, each with room for its header, all inside the memory. */
  ghost predicate Fits(m: seq<Word>, bs: seq<Block>) {
    && |m| <= TOP
    && Ordered(bs)
    && forall k :: 0 <= k < |bs| ==> bs[k].size >= HEADER && bs[k].addr > 0 && bs[k].End() <= |m|
  }

  /** Walking the links in memory m from head gives bs. */
  ghost predicate ListOK(m: seq<Word>, head: nat, bs: seq<Block>) {
    Fits(m, bs) && head == LinkTo(bs, 0) && Nodes(m, bs, -1)
  }

  /** m' differs from m only inside these blocks. */
  ghost predicate Outside(m: seq<Word>, m': seq<Word>, bs: seq<Block>) {
    |m'| == |m| && forall x: nat :: x < |m| && !Covers(bs, x) ==> m'[x] == m[x]
  }

  /** a->size += c->size; a->next = c->next */
  function AbsorbIn(m: seq<Word>, a: nat, c: nat): seq<Word>
    requires a + 8 < |m| && c + 8 < |m| && m[a + 8] + m[c + 8] < U64
  {
    m[a + 8 := m[a + 8] + m[c + 8]][a := m[c]]
  }

  lemma AbsorbSafe(m: seq<Word>, head: nat, bs: seq<Block>, i: nat)
    requires ListOK(m, head, bs) && i + 1 < |bs|
    ensures Node(m, bs[i], bs[i + 1].addr) && Node(m, bs[i + 1], LinkTo(bs, i + 2))
    ensures bs[i].size + bs[i + 1].size < U64 && bs[i].addr + 8 < bs[i + 1].addr
  {
    assert NodeAt(m, bs, i) && NodeAt(m, bs, i + 1);
  }

  lemma AbsorbEffect(m: seq<Word>, head: nat, bs: seq<Block>, i: nat)
    requires ListOK(m, head, bs) && i + 1 < |bs| && bs[i].End() == bs[i + 1].addr
    requires Node(m, bs[i], bs[i + 1].addr) && Node(m, bs[i + 1], LinkTo(bs, i + 2))
    requires bs[i].size + bs[i + 1].size < U64
    ensures ListOK(AbsorbIn(m, bs[i].addr, bs[i + 1].addr), head, Coalesce(bs, i))
    ensures Outside(m, AbsorbIn(m, bs[i].addr, bs[i + 1].addr), bs)
  {
    var m' := AbsorbIn(m, bs[i].addr, bs[i + 1].addr);
    HeaderApart(m, m', bs, i);
    MergeNodes(m', bs, i);
    CoalesceFits(m, m', bs, i);
  }

  lemma CoalesceFits(m: seq<Word>, m': seq<Word>, bs: seq<Block>, i: nat)
    requires Fits(m, bs) && |m'| == |m| && i + 1 < |bs| && bs[i].End() == bs[i + 1].addr
    ensures Fits(m', Coalesce(bs, i)) && LinkTo(Coalesce(bs, i), 0) == LinkTo(bs, 0)
  {
    CoalesceOrdered(bs, i);
    var r := Coalesce(bs, i);
    forall k | 0 <= k < |r| ensures r[k].size >= HEADER && r[k].addr > 0 && r[k].End() <= |m| {
      assert k < i ==> r[k] == bs[k];
      assert k == i ==> r[k].addr == bs[i].addr && r[k].End() == bs[i + 1].End();
      assert k > i ==> r[k] == bs[k + 1];
    }
  }

  /** Writing into header i leaves the other headers alone. */
  lemma HeaderApart(m: seq<Word>, m': seq<Word>, bs: seq<Block>, i: nat)
    requires Fits(m, bs) && Nodes(m, bs, i) && i < |bs|
    requires |m'| == |m| && forall x :: 0 <= x < |m| && x != bs[i].addr && x != bs[i].addr + 8 ==> m'[x] == m[x]
    ensures Nodes(m', bs, i) && Outside(m, m', bs)
  {
    forall k | 0 <= k < |bs| && k != i ensures NodeAt(m', bs, k) {
      assert NodeAt(m, bs, k);
      if k < i {
        assert bs[k].End() <= bs[i].addr;
      } else {
        assert bs[i].End() <= bs[k].addr;
      }
    }
    assert bs[i].Has(bs[i].addr) && bs[i].Has(bs[i].addr + 8);
  }

  /** What a walk of the list reads at block i. */
  lemma ReadNode(m: seq<Word>, head: nat, bs: seq<Block>, i: nat)
    requires ListOK(m, head, bs) && i < |bs|
    ensures Node(m, bs[i], LinkTo(bs, i + 1)) && bs[i].addr > 0 && bs[i].size >= HEADER
    ensures LinkTo(bs, i + 1) != 0 <==> i + 1 < |bs|
    ensures bs[i].addr + bs[i].size <= |m| <= TOP
  {
    assert NodeAt(m, bs, i);
  }

  /** Writes outside the free blocks leave the list alone. */
  lemma NodesUntouched(m: seq<Word>, m': seq<Word>, bs: seq<Block>)
    requires Fits(m, bs) && Nodes(m, bs, -1)
    requires |m'| == |m| && forall x: nat :: x < |m| && Covers(bs, x) ==> m'[x] == m[x]
    ensures Fits(m', bs) && Nodes(m', bs, -1)
  {
    forall k | 0 <= k < |bs| ensures NodeAt(m', bs, k) {
      assert NodeAt(m, bs, k);
      assert bs[k].Has(bs[k].addr) && bs[k].Has(bs[k].addr + 8);
    }
  }

  /** Linking b in between block i - 1 and block i. */
  function LinkIn(m: seq<Word>, b: Block, prev: nat, cur: nat): seq<Word>
    requires b.addr + 8 < |m| && b.size < U64 && b.addr < U64 && cur < U64 && prev < |m|
  {
    var m1 := m[b.addr + 8 := b.size][b.addr := cur];
    if prev != 0 then m1[prev := b.addr] else m1
  }

  lemma HeaderWritten(m: seq<Word>, bs: seq<Block>, b: Block, next: Word)
    requires Fits(m, bs) && Nodes(m, bs, -1) && Disjoint(bs, b) && b.size >= HEADER && b.End() <= |m| <= TOP
    ensures var m1 := m[b.addr + 8 := b.size][b.addr := next];
            && Fits(m1, bs) && Nodes(m1, bs, -1) && Node(m1, b, next)
            && forall x: nat :: x < |m| && !b.Has(x) ==> m1[x] == m[x]
  {
    assert b.Has(b.addr) && b.Has(b.addr + 8);
    NodesUntouched(m, m[b.addr + 8 := b.size][b.addr := next], bs);
  }

  lemma PrevRelinked(m: seq<Word>, bs: seq<Block>, b: Block, i: nat, next: Word)
    requires Fits(m, bs) && Nodes(m, bs, -1) && i < |bs| && Node(m, b, next)
    requires b.size >= HEADER && b.addr < TOP && bs[i].End() <= b.addr
    ensures var m' := m[bs[i].addr := b.addr];
            Nodes(m', bs, i) && Outside(m, m', bs) && Node(m', bs[i], b.addr) && Node(m', b, next)
  {
    assert NodeAt(m, bs, i);
    HeaderApart(m, m[bs[i].addr := b.addr], bs, i);
  }

  lemma LinkInFront(m: seq<Word>, bs: seq<Block>, b: Block)
    requires Fits(m, bs) && Nodes(m, bs, -1) && Disjoint(bs, b) && b.size >= HEADER && b.End() <= |m| <= TOP
    requires LinkTo(bs, 0) < TOP
    ensures var m' := LinkIn(m, b, 0, LinkTo(bs, 0)); Nodes(m', Place(bs, 0, b), -1) && Outside(m, m', bs + [b])
  {
    var m1 := LinkIn(m, b, 0, LinkTo(bs, 0));
    HeaderWritten(m, bs, b, LinkTo(bs, 0));
    PlaceNodes(m1, bs, 0, b);
    OutsideBoth(m, m1, m1, bs, b);
  }

  lemma LinkInAfter(m: seq<Word>, bs: seq<Block>, b: Block, i: nat)
    requires Fits(m, bs) && Nodes(m, bs, -1) && Disjoint(bs, b) && b.size >= HEADER && b.End() <= |m| <= TOP
    requires 0 < i <= |bs| && LinkTo(bs, i) < TOP && 0 < bs[i - 1].addr < |m| && bs[i - 1].End() <= b.addr
    ensures var m' := LinkIn(m, b, bs[i - 1].addr, LinkTo(bs, i));
            Nodes(m', Place(bs, i, b), -1) && Outside(m, m', bs + [b])
  {
    var next := LinkTo(bs, i);
    HeaderWritten(m, bs, b, next);
    LinkInTail(m, m[b.addr + 8 := b.size][b.addr := next], bs, b, i, next);
  }

  lemma LinkInTail(m: seq<Word>, m1: seq<Word>, bs: seq<Block>, b: Block, i: nat, next: Word)
    requires Fits(m1, bs) && Nodes(m1, bs, -1) && b.size >= HEADER && b.addr < TOP && 0 < i <= |bs|
    requires next == LinkTo(bs, i) && Node(m1, b, next) && bs[i - 1].End() <= b.addr && bs[i - 1].addr < |m1|
    requires |m1| == |m| && forall x: nat :: x < |m| && !b.Has(x) ==> m1[x] == m[x]
    ensures var m' := m1[bs[i - 1].addr := b.addr];
            Nodes(m', Place(bs, i, b), -1) && Outside(m, m', bs + [b])
  {
    var m' := m1[bs[i - 1].addr := b.addr];
    PrevRelinked(m1, bs, b, i - 1, next);
    PlaceNodes(m', bs, i, b);
    OutsideBoth(m, m1, m', bs, b);
  }

  /** A new block in its place keeps the blocks in order and inside the memory. */
  lemma PlaceInMemory(m: seq<Word>, m': seq<Word>, bs: seq<Block>, b: Block)
    requires Fits(m, bs) && |m'| == |m| && Disjoint(bs, b) && b.addr > 0 && b.size >= HEADER && b.End() <= |m|
    ensures Fits(m', Place(bs, Position(bs, b.addr, 0), b))
  {
    var i := Position(bs, b.addr, 0);
    var r := Place(bs, i, b);
    PlaceOrdered(bs, b);
    forall k | 0 <= k < |r| ensures r[k].size >= HEADER && r[k].addr > 0 && r[k].End() <= |m| {
      assert r[k] == if k < i then bs[k] else if k == i then b else bs[k - 1];
    }
  }

  lemma OutsideBoth(m: seq<Word>, m1: seq<Word>, m': seq<Word>, bs: seq<Block>, b: Block)
    requires |m1| == |m| && Outside(m1, m', bs) && forall x: nat :: x < |m| && !b.Has(x) ==> m1[x] == m[x]
    ensures Outside(m, m', bs + [b])
  {
    forall x: nat | x < |m| && !Covers(bs + [b], x) ensures m'[x] == m[x] {
      assert !(bs + [b])[|bs|].Has(x);
      assert forall k :: 0 <= k < |bs| ==> bs[k] == (bs + [b])[k];
    }
  }

  /** Cutting n bytes off the front of block i, whose predecessor is prev. */
  function CutIn(m: seq<Word>, cur: Block, n: nat, prev: nat): seq<Word>
    requires cur.addr + 8 < |m| && n <= cur.size && cur.End() <= |m| <= TOP && prev < |m|
  {
    if cur.size - n >= HEADER then
      var m1 := WithRest(m, cur, n, m[cur.addr]);
      if prev != 0 then m1[prev := cur.addr + n] else m1
    else if prev != 0 then m[prev := m[cur.addr]] else m
  }

  /** The rest of a block given a header. */
  function WithRest(m: seq<Word>, cur: Block, n: nat, link: Word): seq<Word>
    requires n + HEADER <= cur.size && cur.End() <= |m| <= TOP
  {
    m[cur.addr + n + 8 := cur.size - n][cur.addr + n := link]
  }

  /** What the links outside block i look like once `link` replaced the link to it. */
  lemma Relink(m: seq<Word>, bs: seq<Block>, i: nat, link: Word)
    requires Fits(m, bs) && 0 < i < |bs|
    requires forall k :: 0 <= k < |bs| && k != i ==> NodeAt(m, bs, k)
    ensures bs[i - 1].addr < |m|
    ensures var m' := m[bs[i - 1].addr := link];
            && (forall k :: 0 <= k < |bs| && k != i && k != i - 1 ==> NodeAt(m', bs, k))
            && Node(m', bs[i - 1], link) && Outside(m, m', bs)
  {
    var m' := m[bs[i - 1].addr := link];
    assert NodeAt(m, bs, i - 1);
    forall k | 0 <= k < |bs| && k != i && k != i - 1 ensures NodeAt(m', bs, k) {
      assert NodeAt(m, bs, k);
      assert k < i - 1 ==> bs[k].End() <= bs[i - 1].addr;
      assert k > i - 1 ==> bs[i - 1].End() <= bs[k].addr;
    }
    assert bs[i - 1].Has(bs[i - 1].addr);
  }

  lemma CutWhole(m: seq<Word>, bs: seq<Block>, i: nat, n: nat)
    requires Fits(m, bs) && Nodes(m, bs, -1) && i < |bs| && n <= bs[i].size < n + HEADER
    requires LinkTo(bs, i + 1) < U64
    ensures i > 0 ==> bs[i - 1].addr < |m|
    ensures var m' := if i == 0 then m else m[bs[i - 1].addr := LinkTo(bs, i + 1)];
            Nodes(m', Take(bs, i, n), -1) && Outside(m, m', bs)
  {
    assert forall k :: 0 <= k < |bs| ==> NodeAt(m, bs, k);
    if i == 0 {
      TakeNodes(m, bs, i, n);
    } else {
      Relink(m, bs, i, LinkTo(bs, i + 1));
      TakeNodes(m[bs[i - 1].addr := LinkTo(bs, i + 1)], bs, i, n);
    }
  }

  /** The rest of block i gets a header of its own. */
  lemma RestWritten(m: seq<Word>, bs: seq<Block>, i: nat, n: nat)
    requires Fits(m, bs) && Nodes(m, bs, -1) && i < |bs| && bs[i].size >= n + HEADER && LinkTo(bs, i + 1) < U64
    ensures var rest := Block(bs[i].addr + n, bs[i].size - n);
            && rest.addr + 8 < |m|
            && var m1 := WithRest(m, bs[i], n, LinkTo(bs, i + 1));
               && (forall k :: 0 <= k < |bs| && k != i ==> NodeAt(m1, bs, k))
               && Node(m1, rest, LinkTo(bs, i + 1)) && Outside(m, m1, bs)
  {
    var rest := Block(bs[i].addr + n, bs[i].size - n);
    var m1 := WithRest(m, bs[i], n, LinkTo(bs, i + 1));
    forall k | 0 <= k < |bs| && k != i ensures NodeAt(m1, bs, k) {
      assert NodeAt(m, bs, k);
      assert k < i ==> bs[k].End() <= bs[i].addr;
      assert k > i ==> bs[i].End() <= bs[k].addr;
    }
    assert bs[i].Has(rest.addr) && bs[i].Has(rest.addr + 8);
  }

  lemma CutFirst(m: seq<Word>, bs: seq<Block>, n: nat)
    requires Fits(m, bs) && Nodes(m, bs, -1) && bs != [] && bs[0].size >= n + HEADER && m[bs[0].addr] == LinkTo(bs, 1)
    ensures var m' := CutIn(m, bs[0], n, 0); Nodes(m', Take(bs, 0, n), -1) && Outside(m, m', bs)
  {
    RestWritten(m, bs, 0, n);
    TakeNodes(CutIn(m, bs[0], n, 0), bs, 0, n);
  }

  lemma CutIs(m: seq<Word>, cur: Block, n: nat, prev: nat)
    requires n + HEADER <= cur.size && cur.End() <= |m| <= TOP && 0 < prev < |m|
    ensures CutIn(m, cur, n, prev) == WithRest(m, cur, n, m[cur.addr])[prev := cur.addr + n]
  {
  }

  /** Once the rest has its header, m1 being memory then, the block before is linked to it. */
  lemma CutBehind(m: seq<Word>, m1: seq<Word>, bs: seq<Block>, i: nat, n: nat)
    requires Fits(m, bs) && 0 < i < |bs| && bs[i].size >= n + HEADER && |m1| == |m| && Outside(m, m1, bs)
    requires Node(m1, Block(bs[i].addr + n, bs[i].size - n), LinkTo(bs, i + 1)) && bs[i - 1].addr < |m1|
    requires forall k :: 0 <= k < |bs| && k != i ==> NodeAt(m1, bs, k)
    ensures var m' := m1[bs[i - 1].addr := bs[i].addr + n]; Nodes(m', Take(bs, i, n), -1) && Outside(m, m', bs)
  {
    LaterNodes(m1, bs, i, n);
    OutsideChain(m, m1, m1[bs[i - 1].addr := bs[i].addr + n], bs);
  }

  lemma OutsideChain(m: seq<Word>, m1: seq<Word>, m2: seq<Word>, bs: seq<Block>)
    requires Outside(m, m1, bs) && Outside(m1, m2, bs)
    ensures Outside(m, m2, bs)
  {
  }

  lemma LaterNodes(m1: seq<Word>, bs: seq<Block>, i: nat, n: nat)
    requires Fits(m1, bs) && 0 < i < |bs| && bs[i].size >= n + HEADER && bs[i - 1].addr < |m1|
    requires Node(m1, Block(bs[i].addr + n, bs[i].size - n), LinkTo(bs, i + 1))
    requires forall k :: 0 <= k < |bs| && k != i ==> NodeAt(m1, bs, k)
    ensures var m' := m1[bs[i - 1].addr := bs[i].addr + n]; Nodes(m', Take(bs, i, n), -1) && Outside(m1, m', bs)
  {
    Relink(m1, bs, i, bs[i].addr + n);
    assert bs[i - 1].End() <= bs[i].addr;
    TakeNodes(m1[bs[i - 1].addr := bs[i].addr + n], bs, i, n);
  }

  lemma TakeFits(m: seq<Word>, m': seq<Word>, bs: seq<Block>, i: nat, n: nat)
    requires Fits(m, bs) && |m'| == |m| && i < |bs| && n <= bs[i].size
    ensures Fits(m', Take(bs, i, n))
  {
    var r := Take(bs, i, n);
    if bs[i].size - n < HEADER {
      forall k | 0 <= k < |r| ensures r[k].size >= HEADER && r[k].addr > 0 && r[k].End() <= |m| {
        assert r[k] == if k < i then bs[k] else bs[k + 1];
      }
    }
  }

  lemma Neighbours(m: seq<Word>, head: nat, bs: seq<Block>, b: Block, i: nat)
    requires ListOK(m, head, bs) && Disjoint(bs, b) && b.size >= HEADER && i == Position(bs, b.addr, 0)
    ensures LinkTo(bs, i) < TOP
    ensures i > 0 ==> 0 < bs[i - 1].addr < |m| && bs[i - 1].End() <= b.addr
  {
    if i > 0 {
      PlaceFits(bs, b, i - 1);
    }
  }

  lemma CutReady(m: seq<Word>, head: nat, bs: seq<Block>, i: nat, n: nat)
    requires ListOK(m, head, bs) && i < |bs| && n <= bs[i].size
    ensures bs[i].addr + 8 < |m| <= TOP && bs[i].End() <= |m| && (i > 0 ==> 0 < bs[i - 1].addr < |m|)
    ensures m[bs[i].addr] == LinkTo(bs, i + 1) && m[bs[i].addr + 8] == bs[i].size && bs[i].addr > 0
    ensures Fits(m, Take(bs, i, n))
  {
    ReadNode(m, head, bs, i);
    if i > 0 {
      ReadNode(m, head, bs, i - 1);
    }
    TakeFits(m, m, bs, i, n);
  }

  lemma CutPartIn(m: seq<Word>, bs: seq<Block>, i: nat, n: nat)
    requires Fits(m, bs) && Nodes(m, bs, -1) && i < |bs| && n + HEADER <= bs[i].size
    requires m[bs[i].addr] == LinkTo(bs, i + 1)
    requires i > 0 ==> 0 < bs[i - 1].addr < |m|
    ensures var m' := CutIn(m, bs[i], n, if i == 0 then 0 else bs[i - 1].addr);
            Nodes(m', Take(bs, i, n), -1) && Outside(m, m', bs)
  {
    if i == 0 {
      CutFirst(m, bs, n);
    } else {
      RestWritten(m, bs, i, n);
      CutIs(m, bs[i], n, bs[i - 1].addr);
      CutBehind(m, WithRest(m, bs[i], n, LinkTo(bs, i + 1)), bs, i, n);
    }
  }

  lemma TakeHead(bs: seq<Block>, i: nat, n: nat)
    requires i < |bs| && n <= bs[i].size
    ensures LinkTo(Take(bs, i, n), 0) ==
            if i > 0 then LinkTo(bs, 0) else if n + HEADER <= bs[i].size then bs[i].addr + n else LinkTo(bs, 1)
  {
  }

  lemma CutWholeIn(m: seq<Word>, bs: seq<Block>, i: nat, n: nat)
    requires Fits(m, bs) && Nodes(m, bs, -1) && i < |bs| && n <= bs[i].size < n + HEADER
    requires m[bs[i].addr] == LinkTo(bs, i + 1)
    requires i > 0 ==> 0 < bs[i - 1].addr < |m|
    ensures var m' := CutIn(m, bs[i], n, if i == 0 then 0 else bs[i - 1].addr);
            Nodes(m', Take(bs, i, n), -1) && Outside(m, m', bs)
  {
    CutWhole(m, bs, i, n);
  }

  lemma CoalescedBefore(bs: seq<Block>, i: nat)
    requires 0 < i < |bs|
    ensures var r := Coalesce(bs, i); i < |r| && r[i - 1] == bs[i - 1] && r[i].addr == bs[i].addr
  {
  }

  /** Insert() touches nothing beyond the old blocks and the new one. */
  lemma OutsideTrans(m: seq<Word>, m1: seq<Word>, m2: seq<Word>, m3: seq<Word>, bs: seq<Block>, b: Block, i: nat)
    requires i <= |bs| && Outside(m, m1, bs + [b]) && Outside(m1, m2, Place(bs, i, b))
    requires if i > 0 then Outside(m2, m3, Coalesce(Place(bs, i, b), i)) else m3 == m2
    ensures Outside(m, m3, bs + [b])
  {
    forall x: nat | x < |m| && !Covers(bs + [b], x) ensures m3[x] == m[x] {
      PlaceCovers(bs, i, b, x);
      PlaceCovers(bs, |bs|, b, x);
      assert Place(bs, |bs|, b) == bs + [b];
      CoalesceCovers(Place(bs, i, b), i, x);
    }
  }

  lemma ReuseOutside(m: seq<Word>, m1: seq<Word>, m2: seq<Word>, bs: seq<Block>, i: nat, n: nat)
    requires Outside(m, m1, bs) && |m2| == |m1| && i < |bs| && n <= bs[i].size
    requires forall x :: 0 <= x < |m1| && !(bs[i].addr <= x < bs[i].addr + n) ==> m2[x] == m1[x]
    ensures Outside(m, m2, bs)
  {
    forall x: nat | x < |m| && !Covers(bs, x) ensures m2[x] == m[x] {
      assert !bs[i].Has(x);
    }
  }

  /** Writes inside free blocks touch no byte anybody holds, and none beyond heap_cur. */
  lemma HeldUntouched(a: Arena, m: seq<Word>, m': seq<Word>, bs: seq<Block>, x: nat)
    requires ArenaOK(a) && Outside(m, m', bs) && x < |m| && (Covers(bs, x) ==> Covers(a.free, x))
    ensures x in a.live || x in a.broken || x >= a.cur ==> m'[x] == m[x]
  {
    assert Owned(a, x) ==> x < a.cur;
  }

  /** The free list, its headers inline in the memory it manages. */
  class FreeList {
    const mem: array<Word>
    var head: nat                    // free_list
    ghost var blocks: seq<Block>

    ghost predicate Valid()
      reads this, mem
    {
      ListOK(mem[..], head, blocks)
    }

    constructor (mem: array<Word>)
      requires mem.Length <= TOP
      ensures Valid() && this.mem == mem && head == 0 && blocks == []
    {
      this.mem, head, blocks := mem, 0, [];
    }

    /** a->size += c->size; a->next = c->next */
    method AbsorbWords(a: nat, c: nat)
      requires a + 8 < c && c + 8 < mem.Length && mem[a + 8] + mem[c + 8] < U64
      modifies mem
      ensures mem[..] == AbsorbIn(old(mem[..]), a, c)
    {
      mem[a + 8] := mem[a + 8] + mem[c + 8];
      mem[a] := mem[c];
    }

    /** Coalescing two neighbours that touch. */
    method Absorb(a: nat, c: nat, ghost i: nat)
      requires Valid() && i + 1 < |blocks| && blocks[i].addr == a && blocks[i + 1].addr == c && blocks[i].End() == c
      modifies this, mem
      ensures Valid() && head == old(head) && blocks == Coalesce(old(blocks), i)
      ensures Outside(old(mem[..]), mem[..], old(blocks))
    {
      ghost var m, bs, list := mem[..], blocks, head;
      AbsorbSafe(m, list, bs, i);
      AbsorbWords(a, c);
      AbsorbEffect(m, list, bs, i);
      blocks := Coalesce(bs, i);
    }

    /** The walk of free_list_insert(): the last block before addr, and the one after it. */
    method Walk(addr: nat) returns (prev: nat, cur: nat, ghost i: nat)
      requires Valid()
      ensures i == Position(blocks, addr, 0)
      ensures cur == LinkTo(blocks, i) && prev == if i == 0 then 0 else blocks[i - 1].addr
    {
      prev, cur, i := 0, head, 0;
      while cur != 0 && cur < addr
        invariant 0 <= i <= |blocks| && cur == LinkTo(blocks, i)
        invariant prev == if i == 0 then 0 else blocks[i - 1].addr
        invariant forall k :: 0 <= k < i ==> blocks[k].addr < addr
        decreases |blocks| - i
      {
        ReadNode(mem[..], head, blocks, i);
        prev := cur;
        cur := mem[cur];
        i := i + 1;
      }
      PositionIs(blocks, addr, i);
    }
    /** The first half of free_list_insert(): the block takes its place in address order. */
    method LinkNew(addr: nat, size: nat) returns (prev: nat, ghost i: nat)
      requires Valid() && Disjoint(blocks, Block(addr, size))
      requires addr > 0 && size >= HEADER && addr + size <= mem.Length
      modifies this, mem
      ensures Valid() && i == Position(old(blocks), addr, 0) && blocks == Place(old(blocks), i, Block(addr, size))
      ensures prev == if i == 0 then 0 else blocks[i - 1].addr
      ensures Outside(old(mem[..]), mem[..], old(blocks) + [Block(addr, size)])
    {
      ghost var m, bs, b := mem[..], blocks, Block(addr, size);
      var cur;
      prev, cur, i := Walk(addr);
      PlaceInMemory(m, m, bs, b);
      Neighbours(m, head, bs, b, i);
      if i == 0 {
        LinkInFront(m, bs, b);
      } else {
        LinkInAfter(m, bs, b, i);
      }
      WriteLinks(addr, size, prev, cur);
      blocks := Place(bs, i, b);
    }

    /** blk->size = size; blk->next = cur; then the link to blk */
    method WriteLinks(addr: nat, size: nat, prev: nat, cur: nat)
      requires addr + 8 < mem.Length && size < U64 && addr < U64 && cur < U64 && prev < mem.Length
      modifies this`head, mem
      ensures mem[..] == LinkIn(old(mem[..]), Block(addr, size), prev, cur)
      ensures head == if prev == 0 then addr else old(head)
    {
      mem[addr + 8] := size;
      mem[addr] := cur;
      if prev != 0 {
        mem[prev] := addr;
      } else {
        head := addr;
      }
    }

    /** Block i and the block after it, at c, become one if they touch. */
    method CoalesceWith(a: nat, c: nat, ghost i: nat)
      requires Valid() && i < |blocks| && blocks[i].addr == a && c == LinkTo(blocks, i + 1)
      modifies this, mem
      ensures Valid() && head == old(head) && blocks == Coalesce(old(blocks), i)
      ensures Outside(old(mem[..]), mem[..], old(blocks))
    {
      ReadNode(mem[..], head, blocks, i);
      if c != 0 && a + mem[a + 8] == c {
        Absorb(a, c, i);
      }
    }

    /** free_list_insert() */
    method FreeListInsert(addr: nat, size: nat)
      requires Valid() && Disjoint(blocks, Block(addr, size))
      requires addr > 0 && size >= HEADER && addr + size <= mem.Length
      modifies this, mem
      ensures Valid() && blocks == Insert(old(blocks), Block(addr, size))
      ensures Outside(old(mem[..]), mem[..], old(blocks) + [Block(addr, size)])
    {
      ghost var bs, b, m := blocks, Block(addr, size), mem[..];
      var prev;
      ghost var i;
      prev, i := LinkNew(addr, size);
      ghost var placed, m1 := blocks, mem[..];
      ReadNode(m1, head, placed, i);
      CoalesceWith(addr, mem[addr], i);
      ghost var m2 := mem[..];
      if prev != 0 {
        CoalescedBefore(placed, i);
        CoalesceWith(prev, addr, i - 1);
      }
      OutsideTrans(m, m1, m2, mem[..], bs, b, i);
    }

    /** Cuts n bytes off block cur, which prev (or free_list, when prev is null) links to. */
    method CutOff(cur: nat, n: nat, prev: nat)
      requires cur + 8 < mem.Length <= TOP && n <= mem[cur + 8] && cur + mem[cur + 8] <= mem.Length && prev < mem.Length
      modifies this`head, mem
      ensures mem[..] == CutIn(old(mem[..]), Block(cur, old(mem[cur + 8])), n, prev)
      ensures head == if prev != 0 then old(head) else if old(mem[cur + 8]) - n >= HEADER then cur + n
              else old(mem[cur])
    {
      var remaining := mem[cur + 8] - n;
      if remaining >= HEADER {
        var rest := cur + n;
        var next := mem[cur];
        mem[rest + 8] := remaining;
        mem[rest] := next;
        if prev != 0 {
          mem[prev] := rest;
        } else {
          head := rest;
        }
      } else if prev != 0 {
        mem[prev] := mem[cur];
      } else {
        head := mem[cur];
      }
    }

    /** free_list_alloc(): first fit. */
    method FreeListAlloc(n: nat) returns (p: nat)
      requires Valid() && n > 0
      modifies this, mem
      ensures Valid()
      ensures var i := FirstFit(old(blocks), n, 0);
              if i == |old(blocks)| then p == 0 && blocks == old(blocks) && mem[..] == old(mem[..])
              else p == old(blocks)[i].addr && p > 0 && blocks == Take(old(blocks), i, n)
      ensures Outside(old(mem[..]), mem[..], old(blocks))
    {
      ghost var m, bs := mem[..], blocks;
      var prev, cur;
      ghost var i;
      prev, cur, i := FindFit(n);
      if cur == 0 {
        return 0;
      }
      CutReady(m, head, bs, i, n);
      TakeHead(bs, i, n);
      if bs[i].size - n >= HEADER {
        CutPartIn(m, bs, i, n);
      } else {
        CutWholeIn(m, bs, i, n);
      }
      CutOff(cur, n, prev);
      blocks := Take(bs, i, n);
      return cur;
    }

    /** The walk of free_list_alloc(): the first block with room, and the one before it. */
    method FindFit(n: nat) returns (prev: nat, cur: nat, ghost i: nat)
      requires Valid()
      ensures i == FirstFit(blocks, n, 0)
      ensures cur == LinkTo(blocks, i) && prev == if i == 0 then 0 else blocks[i - 1].addr
      ensures cur == 0 <==> i == |blocks|
    {
      prev, cur, i := 0, head, 0;
      while cur != 0
        invariant 0 <= i <= |blocks| && cur == LinkTo(blocks, i)
        invariant prev == if i == 0 then 0 else blocks[i - 1].addr
        invariant forall k :: 0 <= k < i ==> blocks[k].size < n
        decreases |blocks| - i
      {
        ReadNode(mem[..], head, blocks, i);
        if mem[cur + 8] >= n {
          FirstFitIs(blocks, n, i);
          return;
        }
        prev := cur;
        cur := mem[cur];
        i := i + 1;
      }
      FirstFitIs(blocks, n, i);
    }

    /** memset(p, 0, n) */
    method Zero(p: nat, n: nat)
      requires p + n <= mem.Length
      modifies mem
      ensures forall x :: p <= x < p + n ==> mem[x] == 0
      ensures forall x :: 0 <= x < mem.Length && !(p <= x < p + n) ==> mem[x] == old(mem[x])
    {
      for i := 0 to n
        invariant forall x :: p <= x < p + i ==> mem[x] == 0
        invariant forall x :: 0 <= x < mem.Length && !(p <= x < p + i) ==> mem[x] == old(mem[x])
      {
        mem[p + i] := 0;
      }
    }

    /** free_list_alloc() and the memset() that clears what it found. */
    method AllocZeroed(n: nat) returns (p: nat)
      requires Valid() && AllPaged(blocks) && Canonical(blocks) && n > 0 && n % PAGE == 0
      modifies this, mem
      ensures Valid()
      ensures var i := FirstFit(old(blocks), n, 0);
              if i == |old(blocks)| then p == 0 && blocks == old(blocks)
              else p == old(blocks)[i].addr && p > 0 && blocks == Take(old(blocks), i, n)
                   && p + n <= mem.Length && forall x :: p <= x < p + n ==> mem[x] == 0
      ensures Outside(old(mem[..]), mem[..], old(blocks))
    {
      ghost var bs, m := blocks, mem[..];
      p := FreeListAlloc(n);
      if p == 0 {
        return;
      }
      ghost var i, m1 := FirstFit(bs, n, 0), mem[..];
      TakePaged(bs, i, n);
      TakeEffect(bs, i, n);
      assert bs[i].End() <= mem.Length;
      Zero(p, n);
      NodesUntouched(m1, mem[..], blocks);
      ReuseOutside(m, m1, mem[..], bs, i, n);
    }
  }

  /** The MiB heap_grow() asks for: as few as hold `need` bytes, but at least one, unless `need + MIB - 1`
      wraps around at 64 bits, which comes to one. */
  function WantMib(need: nat): (w: nat)
    ensures w > 0
    ensures 0 < need <= 0x1_0000_0000_0000_0000 - 1048576 ==> (w - 1) * 1048576 < need <= w * 1048576
    ensures 0x1_0000_0000_0000_0000 - 1048576 < need < 0x1_0000_0000_0000_0000 ==> w == 1
    ensures need == 0 ==> w == 1
  {
    var w := (need + MIB - 1) % U64 / MIB;
    if w == 0 then 1 else w
  }

  /** The host side of b_system(FREE_MEMORY) and b_system(GROW_MEMORY): how many MiB the
      application has, initially and after each request.  It cannot exceed what the machine has. */
  class Host {
    const imageBase: nat
    const ram: nat
    const initial: nat
    const answer: (nat, nat) -> nat
    var calls: nat

    ghost predicate Valid() {
      && imageBase + initial * MIB <= ram
      && forall c: nat, want: nat :: imageBase + answer(c, want) * MIB <= ram
    }

    /** Where an arena that ends at `end` ends once the host has answered request number c, for `need` bytes. */
    function EndAfter(c: nat, end: nat, need: nat): (e: nat)
      ensures e >= end && e >= imageBase + answer(c, WantMib(need)) * 1048576
      ensures e == end || e == imageBase + answer(c, WantMib(need)) * 1048576
    {
      var now := imageBase + answer(c, WantMib(need)) * 1048576;
      if now > end then now else end
    }

    /** Asked, as request number c, for the whole MiB that hold `need` bytes, the host adds them to an arena that
        ends at `end`. */
    ghost predicate Gives(c: nat, end: nat, need: int) {
      && imageBase <= end && 0 < need <= 0x1_0000_0000_0000_0000 - 1048576
      && answer(c, (need + 1048575) / 1048576) >= (end - imageBase) / 1048576 + (need + 1048575) / 1048576
    }

    /** n bytes fit at the page after cur, or do once the host has given what is missing. */
    ghost predicate MakesRoom(c: nat, cur: nat, end: nat, n: nat) {
      RoundUp(cur) + n <= end || Gives(c, end, RoundUp(cur) + n - end)
    }

    method GrowMemory(want: nat) returns (mib: nat)
      requires Valid()
      modifies this
      ensures calls == old(calls) + 1 && mib == answer(old(calls), want)
      ensures imageBase + mib * MIB <= ram
    {
      mib := answer(calls, want);
      calls := calls + 1;
    }
  }

  lemma MibSteps(base: nat, end: nat, now: nat)
    requires base <= end && (end - base) % MIB == 0
    ensures (now * MIB) % MIB == 0
    ensures now > (end - base) / MIB ==> base + now * MIB >= end + MIB
    ensures now <= (end - base) / MIB ==> base + now * MIB <= end
  {
  }

  /** An arena of whole MiB that grows by the whole MiB that hold `need` bytes grows by as much. */
  lemma WholeMib(base: nat, end: nat, need: nat)
    requires base <= end && (end - base) % MIB == 0
    ensures 0 < need <= U64 - MIB ==> WantMib(need) == (need + 1048575) / 1048576
    ensures base + ((end - base) / 1048576 + (need + 1048575) / 1048576) * MIB >= end + need
  {
  }

  /** A mapping in an arena that had just grown. */
  lemma GrownFirst(a: Arena, n: nat, p: nat, end: nat, a': Arena)
    requires FirstFit(a.free, n, 0) == |a.free| && a.end <= end && MapStep(a.(end := end), n, p, end, a')
    ensures MapStep(a, n, p, end, a')
  {
  }

  /** How far n bytes at p reach past end, in 64 bits. */
  function ShortBy(p: nat, end: nat, n: nat): (s: nat)
    requires p < TOP + PAGE && n <= U64 / 2 && end < p + n
    ensures s == p + n - end && s < U64
  {
    if p > end then (p - end + n) % U64 else n - (end - p)
  }

  /** The arena: heap_cur, heap_end, the free list and the memory they describe. */
  class Heap {
    const list: FreeList
    const host: Host
    const bssStop: nat
    var heapCur: nat
    var heapEnd: nat
    ghost var arena: Arena

    ghost predicate Valid()
      reads this, list, list.mem, host
    {
      && host.Valid() && host.ram <= list.mem.Length <= TOP
      && list.Valid() && list.blocks == arena.free && ArenaOK(arena)
      && 0 < bssStop < TOP
      && arena.cur == (if heapCur == 0 then bssStop else heapCur)
      && arena.end == (if heapCur == 0 then host.imageBase + host.initial * MIB else heapEnd)
      && host.imageBase <= arena.end <= list.mem.Length
      && (arena.end - host.imageBase) % MIB == 0
      && (arena.cur <= arena.end || arena.cur == bssStop)
      // nobody has written beyond heap_cur
      && (forall x :: arena.cur <= x < list.mem.Length ==> list.mem[x] == 0)
    }

    /** Before the first call: nothing handed out, and fresh RAM reads as zero. */
    constructor (list: FreeList, host: Host, bssStop: nat)
      requires host.Valid() && host.ram <= list.mem.Length <= TOP && 0 < bssStop < TOP
      requires list.head == 0 && list.blocks == []
      requires forall x :: bssStop <= x < list.mem.Length ==> list.mem[x] == 0
      ensures Valid() && this.list == list && this.host == host && this.bssStop == bssStop
      ensures arena.live == arena.broken == arena.mapped == {} && arena.free == []
    {
      this.list, this.host, this.bssStop := list, host, bssStop;
      heapCur, heapEnd := 0, 0;
      arena := Arena([], {}, {}, {}, bssStop, host.imageBase + host.initial * MIB);
    }

    method HeapInit()
      requires Valid()
      modifies this
      ensures Valid() && heapCur != 0 && arena == old(arena)
    {
      if heapCur != 0 {
        return;
      }
      var appRamMib := host.initial;
      heapCur := bssStop;
      heapEnd := host.imageBase + appRamMib * MIB;
    }

    /** heap_grow(): heap_end follows the host's answer, and only upwards. */
    method HeapGrow(need: nat) returns (grew: bool)
      requires Valid() && heapCur != 0 && need < U64
      modifies this`heapEnd, this`arena, host
      ensures Valid() && arena == old(arena).(end := heapEnd)
      ensures host.calls == old(host.calls) + 1
      ensures heapEnd == host.EndAfter(old(host.calls), old(heapEnd), need)
      ensures if grew then heapEnd >= old(heapEnd) + 1048576 else heapEnd == old(heapEnd)
      ensures host.Gives(old(host.calls), old(heapEnd), need) ==> heapEnd >= old(heapEnd) + need
    {
      WholeMib(host.imageBase, heapEnd, need);
      var wantMib := (need + MIB - 1) % U64 / MIB;
      if wantMib == 0 {
        wantMib := 1;
      }
      var haveMib := (heapEnd - host.imageBase) / MIB;
      MibSteps(host.imageBase, heapEnd, host.answer(host.calls, wantMib));
      var nowMib := host.GrowMemory(wantMib);
      if nowMib <= haveMib {
        return false;
      }
      heapEnd := host.imageBase + nowMib * MIB;
      EndGrows(arena, heapEnd);
      arena := arena.(end := heapEnd);
      return true;
    }

    /** heap_cur = req, for brk(): the bytes passed over now belong to its callers. */
    method MoveBreak(req: nat)
      requires Valid() && heapCur != 0 && heapCur <= req <= heapEnd
      modifies this`heapCur, this`arena
      ensures Valid() && heapCur == req && BrkStep(old(arena), req, heapEnd, arena)
    {
      ghost var a := arena;
      heapCur := req;
      arena := a.(cur := req, broken := a.broken + Bytes(a.cur, req - a.cur));
      StepKeeps(a, Brk(req, a.end), arena);
    }

    /** brk(): never rewinds the shared pointer; returns the break it ends up with. */
    method SysBrk(addr: nat) returns (r: nat)
      requires Valid() && addr < U64
      modifies this, host
      ensures Valid() && heapCur != 0 && r == heapCur == arena.cur
      ensures Step(old(arena), Brk(addr, arena.end), arena)
      // a request at or above heap_cur and within the arena is granted, and no other moves the break
      ensures r == if old(arena.cur) <= addr <= arena.end then addr else old(arena.cur)
      ensures old(arena.end) < addr && old(arena.cur) <= addr
              && host.Gives(old(host.calls), old(arena.end), addr - old(arena.end))
              ==> r == addr
      // a request at or below heap_end never asks the host; one above asks for the difference, once
      ensures if addr <= old(arena.end) then host.calls == old(host.calls) && arena.end == old(arena.end)
              else host.calls == old(host.calls) + 1
                   && arena.end == host.EndAfter(old(host.calls), old(arena.end), addr - old(arena.end))
    {
      HeapInit();
      if addr > heapEnd {
        var grew := HeapGrow(addr - heapEnd);
      }
      if heapCur <= addr <= heapEnd {
        MoveBreak(addr);
      }
      r := heapCur;
    }

    /** The loop of heap_alloc(): asks the host for the shortfall until the request fits or the
        host adds nothing.  Each answer that helps lowers the shortfall by a MiB or more. */
    method MakeRoom(p: nat, n: nat) returns (ok: bool)
      requires Valid() && heapCur != 0 && p < TOP + PAGE && n <= U64 / 2
      modifies this`heapEnd, this`arena, host
      ensures Valid() && arena == old(arena).(end := heapEnd) && heapEnd >= old(heapEnd)
      ensures ok <==> p + n <= heapEnd
      ensures p + n <= old(heapEnd) ==> host.calls == old(host.calls) && heapEnd == old(heapEnd)
      ensures p + n > old(heapEnd) && host.Gives(old(host.calls), old(heapEnd), p + n - old(heapEnd)) ==>
                ok && host.calls == old(host.calls) + 1
      ensures !ok ==> host.calls > old(host.calls)
                      && host.EndAfter(host.calls - 1, heapEnd, p + n - heapEnd) == heapEnd
    {
      while p > heapEnd || n > heapEnd - p
        invariant Valid() && arena == old(arena).(end := heapEnd) && heapEnd >= old(heapEnd)
        invariant host.calls >= old(host.calls)
        invariant host.calls == old(host.calls) ==> heapEnd == old(heapEnd)
        invariant host.calls > old(host.calls) && host.Gives(old(host.calls), old(heapEnd), p + n - old(heapEnd)) ==>
                    p + n <= heapEnd && host.calls == old(host.calls) + 1
        invariant p + n <= old(heapEnd) ==> host.calls == old(host.calls) && heapEnd == old(heapEnd)
        decreases p + n - heapEnd
      {
        var shortBy := ShortBy(p, heapEnd, n);
        ok := HeapGrow(shortBy);
        if !ok {
          return;
        }
      }
      ok := true;
    }

    /** heap_cur = p + n, for mmap(): the new pages belong to the caller. */
    method Bump(p: nat, n: nat)
      requires Valid() && heapCur != 0 && p == RoundUp(heapCur) && p + n <= heapEnd
      requires n > 0 && n % PAGE == 0 && FirstFit(arena.free, n, 0) == |arena.free|
      modifies this`heapCur, this`arena
      ensures Valid() && MapStep(old(arena), n, p, heapEnd, arena) && arena.end == heapEnd && p > 0
      ensures forall x :: p <= x < p + n ==> list.mem[x] == 0
    {
      ghost var a := arena;
      heapCur := p + n;
      arena := a.(live := a.live + Bytes(p, n), mapped := a.mapped + Bytes(p, n), cur := p + n);
      StepKeeps(a, Map(n, p, a.end), arena);
    }

    /** heap_alloc(): bump allocation, growing the arena as needed; null when that fails. */
    method HeapAlloc(n: nat) returns (p: nat)
      requires Valid() && 0 < n <= U64 / 2 && n % PAGE == 0 && FirstFit(arena.free, n, 0) == |arena.free|
      modifies this, host
      ensures Valid() && arena.end >= old(arena.end)
      ensures p != 0 ==> MapStep(old(arena), n, p, arena.end, arena)
                         && forall x :: p <= x < p + n ==> list.mem[x] == 0
      // null only if the host added nothing while the request still does not fit
      ensures p == 0 ==> arena == old(arena).(end := arena.end) && RoundUp(arena.cur) + n > arena.end
                         && host.calls > old(host.calls)
                         && host.EndAfter(host.calls - 1, arena.end, RoundUp(arena.cur) + n - arena.end) == arena.end
      ensures RoundUp(old(arena.cur)) + n <= old(arena.end) ==> p != 0 && host.calls == old(host.calls)
      ensures host.MakesRoom(old(host.calls), old(arena.cur), old(arena.end), n) ==> p != 0
    {
      HeapInit();
      p := RoundUp(heapCur);
      var ok := MakeRoom(p, n);
      if !ok {
        return 0;
      }
      Bump(p, n);
      GrownFirst(old(arena), n, p, heapEnd, arena);
    }

    /** The part of mmap() that reuses freed memory. */
    method Reuse(n: nat) returns (p: nat)
      requires Valid() && n > 0 && n % PAGE == 0
      modifies this`arena, list, list.mem
      ensures Valid()
      ensures if FirstFit(old(arena.free), n, 0) == |old(arena.free)| then p == 0 && arena == old(arena)
              else p > 0 && MapStep(old(arena), n, p, arena.end, arena) && forall x :: p <= x < p + n ==>
                  list.mem[x] == 0
      ensures forall x: nat :: x < list.mem.Length && (x in old(arena.live) || x in old(arena.broken)) ==>
                list.mem[x] == old(list.mem[x])
      ensures host.calls == old(host.calls) && heapEnd == old(heapEnd)
    {
      ghost var a, m := arena, list.mem[..];
      p := list.AllocZeroed(n);
      forall x: nat | x < |m| ensures x in a.live || x in a.broken || a.cur <= x ==> list.mem[x] == m[x] {
        HeldUntouched(a, m, list.mem[..], a.free, x);
      }
      if p != 0 {
        arena := a.(free := list.blocks, live := a.live + Bytes(p, n));
        StepKeeps(a, Map(n, p, a.end), arena);
      }
    }

    /** Freed memory if there is room in it, else new memory. */
    method Obtain(n: nat) returns (p: nat)
      requires Valid() && 0 < n <= U64 / 2 && n % PAGE == 0
      modifies this, list, list.mem, host
      ensures Valid()
      ensures if p == 0 then Step(old(arena), NoMap(n, arena.end), arena) && RoundUp(arena.cur) + n > arena.end
              else MapStep(old(arena), n, p, arena.end, arena) && forall x :: p <= x < p + n ==> list.mem[x] == 0
      ensures host.MakesRoom(old(host.calls), old(arena.cur), old(arena.end), n) ==> p != 0
      ensures forall x: nat :: x < list.mem.Length && (x in old(arena.live) || x in old(arena.broken)) ==>
                list.mem[x] == old(list.mem[x])
    {
      p := Reuse(n);
      if p == 0 {
        p := HeapAlloc(n);
      }
    }

    /** mmap(): len is a signed 64-bit number of bytes, rounded up to whole pages. */
    method SysMmap(len: int, anonymous: bool) returns (r: int)
      requires Valid() && len < U64 / 2
      modifies this, list, list.mem, host
      ensures Valid()
      ensures !anonymous || len <= 0 ==> r == -19 && arena == old(arena) && list.mem[..] == old(list.mem[..])
      ensures anonymous && len > 0 ==>
                var n := RoundUp(len);
                if r == -12
                then Step(old(arena), NoMap(n, arena.end), arena) && RoundUp(arena.cur) + n > arena.end
                else r > 0 && r % 4096 == 0 && Step(old(arena), Map(n, r, arena.end), arena)
                     && forall x :: r <= x < r + n ==> list.mem[x] == 0
      // it fails only if the host does not give what is missing
      ensures anonymous && len > 0 && host.MakesRoom(old(host.calls), old(arena.cur), old(arena.end), RoundUp(len))
              ==> r != -12
      // nobody held what it grants, and now the caller does
      ensures anonymous && len > 0 && r != -12 ==>
                forall x: nat :: r <= x < r + len ==>
                  x !in old(arena.live) && x !in old(arena.broken) && x in arena.live
      // what anybody already held keeps its contents
      ensures forall x: nat :: x < list.mem.Length && (x in old(arena.live) || x in old(arena.broken)) ==>
                list.mem[x] == old(list.mem[x])
    {
      if !anonymous || len <= 0 {
        return -ENODEV;
      }
      var n := RoundUp(len);
      ghost var a := arena;
      var p := Obtain(n);
      if p == 0 {
        return -ENOMEM;
      }
      MapKeeps(a, n, p, arena.end, arena);
      r := p;
    }

    /** munmap() of whole pages somebody holds. */
    method Release(addr: nat, n: nat)
      requires Valid() && Paged(Block(addr, n)) && Bytes(addr, n) <= arena.live
      modifies this`arena, list, list.mem
      ensures Valid() && UnmapStep(old(arena), addr, n, arena)
      ensures forall x: nat :: x < list.mem.Length && (x in arena.live || x in arena.broken) ==>
                list.mem[x] == old(list.mem[x])
    {
      ghost var a, m, b := arena, list.mem[..], Block(addr, n);
      ghost var a' := a.(free := Insert(a.free, b), live := a.live - Bytes(addr, n));
      UnmapKeeps(a, addr, n, a');
      UnmapInside(a, b, list.mem.Length);
      list.FreeListInsert(addr, n);
      arena := a';
      UnmapUntouched(a, a', m, list.mem[..], b);
    }

    /** munmap(): the caller gives back whole pages it holds. */
    method SysMunmap(addr: nat, len: int) returns (r: int)
      requires Valid() && len < U64 / 2
      requires addr != 0 && len > 0 ==> addr % PAGE == 0 && Bytes(addr, RoundUp(len)) <= arena.live
      modifies this`arena, list, list.mem
      ensures Valid() && r == 0
      ensures if addr == 0 || len <= 0 then arena == old(arena) && list.mem[..] == old(list.mem[..])
              else Step(old(arena), Unmap(addr, RoundUp(len)), arena)
      ensures forall x: nat :: x < list.mem.Length && (x in arena.live || x in arena.broken) ==>
                list.mem[x] == old(list.mem[x])
    {
      if addr == 0 || len <= 0 {
        return 0;
      }
      Release(addr, RoundUp(len));
      r := 0;
    }

    /** The application writes a word of memory it was given. */
    method Store(addr: nat, v: Word)
      requires Valid() && addr < list.mem.Length
      requires addr in arena.live || addr in arena.broken
      modifies list.mem
      ensures Valid() && list.mem[..] == old(list.mem[..])[addr := v]
    {
      ghost var m := list.mem[..];
      list.mem[addr] := v;
      NodesUntouched(m, list.mem[..], list.blocks);
      assert Owned(arena, addr);
    }
  }

  lemma UnmapUntouched(a: Arena, a': Arena, m: seq<Word>, m': seq<Word>, b: Block)
    requires ArenaOK(a) && ArenaOK(a') && UnmapStep(a, b.addr, b.size, a') && Disjoint(a.free, b)
    requires Outside(m, m', a.free + [b])
    ensures forall x: nat :: x < |m| && (x in a'.live || x in a'.broken || a'.cur <= x) ==> m'[x] == m[x]
  {
    forall x: nat | x < |m| ensures x in a'.live || x in a'.broken || a'.cur <= x ==> m'[x] == m[x] {
      InsertEffect(a.free, b);
      PlaceCovers(a.free, |a.free|, b, x);
      assert Place(a.free, |a.free|, b) == a.free + [b];
      HeldUntouched(a', m, m', a.free + [b], x);
    }
  }

  lemma UnmapInside(a: Arena, b: Block, size: nat)
    requires ArenaOK(a) && Paged(b) && Bytes(b.addr, b.size) <= a.live && a.end <= size
    ensures b.End() <= size && b.size >= HEADER
  {
    assert b.End() - 1 in Bytes(b.addr, b.size);
    assert Owned(a, b.End() - 1);
  }
}
