/** The mmap() free list as a sequence of blocks, and the arena brk() and mmap() share
    (port/posix_shim.c:79-356).  Addresses are byte addresses; 0 is the null pointer. */
module HeapModel {
  const PAGE: nat := 4096
  const MIB: nat := 0x10_0000
  const HEADER: nat := 16        // sizeof(struct free_block)

  datatype Block = Block(addr: nat, size: nat) {
    function End(): nat { addr + size }
    predicate Has(x: nat) { addr <= x < addr + size }
  }

  predicate Paged(b: Block) {
    b.addr > 0 && b.addr % PAGE == 0 && b.size > 0 && b.size % PAGE == 0
  }

  ghost predicate AllPaged(bs: seq<Block>) {
    forall i {:trigger Paged(bs[i])} :: 0 <= i < |bs| ==> Paged(bs[i])
  }

  /** In address order, none empty, none overlapping. */
  ghost predicate Ordered(bs: seq<Block>) {
    && (forall i :: 0 <= i < |bs| ==> bs[i].size > 0)
    && (forall i, j :: 0 <= i < j < |bs| ==> bs[i].End() <= bs[j].addr)
  }

  /** The normal form: there is a gap between any two blocks. */
  ghost predicate Canonical(bs: seq<Block>) {
    Ordered(bs) && forall i, j :: 0 <= i < j < |bs| ==> bs[i].End() < bs[j].addr
  }

  ghost predicate Covers(bs: seq<Block>, x: nat) {
    exists i :: 0 <= i < |bs| && bs[i].Has(x)
  }

  lemma CoversTail(bs: seq<Block>, x: nat)
    requires bs != [] && Ordered(bs)
    ensures Covers(bs[1..], x) <==> Covers(bs, x) && !bs[0].Has(x)
  {
    if Covers(bs[1..], x) {
      var i :| 0 <= i < |bs| - 1 && bs[1..][i].Has(x);
      assert bs[i + 1].Has(x);
    }
    if i :| 0 <= i < |bs| && bs[i].Has(x) && i > 0 {
      assert bs[1..][i - 1].Has(x);
    }
  }

  /** A set of bytes has at most one normal form. */
  lemma {:induction false} CanonicalUnique(a: seq<Block>, b: seq<Block>)
    requires Canonical(a) && Canonical(b)
    requires forall x :: Covers(a, x) <==> Covers(b, x)
    ensures a == b
  {
    if a == [] || b == [] {
      EmptyCovers(a, b);
      EmptyCovers(b, a);
    } else {
      FirstBlock(a, b);
      FirstBlock(b, a);
      assert a[0] == b[0];
      TailsAgree(a, b);
      CanonicalUnique(a[1..], b[1..]);
      assert a == [a[0]] + a[1..] && b == [b[0]] + b[1..];
    }
  }

  lemma EmptyCovers(a: seq<Block>, b: seq<Block>)
    requires Ordered(b) && forall x :: Covers(b, x) ==> Covers(a, x)
    ensures a == [] ==> b == []
  {
    if b != [] {
      assert b[0].Has(b[0].addr);
      assert Covers(b, b[0].addr);
    }
  }

  lemma TailsAgree(a: seq<Block>, b: seq<Block>)
    requires Ordered(a) && Ordered(b) && a != [] && b != [] && a[0] == b[0]
    requires forall x :: Covers(a, x) <==> Covers(b, x)
    ensures forall x :: Covers(a[1..], x) <==> Covers(b[1..], x)
  {
    forall x: nat ensures Covers(a[1..], x) <==> Covers(b[1..], x) {
      CoversTail(a, x);
      CoversTail(b, x);
    }
  }

  lemma NotBefore(bs: seq<Block>, x: nat)
    requires Canonical(bs) && Covers(bs, x)
    ensures bs != [] && bs[0].addr <= x && x != bs[0].End()
  {
    var k :| 0 <= k < |bs| && bs[k].Has(x);
  }

  lemma FirstBlock(a: seq<Block>, b: seq<Block>)
    requires Canonical(a) && Canonical(b) && a != [] && b != []
    requires forall x :: Covers(a, x) ==> Covers(b, x)
    ensures b[0].addr <= a[0].addr
    ensures a[0].addr == b[0].addr ==> a[0].size <= b[0].size
  {
    assert a[0].Has(a[0].addr);
    NotBefore(b, a[0].addr);
    if a[0].addr == b[0].addr && a[0].size > b[0].size {
      assert a[0].Has(b[0].End());
      NotBefore(b, b[0].End());
    }
  }

  /* ---- free_list_insert() ---- */

  /** How many blocks from i on lie before addr: where the walk of free_list_insert() stops. */
  function Position(bs: seq<Block>, addr: nat, i: nat): (r: nat)
    requires i <= |bs|
    ensures i <= r <= |bs|
    ensures forall k :: i <= k < r ==> bs[k].addr < addr
    ensures r < |bs| ==> bs[r].addr >= addr
    decreases |bs| - i
  {
    if i < |bs| && bs[i].addr < addr then Position(bs, addr, i + 1) else i
  }

  function Place(bs: seq<Block>, i: nat, b: Block): seq<Block>
    requires i <= |bs|
  {
    bs[..i] + [b] + bs[i..]
  }

  /** Block i absorbs the next one if they touch. */
  function Coalesce(bs: seq<Block>, i: nat): seq<Block>
    requires i < |bs|
  {
    if i + 1 < |bs| && bs[i].End() == bs[i + 1].addr
    then bs[..i] + [Block(bs[i].addr, bs[i].size + bs[i + 1].size)] + bs[i + 2..]
    else bs
  }

  function Insert(bs: seq<Block>, b: Block): seq<Block> {
    var i := Position(bs, b.addr, 0);
    var placed := Coalesce(Place(bs, i, b), i);
    if i > 0 then Coalesce(placed, i - 1) else placed
  }

  ghost predicate Disjoint(bs: seq<Block>, b: Block) {
    forall x :: b.Has(x) ==> !Covers(bs, x)
  }

  lemma PlaceFits(bs: seq<Block>, b: Block, k: nat)
    requires Ordered(bs) && b.size > 0 && Disjoint(bs, b) && k < |bs|
    ensures bs[k].addr < b.addr ==> bs[k].End() <= b.addr
    ensures bs[k].addr >= b.addr ==> b.End() <= bs[k].addr
  {
    if bs[k].addr < b.addr {
      assert b.Has(b.addr);
      assert bs[k].Has(b.addr) ==> Covers(bs, b.addr);
    } else {
      assert bs[k].Has(bs[k].addr);
      assert Covers(bs, bs[k].addr);
      assert !b.Has(bs[k].addr);
    }
  }

  lemma PlaceOrdered(bs: seq<Block>, b: Block)
    requires Ordered(bs) && b.size > 0 && Disjoint(bs, b)
    ensures Ordered(Place(bs, Position(bs, b.addr, 0), b))
  {
    var i := Position(bs, b.addr, 0);
    forall k | 0 <= k < |bs|
      ensures k < i ==> bs[k].End() <= b.addr
      ensures k >= i ==> b.End() <= bs[k].addr
    {
      PlaceFits(bs, b, k);
      assert i < k ==> bs[i].End() <= bs[k].addr;
    }
    PlaceBetween(bs, b, i);
  }

  lemma PlaceBetween(bs: seq<Block>, b: Block, i: nat)
    requires Ordered(bs) && b.size > 0 && i <= |bs|
    requires forall k :: 0 <= k < |bs| ==> (k < i ==> bs[k].End() <= b.addr) && (k >= i ==> b.End() <= bs[k].addr)
    ensures Ordered(Place(bs, i, b))
  {
    var r := Place(bs, i, b);
    forall k, l | 0 <= k < l < |r| ensures r[k].End() <= r[l].addr {
      assert r[k] == if k < i then bs[k] else if k == i then b else bs[k - 1];
      assert r[l] == if l < i then bs[l] else if l == i then b else bs[l - 1];
    }
  }

  lemma PlaceCovers(bs: seq<Block>, i: nat, b: Block, x: nat)
    requires i <= |bs|
    ensures Covers(Place(bs, i, b), x) <==> Covers(bs, x) || b.Has(x)
  {
    var placed := Place(bs, i, b);
    assert placed[i] == b;
    if k :| 0 <= k < |placed| && placed[k].Has(x) {
      assert placed[k] == if k < i then bs[k] else if k == i then b else bs[k - 1];
    }
    if k :| 0 <= k < |bs| && bs[k].Has(x) {
      assert placed[if k < i then k else k + 1] == bs[k];
    }
  }

  lemma CoalesceOrdered(bs: seq<Block>, i: nat)
    requires Ordered(bs) && i < |bs|
    ensures Ordered(Coalesce(bs, i))
  {
  }

  lemma CoalesceCovers(bs: seq<Block>, i: nat, x: nat)
    requires i < |bs|
    ensures Covers(Coalesce(bs, i), x) <==> Covers(bs, x)
  {
    var r := Coalesce(bs, i);
    if r != bs {
      if k :| 0 <= k < |r| && r[k].Has(x) {
        assert r[k] == bs[k] || k == i || r[k] == bs[k + 1];
        assert k == i ==> bs[i].Has(x) || bs[i + 1].Has(x);
      }
      if k :| 0 <= k < |bs| && bs[k].Has(x) {
        assert k < i ==> r[k] == bs[k];
        assert k > i + 1 ==> r[k - 1] == bs[k];
        assert k == i || k == i + 1 ==> r[i].Has(x);
      }
    }
  }

  /** Neighbours k, k + 1 do not touch, unless k is i or j. */
  ghost predicate GapsBut(bs: seq<Block>, i: nat, j: nat) {
    forall k, l :: 0 <= k < l < |bs| && l == k + 1 && k != i && k != j ==> bs[k].End() != bs[l].addr
  }

  lemma CoalesceGaps(bs: seq<Block>, i: nat, j: nat)
    requires Ordered(bs) && i < |bs| && GapsBut(bs, i, j) && (j < i || j >= |bs|)
    ensures GapsBut(Coalesce(bs, i), j, j)
  {
    var r := Coalesce(bs, i);
    if r != bs {
      forall k, l | 0 <= k < l < |r| && l == k + 1 && k != j ensures r[k].End() != r[l].addr {
        if l < i {
          assert r[k] == bs[k] && r[l] == bs[l];
        } else if l == i {
          assert r[k] == bs[k] && r[l].addr == bs[l].addr;
        } else if k == i {
          assert r[k].End() == bs[k + 1].End() && r[l] == bs[l + 1];
        } else {
          assert r[k] == bs[k + 1] && r[l] == bs[l + 1];
        }
      }
    }
  }

  lemma GapsApart(bs: seq<Block>, none: nat)
    requires Ordered(bs) && GapsBut(bs, none, none) && none >= |bs|
    ensures Canonical(bs)
  {
    forall i, j | 0 <= i < j < |bs| ensures bs[i].End() < bs[j].addr {
      assert bs[i].End() != bs[i + 1].addr;
      assert bs[i].End() <= bs[i + 1].addr;
      if i + 1 < j {
        assert bs[i + 1].End() <= bs[j].addr;
      }
    }
  }

  /** Coalescing on both sides of the new block leaves no two blocks touching. */
  lemma InsertApart(bs: seq<Block>, b: Block)
    requires Canonical(bs) && b.size > 0 && Ordered(Place(bs, Position(bs, b.addr, 0), b))
    ensures Canonical(Insert(bs, b))
  {
    var i := Position(bs, b.addr, 0);
    var placed := Place(bs, i, b);
    PlaceGaps(bs, i, b);
    CoalesceBoth(placed, i);
  }

  lemma CoalesceBoth(bs: seq<Block>, i: nat)
    requires Ordered(bs) && i < |bs| && GapsBut(bs, i, if i == 0 then |bs| else i - 1)
    ensures Canonical(if i > 0 then Coalesce(Coalesce(bs, i), i - 1) else Coalesce(bs, i))
  {
    CoalesceOrdered(bs, i);
    if i == 0 {
      CoalesceGaps(bs, 0, |bs|);
      GapsApart(Coalesce(bs, 0), |bs|);
    } else {
      CoalesceGaps(bs, i, i - 1);
      CoalesceTwice(Coalesce(bs, i), i - 1);
    }
  }

  lemma CoalesceTwice(bs: seq<Block>, i: nat)
    requires Ordered(bs) && i < |bs| && GapsBut(bs, i, i)
    ensures Canonical(Coalesce(bs, i))
  {
    CoalesceOrdered(bs, i);
    CoalesceGaps(bs, i, |bs|);
    GapsApart(Coalesce(bs, i), |bs|);
  }

  lemma PlaceGaps(bs: seq<Block>, i: nat, b: Block)
    requires Canonical(bs) && i <= |bs|
    ensures GapsBut(Place(bs, i, b), i, if i == 0 then |Place(bs, i, b)| else i - 1)
  {
    var r := Place(bs, i, b);
    forall k, l | 0 <= k < l < |r| && l == k + 1 && k != i && k != i - 1 ensures r[k].End() != r[l].addr {
      if l < i {
        assert r[k] == bs[k] && r[l] == bs[l];
      } else {
        assert r[k] == bs[k - 1] && r[l] == bs[l - 1];
      }
    }
  }

  /** How many blocks contain byte x. */
  function Times(bs: seq<Block>, x: nat): nat {
    if bs == [] then 0 else Times(bs[1..], x) + if bs[0].Has(x) then 1 else 0
  }

  lemma {:induction false} TimesAppend(a: seq<Block>, b: seq<Block>, x: nat)
    ensures Times(a + b, x) == Times(a, x) + Times(b, x)
    decreases |a|
  {
    if a == [] {
      assert a + b == b;
    } else {
      assert (a + b)[1..] == a[1..] + b;
      TimesAppend(a[1..], b, x);
    }
  }

  lemma TimesAround(a: seq<Block>, b: Block, c: seq<Block>, x: nat)
    ensures Times(a + [b] + c, x) == Times(a + c, x) + if b.Has(x) then 1 else 0
  {
    TimesAppend(a + [b], c, x);
    TimesAppend(a, [b], x);
    TimesAppend(a, c, x);
    assert [b][1..] == [];
  }

  lemma TimesCoalesce(bs: seq<Block>, i: nat, x: nat)
    requires i < |bs|
    ensures Times(Coalesce(bs, i), x) == Times(bs, x)
  {
    if Coalesce(bs, i) != bs {
      var a, b, c, d := bs[..i], bs[i], bs[i + 1], bs[i + 2..];
      assert bs == a + [b] + ([c] + d) && a + ([c] + d) == a + [c] + d;
      TimesAround(a, b, [c] + d, x);
      TimesAround(a, c, d, x);
      TimesAround(a, Block(b.addr, b.size + c.size), d, x);
    }
  }

  lemma TimesInsert(bs: seq<Block>, b: Block, x: nat)
    ensures Times(Insert(bs, b), x) == Times(bs, x) + if b.Has(x) then 1 else 0
  {
    var i := Position(bs, b.addr, 0);
    assert bs == bs[..i] + bs[i..];
    TimesAround(bs[..i], b, bs[i..], x);
    TimesCoalesce(Place(bs, i, b), i, x);
    if i > 0 {
      TimesCoalesce(Coalesce(Place(bs, i, b), i), i - 1, x);
    }
  }

  lemma {:induction false} OrderedOnce(bs: seq<Block>, x: nat)
    requires Ordered(bs)
    ensures Times(bs, x) == if Covers(bs, x) then 1 else 0
  {
    if bs != [] {
      CoversTail(bs, x);
      OrderedOnce(bs[1..], x);
      if i :| 0 <= i < |bs| && bs[i].Has(x) && i > 0 {
        assert bs[0].End() <= bs[i].addr;
      }
      assert bs[0].Has(x) ==> Covers(bs, x);
    }
  }

  /** A free leaves a list in normal form exactly if none of its bytes was free already: munmap() does
      not check for a range that is given back twice. */
  lemma InsertExact(bs: seq<Block>, b: Block)
    requires Canonical(bs) && b.size > 0
    ensures Canonical(Insert(bs, b)) <==> Disjoint(bs, b)
  {
    if Disjoint(bs, b) {
      InsertEffect(bs, b);
    } else {
      var x :| b.Has(x) && Covers(bs, x);
      TimesInsert(bs, b, x);
      OrderedOnce(bs, x);
      if Ordered(Insert(bs, b)) {
        OrderedOnce(Insert(bs, b), x);
      }
    }
  }

  /** A block given back twice in a row breaks any list. */
  lemma FreedTwice(bs: seq<Block>, b: Block)
    requires Canonical(bs) && b.size > 0 && Disjoint(bs, b)
    ensures Canonical(Insert(bs, b)) && !Canonical(Insert(Insert(bs, b), b))
  {
    InsertEffect(bs, b);
    assert b.Has(b.addr) && Covers(Insert(bs, b), b.addr);
    InsertExact(Insert(bs, b), b);
  }

  /** Freeing keeps the list in normal form and adds exactly the freed bytes. */
  lemma InsertEffect(bs: seq<Block>, b: Block)
    requires Canonical(bs) && b.size > 0 && Disjoint(bs, b)
    ensures Canonical(Insert(bs, b))
    ensures forall x :: Covers(Insert(bs, b), x) <==> Covers(bs, x) || b.Has(x)
  {
    var i := Position(bs, b.addr, 0);
    var placed := Place(bs, i, b);
    PlaceOrdered(bs, b);
    InsertApart(bs, b);
    forall x: nat ensures Covers(Insert(bs, b), x) <==> Covers(bs, x) || b.Has(x) {
      PlaceCovers(bs, i, b, x);
      CoalesceCovers(placed, i, x);
      if i > 0 {
        CoalesceCovers(Coalesce(placed, i), i - 1, x);
      }
    }
  }

  function InsertAll(bs: seq<Block>, ds: seq<Block>): seq<Block>
    decreases ds
  {
    if ds == [] then bs else InsertAll(Insert(bs, ds[0]), ds[1..])
  }

  /** Blocks that can be freed one after the other on top of bs. */
  ghost predicate Freeable(bs: seq<Block>, ds: seq<Block>) {
    && (forall k :: 0 <= k < |ds| ==> ds[k].size > 0 && Disjoint(bs, ds[k]))
    && (forall j, k :: 0 <= j < k < |ds| ==> ds[j].End() <= ds[k].addr || ds[k].End() <= ds[j].addr)
  }

  lemma {:induction false} InsertAllEffect(bs: seq<Block>, ds: seq<Block>)
    requires Canonical(bs) && Freeable(bs, ds)
    ensures Canonical(InsertAll(bs, ds))
    ensures forall x :: Covers(InsertAll(bs, ds), x) <==> Covers(bs, x) || Covers(ds, x)
    decreases ds
  {
    if ds != [] {
      var bs' := Insert(bs, ds[0]);
      InsertEffect(bs, ds[0]);
      assert Freeable(bs', ds[1..]);
      InsertAllEffect(bs', ds[1..]);
      forall x: nat ensures Covers(ds, x) <==> ds[0].Has(x) || Covers(ds[1..], x) {
        if k :| 0 <= k < |ds| && ds[k].Has(x) && k > 0 {
          assert ds[1..][k - 1].Has(x);
        }
        if k :| 0 <= k < |ds| - 1 && ds[1..][k].Has(x) {
          assert ds[k + 1].Has(x);
        }
      }
    }
  }

  /** The list depends on which bytes are free only: not on the order, nor on how frees were cut up. */
  lemma FreeOrderIrrelevant(bs: seq<Block>, ds: seq<Block>, es: seq<Block>)
    requires Canonical(bs) && Freeable(bs, ds) && Freeable(bs, es)
    requires forall x :: Covers(ds, x) <==> Covers(es, x)
    ensures InsertAll(bs, ds) == InsertAll(bs, es)
  {
    InsertAllEffect(bs, ds);
    InsertAllEffect(bs, es);
    CanonicalUnique(InsertAll(bs, ds), InsertAll(bs, es));
  }

  /* ---- free_list_alloc() ---- */

  /** The first block, from i on, of at least n bytes; |bs| if there is none. */
  function FirstFit(bs: seq<Block>, n: nat, i: nat): (r: nat)
    requires i <= |bs|
    ensures i <= r <= |bs|
    ensures forall k :: i <= k < r ==> bs[k].size < n
    ensures r < |bs| ==> bs[r].size >= n
    decreases |bs| - i
  {
    if i < |bs| && bs[i].size < n then FirstFit(bs, n, i + 1) else i
  }

  /** Cuts n bytes off the front of block i; a rest too small for a header is lost. */
  function Take(bs: seq<Block>, i: nat, n: nat): seq<Block>
    requires i < |bs| && n <= bs[i].size
  {
    if bs[i].size - n >= HEADER
    then bs[i := Block(bs[i].addr + n, bs[i].size - n)]
    else bs[..i] + bs[i + 1..]
  }

  /** Unless a small rest is lost, exactly the n bytes leave the free set. */
  lemma TakeEffect(bs: seq<Block>, i: nat, n: nat)
    requires Canonical(bs) && i < |bs| && n > 0 && (bs[i].size == n || bs[i].size >= n + HEADER)
    ensures Canonical(Take(bs, i, n))
    ensures forall x: nat :: Covers(Take(bs, i, n), x) <==> Covers(bs, x) && !(bs[i].addr <= x < bs[i].addr + n)
  {
    TakeCanonical(bs, i, n);
    forall x: nat ensures Covers(Take(bs, i, n), x) <==> Covers(bs, x) && !(bs[i].addr <= x < bs[i].addr + n) {
      TakeCovers(bs, i, n, x);
    }
  }

  lemma TakeCanonical(bs: seq<Block>, i: nat, n: nat)
    requires Canonical(bs) && i < |bs| && n > 0 && (bs[i].size == n || bs[i].size >= n + HEADER)
    ensures Canonical(Take(bs, i, n))
  {
    if bs[i].size == n {
      DropCanonical(bs, i);
    } else {
      ShrinkCanonical(bs, i, n);
    }
  }

  lemma DropCanonical(bs: seq<Block>, i: nat)
    requires Canonical(bs) && i < |bs|
    ensures Canonical(bs[..i] + bs[i + 1..])
  {
    var r := bs[..i] + bs[i + 1..];
    forall j, k | 0 <= j < k < |r| ensures r[j].End() < r[k].addr {
      assert r[j] == bs[if j < i then j else j + 1] && r[k] == bs[if k < i then k else k + 1];
    }
  }

  lemma ShrinkCanonical(bs: seq<Block>, i: nat, n: nat)
    requires Canonical(bs) && i < |bs| && n < bs[i].size
    ensures Canonical(bs[i := Block(bs[i].addr + n, bs[i].size - n)])
  {
    var r := bs[i := Block(bs[i].addr + n, bs[i].size - n)];
    forall j, k | 0 <= j < k < |r| ensures r[j].End() < r[k].addr {
      assert r[j].End() == bs[j].End() && r[k].addr >= bs[k].addr;
    }
  }

  lemma TakeCovers(bs: seq<Block>, i: nat, n: nat, x: nat)
    requires Canonical(bs) && i < |bs| && n > 0 && (bs[i].size == n || bs[i].size >= n + HEADER)
    ensures Covers(Take(bs, i, n), x) <==> Covers(bs, x) && !(bs[i].addr <= x < bs[i].addr + n)
  {
    if bs[i].size == n {
      DropCovers(bs, i, x);
    } else {
      ShrinkCovers(bs, i, n, x);
    }
  }

  lemma DropCovers(bs: seq<Block>, i: nat, x: nat)
    requires Ordered(bs) && i < |bs|
    ensures Covers(bs[..i] + bs[i + 1..], x) <==> Covers(bs, x) && !bs[i].Has(x)
  {
    var r := bs[..i] + bs[i + 1..];
    if k :| 0 <= k < |r| && r[k].Has(x) {
      assert r[k] == bs[if k < i then k else k + 1];
    }
    if k :| 0 <= k < |bs| && bs[k].Has(x) && k != i {
      assert r[if k < i then k else k - 1] == bs[k];
    }
  }

  lemma ShrinkCovers(bs: seq<Block>, i: nat, n: nat, x: nat)
    requires Ordered(bs) && i < |bs| && n < bs[i].size
    ensures Covers(bs[i := Block(bs[i].addr + n, bs[i].size - n)], x) <==>
            Covers(bs, x) && !(bs[i].addr <= x < bs[i].addr + n)
  {
    var r := bs[i := Block(bs[i].addr + n, bs[i].size - n)];
    if k :| 0 <= k < |r| && r[k].Has(x) {
      assert bs[k].Has(x);
      assert k < i ==> bs[k].End() <= bs[i].addr;
      assert i < k ==> bs[i].End() <= bs[k].addr;
    }
    if k :| 0 <= k < |bs| && bs[k].Has(x) && !(bs[i].addr <= x < bs[i].addr + n) {
      assert r[k].Has(x);
    }
  }

  ghost predicate FreeRun(bs: seq<Block>, a: nat, n: nat) {
    forall x :: a <= x < a + n ==> Covers(bs, x)
  }

  /** Contiguous free bytes always lie in one block. */
  lemma RunInBlock(bs: seq<Block>, a: nat, n: nat) returns (k: nat)
    requires Canonical(bs) && n > 0 && FreeRun(bs, a, n)
    ensures k < |bs| && bs[k].addr <= a && a + n <= bs[k].End()
  {
    assert Covers(bs, a);
    k :| 0 <= k < |bs| && bs[k].Has(a);
    EndNotCovered(bs, k);
  }

  lemma EndNotCovered(bs: seq<Block>, k: nat)
    requires Canonical(bs) && k < |bs|
    ensures !Covers(bs, bs[k].End())
  {
    forall j | 0 <= j < |bs| ensures !bs[j].Has(bs[k].End()) {
      if j < k {
        assert bs[j].End() < bs[k].addr;
      }
    }
  }

  /** First fit finds the lowest address where n free bytes start, and fails only if there are none. */
  lemma FirstFitLowest(bs: seq<Block>, n: nat)
    requires Canonical(bs) && n > 0
    ensures var i := FirstFit(bs, n, 0);
            if i == |bs| then forall a :: !FreeRun(bs, a, n)
            else FreeRun(bs, bs[i].addr, n) && forall a :: FreeRun(bs, a, n) ==> bs[i].addr <= a
  {
    var i := FirstFit(bs, n, 0);
    forall a: nat | FreeRun(bs, a, n) ensures i < |bs| && bs[i].addr <= a {
      var k := RunInBlock(bs, a, n);
      assert i < k ==> bs[i].End() < bs[k].addr;
    }
    if i < |bs| {
      forall x | bs[i].addr <= x < bs[i].addr + n ensures Covers(bs, x) {
        assert bs[i].Has(x);
      }
    }
  }
}
