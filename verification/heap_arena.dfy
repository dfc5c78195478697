/** Who owns which byte of the arena, over runs of brk(), mmap() and munmap()
    (port/posix_shim.c:117-356). */
module HeapArena {
  import opened HeapModel

  /** cur and end are heap_cur and heap_end; live, broken and mapped are the bytes mmap() callers
      hold, the bytes brk() gave out, and the bytes mmap() ever took from the bump pointer. */
  datatype Arena = Arena(
    free: seq<Block>, live: set<nat>, broken: set<nat>, mapped: set<nat>, cur: nat, end: nat)

  function Bytes(a: nat, n: nat): (r: set<nat>)
    ensures forall x: nat :: x in r <==> a <= x < a + n
  {
    set x: nat | a <= x < a + n && Block(a, n).Has(x)
  }

  function RoundUp(n: nat): (r: nat)
    ensures r % 4096 == 0 && n <= r < n + 4096
  {
    (n + PAGE - 1) / PAGE * PAGE
  }

  ghost predicate Owned(a: Arena, x: nat) {
    x in a.live || x in a.broken || Covers(a.free, x)
  }

  ghost predicate ArenaOK(a: Arena) {
    && Canonical(a.free) && AllPaged(a.free)
    && a.live !! a.broken
    && (forall x: nat :: Covers(a.free, x) ==> x !in a.live && x !in a.broken)
    && (forall x: nat :: x in a.mapped <==> x in a.live || Covers(a.free, x))
    && (forall x: nat :: Owned(a, x) ==> x < a.cur && x < a.end)
  }

  /** What happened: an mmap(), a failed one, an munmap() or a brk(). */
  datatype Event =
    | Map(n: nat, addr: nat, end: nat)
    | NoMap(n: nat, end: nat)
    | Unmap(addr: nat, n: nat)
    | Brk(req: nat, end: nat)

  /** The bytes an event hands out. */
  function Granted(a: Arena, e: Event): set<nat> {
    match e
    case Map(n, addr, _) => Bytes(addr, n)
    case Brk(req, end) => if a.cur <= req <= end then Bytes(a.cur, req - a.cur) else {}
    case _ => {}
  }

  function Released(e: Event): set<nat> {
    if e.Unmap? then Bytes(e.addr, e.n) else {}
  }

  ghost predicate MapStep(a: Arena, n: nat, addr: nat, end: nat, a': Arena) {
    && n > 0 && n % PAGE == 0
    && var i := FirstFit(a.free, n, 0);
       if i < |a.free| then
         && addr == a.free[i].addr && end == a.end
         && a' == a.(free := Take(a.free, i, n), live := a.live + Bytes(addr, n))
       else
         && addr == RoundUp(a.cur) && addr + n <= end && a.end <= end
         && a' == a.(live := a.live + Bytes(addr, n), mapped := a.mapped + Bytes(addr, n), cur := addr + n, end := end)
  }

  /** munmap() is given whole pages that are mapped: the caller's part of the contract. */
  ghost predicate UnmapStep(a: Arena, addr: nat, n: nat, a': Arena) {
    && Paged(Block(addr, n)) && Bytes(addr, n) <= a.live
    && a' == a.(free := Insert(a.free, Block(addr, n)), live := a.live - Bytes(addr, n))
  }

  ghost predicate BrkStep(a: Arena, req: nat, end: nat, a': Arena) {
    && a.end <= end
    && a' == if a.cur <= req <= end
             then a.(cur := req, end := end, broken := a.broken + Bytes(a.cur, req - a.cur))
             else a.(end := end)
  }

  ghost predicate Step(a: Arena, e: Event, a': Arena) {
    match e
    case Map(n, addr, end) => MapStep(a, n, addr, end, a')
    case NoMap(n, end) => FirstFit(a.free, n, 0) == |a.free| && a.end <= end && a' == a.(end := end)
    case Unmap(addr, n) => UnmapStep(a, addr, n, a')
    case Brk(req, end) => BrkStep(a, req, end, a')
  }

  lemma TakePaged(bs: seq<Block>, i: nat, n: nat)
    requires AllPaged(bs) && i < |bs| && 0 < n <= bs[i].size && n % PAGE == 0
    ensures bs[i].size == n || bs[i].size >= n + HEADER
    ensures AllPaged(Take(bs, i, n))
  {
    assert Paged(bs[i]);
    if n < bs[i].size {
      assert Paged(Block(bs[i].addr + n, bs[i].size - n));
    }
  }

  lemma CoalescePaged(bs: seq<Block>, i: nat)
    requires AllPaged(bs) && i < |bs|
    ensures AllPaged(Coalesce(bs, i))
  {
    if i + 1 < |bs| {
      assert Paged(Block(bs[i].addr, bs[i].size + bs[i + 1].size)) by {
        assert Paged(bs[i]) && Paged(bs[i + 1]);
      }
    }
  }

  lemma InsertPaged(bs: seq<Block>, b: Block)
    requires AllPaged(bs) && Paged(b)
    ensures AllPaged(Insert(bs, b))
  {
    var i := Position(bs, b.addr, 0);
    CoalescePaged(Place(bs, i, b), i);
    if i > 0 {
      CoalescePaged(Coalesce(Place(bs, i, b), i), i - 1);
    }
  }

  lemma EndGrows(a: Arena, end: nat)
    requires ArenaOK(a) && a.end <= end
    ensures ArenaOK(a.(end := end))
  {
    forall x: nat | Owned(a.(end := end), x) ensures Owned(a, x) {
    }
  }

  /** What mmap() hands out was free, or never owned by anyone. */
  lemma MapKeeps(a: Arena, n: nat, addr: nat, end: nat, a': Arena)
    requires ArenaOK(a) && MapStep(a, n, addr, end, a')
    ensures ArenaOK(a') && addr % PAGE == 0
    ensures forall x: nat :: addr <= x < addr + n ==> x !in a.live && x !in a.broken
  {
    var i := FirstFit(a.free, n, 0);
    if i < |a.free| {
      TakePaged(a.free, i, n);
      TakeEffect(a.free, i, n);
      assert Paged(a.free[i]);
      forall x: nat | addr <= x < addr + n ensures Covers(a.free, x) {
        assert a.free[i].Has(x);
      }
      forall x: nat | Owned(a', x) ensures Owned(a, x) {
      }
    } else {
      forall x: nat | addr <= x < addr + n ensures x !in a.live && x !in a.broken && !Covers(a.free, x) {
        assert !Owned(a, x);
      }
      forall x: nat | Owned(a', x) ensures Owned(a, x) || addr <= x < addr + n {
      }
    }
  }

  lemma UnmapKeeps(a: Arena, addr: nat, n: nat, a': Arena)
    requires ArenaOK(a) && UnmapStep(a, addr, n, a')
    ensures ArenaOK(a') && Disjoint(a.free, Block(addr, n))
  {
    var b := Block(addr, n);
    forall x: nat | b.Has(x) ensures !Covers(a.free, x) {
      assert x in Bytes(addr, n);
    }
    InsertEffect(a.free, b);
    InsertPaged(a.free, b);
    forall x: nat ensures x in Bytes(addr, n) <==> b.Has(x) {
    }
    forall x: nat | Owned(a', x) ensures Owned(a, x) {
    }
  }

  /** Every step keeps the partition, hands out only bytes nobody holds, and never moves
      heap_cur or heap_end back. */
  lemma StepKeeps(a: Arena, e: Event, a': Arena)
    requires ArenaOK(a) && Step(a, e, a')
    ensures ArenaOK(a')
    ensures forall x: nat :: x in Granted(a, e) ==> x !in a.live && x !in a.broken
    ensures forall x: nat :: x in a'.live || x in a'.broken <==>
              ((x in a.live || x in a.broken) && x !in Released(e)) || x in Granted(a, e)
    ensures a.mapped <= a'.mapped && a.cur <= a'.cur && a.end <= a'.end
  {
    match e {
      case Map(n, addr, end) => MapKeeps(a, n, addr, end, a');
      case NoMap(_, _) =>
        EndGrows(a, a'.end);
      case Unmap(addr, n) => UnmapKeeps(a, addr, n, a');
      case Brk(req, end) =>
        forall x: nat | x in Granted(a, e) ensures x !in a.live && x !in a.broken && !Covers(a.free, x) {
          assert !Owned(a, x);
        }
        forall x: nat | Owned(a', x) ensures Owned(a, x) || x in Granted(a, e) {
        }
    }
  }

  /** A run: states[k + 1] is states[k] after events[k]. */
  ghost predicate IsRun(states: seq<Arena>, events: seq<Event>) {
    && |states| == |events| + 1
    && ArenaOK(states[0])
    && forall k :: 0 <= k < |events| ==> Step(states[k], events[k], states[k + 1])
  }

  lemma {:induction false} RunKeeps(states: seq<Arena>, events: seq<Event>, i: nat, j: nat)
    requires IsRun(states, events) && i <= j <= |events|
    ensures ArenaOK(states[i]) && ArenaOK(states[j])
    ensures states[i].cur <= states[j].cur && states[i].end <= states[j].end
    ensures states[i].mapped <= states[j].mapped
    decreases j
  {
    if i < j {
      RunKeeps(states, events, i, j - 1);
      StepKeeps(states[j - 1], events[j - 1], states[j]);
    } else if i > 0 {
      RunKeeps(states, events, i - 1, i - 1);
      StepKeeps(states[i - 1], events[i - 1], states[i]);
    }
  }

  /** A byte once held stays held until an munmap() releases it. */
  lemma {:induction false} HeldUntilUnmapped(states: seq<Arena>, events: seq<Event>, i: nat, j: nat, x: nat)
    requires IsRun(states, events) && i <= j <= |events|
    requires x in states[i].live || x in states[i].broken
    requires forall k :: i <= k < j ==> x !in Released(events[k])
    ensures x in states[j].live || x in states[j].broken
    decreases j
  {
    if i < j {
      HeldUntilUnmapped(states, events, i, j - 1, x);
      RunKeeps(states, events, 0, j - 1);
      StepKeeps(states[j - 1], events[j - 1], states[j]);
    }
  }

  /** No byte is handed out twice, by brk() or mmap(), without an munmap() of it in between. */
  lemma NoDoubleGrant(states: seq<Arena>, events: seq<Event>, i: nat, j: nat, x: nat)
    requires IsRun(states, events) && i < j < |events|
    requires x in Granted(states[i], events[i]) && x in Granted(states[j], events[j])
    ensures exists k :: i < k < j && events[k].Unmap? && x in Released(events[k])
  {
    RunKeeps(states, events, i, j);
    StepKeeps(states[i], events[i], states[i + 1]);
    StepKeeps(states[j], events[j], states[j + 1]);
    if forall k :: i < k < j ==> x !in Released(events[k]) {
      HeldUntilUnmapped(states, events, i + 1, j, x);
      assert false;
    }
  }

  /** Every page mmap() ever took is, at any later time, mapped or in exactly one free block. */
  lemma MappedPagesConserved(states: seq<Arena>, events: seq<Event>, i: nat, j: nat, x: nat)
    requires IsRun(states, events) && i <= j <= |events| && x in states[i].mapped
    ensures var a := states[j];
            x in a.live <==> !exists k :: 0 <= k < |a.free| && a.free[k].Has(x)
    ensures var a := states[j];
            forall k, l :: 0 <= k < |a.free| && 0 <= l < |a.free| && a.free[k].Has(x) && a.free[l].Has(x) ==> k == l
  {
    RunKeeps(states, events, i, j);
    var a := states[j];
    assert x in a.mapped;
    assert Covers(a.free, x) <==> exists k :: 0 <= k < |a.free| && a.free[k].Has(x);
  }

  /** Whatever the history, the free list is a function of what is mapped now and what ever was. */
  lemma FreeListDetermined(a: Arena, b: Arena)
    requires ArenaOK(a) && ArenaOK(b) && a.mapped == b.mapped && a.live == b.live
    ensures a.free == b.free
  {
    forall x: nat ensures Covers(a.free, x) <==> Covers(b.free, x) {
      assert Covers(a.free, x) <==> x in a.mapped && x !in a.live;
      assert Covers(b.free, x) <==> x in b.mapped && x !in b.live;
    }
    CanonicalUnique(a.free, b.free);
  }
}
