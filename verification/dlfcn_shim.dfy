/** Loading a module (port/dlfcn_shim.c): segments are copied into a block, relocation words patched
    in place.  Index x of the block is the byte at virtual address minVaddr + x. */
module DlfcnShim {
  import opened Bytes
  import opened Options
  import opened DlfcnModel
  import opened DlfcnTables
  import opened DlfcnRaw

  datatype Segment = Segment(vaddr: nat, data: seq<Byte>, memsz: nat)

  /** A module file: its PT_LOAD segments, and where its PT_DYNAMIC segment goes, if it has one. */
  datatype ModuleFile = ModuleFile(segs: seq<Segment>, dyn: Option<nat>)

  datatype Loaded = Loaded(block: array<Byte>, base: nat, layout: Layout) | Failed(err: DlError)

  /** Index of a relocation's target word. */
  function Target(minVaddr: nat, r: Rela): int {
    r.offset - minVaddr
  }

  predicate InTarget(minVaddr: nat, r: Rela, x: int) {
    Target(minVaddr, r) <= x < Target(minVaddr, r) + 8
  }

  /** Targets are words of the block that do not overlap; symbol indices are in range. */
  ghost predicate RelocsOK(relocs: seq<Rela>, minVaddr: nat, size: nat, syms: seq<Sym>) {
    && (forall i :: 0 <= i < |relocs| ==>
          && 0 <= Target(minVaddr, relocs[i]) && Target(minVaddr, relocs[i]) + 8 <= size
          && (UsesSym(relocs[i].kind) ==> relocs[i].sym < |syms|))
    && (forall i, j :: 0 <= i < j < |relocs| ==>
          || Target(minVaddr, relocs[i]) + 8 <= Target(minVaddr, relocs[j])
          || Target(minVaddr, relocs[j]) + 8 <= Target(minVaddr, relocs[i]))
  }

  ghost predicate Patched(minVaddr: nat, relocs: seq<Rela>, x: int) {
    exists i :: 0 <= i < |relocs| && InTarget(minVaddr, relocs[i], x)
  }

  /** after is before with every relocation word stored, and nothing else touched. */
  ghost predicate Relocated(before: seq<Byte>, after: seq<Byte>, bias: nat, minVaddr: nat, relocs: seq<Rela>,
                            syms: seq<Sym>, exports: seq<Export>)
    requires RelocsOK(relocs, minVaddr, |before|, syms)
  {
    && |after| == |before|
    && (forall i :: 0 <= i < |relocs| ==>
          after[Target(minVaddr, relocs[i])..Target(minVaddr, relocs[i]) + 8]
              == Encode(Stored(bias, relocs[i], syms, exports), 8))
    && (forall x :: 0 <= x < |before| && !Patched(minVaddr, relocs, x) ==> after[x] == before[x])
  }

  method LookupExport(exports: seq<Export>, name: Name) returns (addr: nat)
    ensures addr == Lookup(exports, name)
  {
    for i := 0 to |exports|
      invariant Lookup(exports[i..], name) == Lookup(exports, name)
    {
      if exports[i].name == name {
        return exports[i].addr;
      }
      assert exports[i..][1..] == exports[i + 1..];
    }
    return 0;
  }

  /** *target = v */
  method StoreWord(block: array<Byte>, at: nat, v: nat)
    requires at + 8 <= block.Length && v < U64
    modifies block
    ensures block[at..at + 8] == Encode(v, 8)
    ensures forall x :: 0 <= x < block.Length && !(at <= x < at + 8) ==> block[x] == old(block[x])
  {
    var word := Encode(v, 8);
    for i := 0 to 8
      invariant forall k :: 0 <= k < i ==> block[at + k] == word[k]
      invariant forall x :: 0 <= x < block.Length && !(at <= x < at + i) ==> block[x] == old(block[x])
    {
      block[at + i] := word[i];
    }
    forall k | 0 <= k < 8 ensures block[at..at + 8][k] == word[k] {
      assert block[at..at + 8][k] == block[at + k];
    }
  }

  lemma RelocStep(before: seq<Byte>, now: seq<Byte>, next: seq<Byte>, bias: nat, minVaddr: nat, relocs: seq<Rela>,
                  k: nat, syms: seq<Sym>, exports: seq<Export>)
    requires RelocsOK(relocs, minVaddr, |before|, syms) && k < |relocs|
    requires RelocsOK(relocs[..k], minVaddr, |before|, syms)
    requires Relocated(before, now, bias, minVaddr, relocs[..k], syms, exports)
    requires |next| == |now|
    requires next[Target(minVaddr, relocs[k])..Target(minVaddr, relocs[k]) + 8]
             == Encode(Stored(bias, relocs[k], syms, exports), 8)
    requires forall x :: 0 <= x < |now| && !InTarget(minVaddr, relocs[k], x) ==> next[x] == now[x]
    ensures RelocsOK(relocs[..k + 1], minVaddr, |before|, syms)
    ensures Relocated(before, next, bias, minVaddr, relocs[..k + 1], syms, exports)
  {
    var done, more := relocs[..k], relocs[..k + 1];
    forall i | 0 <= i < |more|
      ensures next[Target(minVaddr, more[i])..Target(minVaddr, more[i]) + 8]
              == Encode(Stored(bias, more[i], syms, exports), 8)
    {
      if i < k {
        var t := Target(minVaddr, done[i]);
        assert relocs[i] == done[i] == more[i];
        assert next[t..t + 8] == now[t..t + 8];
      }
    }
    forall x | 0 <= x < |before| && !Patched(minVaddr, more, x) ensures next[x] == before[x] {
      assert !InTarget(minVaddr, more[k], x);
      forall i | 0 <= i < k ensures !InTarget(minVaddr, done[i], x) {
        assert done[i] == more[i];
      }
    }
  }

  /** No relocation word overlaps the tables. */
  ghost predicate Apart(img: seq<Byte>, l: Layout, minVaddr: nat)
    requires LayoutOK(img, l)
  {
    forall x :: 0 <= x < |img| && InTables(img, l, x) ==> !Patched(minVaddr, Relocs(img, l), x)
  }

  /** One of the two relocation tables. */
  ghost predicate TableAt(l: Layout, at: nat, bytes: nat) {
    (at == l.rela && bytes == l.relasz) || (at == l.jmp && bytes == l.jmpsz)
  }

  lemma PatchedPart(relocs: seq<Rela>, part: seq<Rela>, minVaddr: nat)
    requires forall i :: 0 <= i < |part| ==> part[i] in relocs
    ensures forall x :: Patched(minVaddr, part, x) ==> Patched(minVaddr, relocs, x)
  {
    forall x | Patched(minVaddr, part, x) ensures Patched(minVaddr, relocs, x) {
      var i :| 0 <= i < |part| && InTarget(minVaddr, part[i], x);
      var j :| 0 <= j < |relocs| && relocs[j] == part[i];
    }
  }

  /** While only relocation words change, the tables stay as they were copied. */
  lemma StaysOn(copied: seq<Byte>, before: seq<Byte>, now: seq<Byte>, bias: nat, minVaddr: nat, l: Layout,
                part: seq<Rela>, syms: seq<Sym>, exports: seq<Export>)
    requires LayoutOK(copied, l) && Apart(copied, l, minVaddr) && Stays(copied, before, l)
    requires RelocsOK(part, minVaddr, |before|, syms) && Relocated(before, now, bias, minVaddr, part, syms, exports)
    requires forall i :: 0 <= i < |part| ==> part[i] in Relocs(copied, l)
    ensures Stays(copied, now, l)
  {
    PatchedPart(Relocs(copied, l), part, minVaddr);
  }

  lemma PartOfTable(copied: seq<Byte>, l: Layout, at: nat, bytes: nat, k: nat)
    requires LayoutOK(copied, l) && TableAt(l, at, bytes) && k <= bytes / RELA_SIZE
    ensures at + bytes <= |copied|
    ensures forall i :: 0 <= i < k ==> Relas(copied, at, bytes)[..k][i] in Relocs(copied, l)
  {
    var table, first := Relas(copied, at, bytes), Relas(copied, l.rela, l.relasz);
    forall i | 0 <= i < k ensures table[..k][i] in Relocs(copied, l) {
      assert table[..k][i] == table[i];
      if at == l.rela && bytes == l.relasz {
        assert Relocs(copied, l)[i] == table[i];
      } else {
        assert Relocs(copied, l)[|first| + i] == table[i];
      }
    }
  }

  /** What apply_relocs() computes for one entry: the word, or why it stops. */
  datatype Word = Word(v: nat) | Stop(err: DlError)

  /** &dynsym[k], read from the block. */
  method ReadSym(block: array<Byte>, l: Layout, k: nat, ghost copied: seq<Byte>) returns (s: Sym)
    requires LayoutOK(copied, l) && Stays(copied, block[..], l) && k < l.count
    ensures k < |SymTab(copied, l)| && s == SymTab(copied, l)[k]
  {
    SymStays(copied, block[..], l, k);
    s := SymAt(block[..], l.sym + SYM_SIZE * k, l.str);
  }

  /** The word for a relocation against symbol s. */
  method WordFor(bias: nat, r: Rela, s: Sym, exports: seq<Export>) returns (w: Word)
    requires UsesSym(r.kind)
    ensures var v := Resolve(bias, s, exports);
            w == if v == 0 then Stop(UndefinedSymbol(s.name))
                else Word(if r.kind.Direct64? then (v + r.addend) % U64 else v % U64)
  {
    var resolved;
    if s.shndx != Undefined {
      resolved := (bias + s.value) % U64;
    } else {
      resolved := LookupExport(exports, s.name);
    }
    if resolved == 0 {
      return Stop(UndefinedSymbol(s.name));
    }
    w := Word(if r.kind.Direct64? then (resolved + r.addend) % U64 else resolved % U64);
  }

  /** One entry of apply_relocs(): its symbol is read from the block. */
  method RelocWord(block: array<Byte>, bias: nat, l: Layout, r: Rela, exports: seq<Export>, ghost copied: seq<Byte>)
      returns (w: Word)
    requires LayoutOK(copied, l) && Stays(copied, block[..], l) && (UsesSym(r.kind) ==> r.sym < l.count)
    ensures var syms := SymTab(copied, l);
            w == if Applies(bias, r, syms, exports) then Word(Stored(bias, r, syms, exports))
                 else Stop(WhyStopped(r, syms))
  {
    if r.kind.Relative? {
      return Word((bias + r.addend) % U64);
    }
    if !UsesSym(r.kind) {
      return Stop(UnsupportedReloc);
    }
    var s := ReadSym(block, l, r.sym, copied);
    w := WordFor(bias, r, s, exports);
  }

  /** Entries below k can be applied, and k, if there is one, cannot. */
  ghost predicate AppliesUpTo(bias: nat, relocs: seq<Rela>, syms: seq<Sym>, exports: seq<Export>, k: nat) {
    && (forall j :: 0 <= j < |relocs| && UsesSym(relocs[j].kind) ==> relocs[j].sym < |syms|)
    && (forall j :: 0 <= j < k && j < |relocs| ==> Applies(bias, relocs[j], syms, exports))
    && (k < |relocs| ==> !Applies(bias, relocs[k], syms, exports))
  }

  /** Why entry r cannot be applied. */
  function WhyStopped(r: Rela, syms: seq<Sym>): DlError
    requires UsesSym(r.kind) ==> r.sym < |syms|
  {
    if UsesSym(r.kind) then UndefinedSymbol(syms[r.sym].name) else UnsupportedReloc
  }

  /** apply_relocs() on one table in the block: patches every word, or stops at the first entry it cannot
      apply.  `copied` is the image before any relocation, k how many entries were applied. */
  method ApplyRelocs(block: array<Byte>, bias: nat, minVaddr: nat, at: nat, bytes: nat, l: Layout, exports: seq<Export>,
                     ghost copied: seq<Byte>) returns (ok: bool, err: DlError, ghost k: nat)
    requires LayoutOK(copied, l) && Apart(copied, l, minVaddr) && Stays(copied, block[..], l) && TableAt(l, at, bytes)
    requires RelocsOK(Relas(copied, at, bytes), minVaddr, block.Length, SymTab(copied, l)) && bias < U64
    modifies block
    ensures var relocs, syms := Relas(copied, at, bytes), SymTab(copied, l);
            && k <= |relocs| && AppliesUpTo(bias, relocs, syms, exports, k) && (ok <==> k == |relocs|)
            && (ok ==> Relocated(old(block[..]), block[..], bias, minVaddr, relocs, syms, exports)
                       && Stays(copied, block[..], l))
            && (!ok ==> err == WhyStopped(relocs[k], syms))
  {
    err := UnsupportedReloc;
    ghost var before, relocs := block[..], Relas(copied, at, bytes);
    NothingApplied(copied, before, bias, minVaddr, l, at, bytes, exports);
    var i := 0;
    while i < bytes / RELA_SIZE
      invariant 0 <= i <= bytes / RELA_SIZE
      invariant Applied(copied, before, block[..], bias, minVaddr, l, at, bytes, i, exports)
    {
      var w := Turn(block, bias, minVaddr, at, bytes, i, l, exports, copied, before);
      if w.Stop? {
        return false, w.err, i;
      }
      i := i + 1;
    }
    assert relocs[..|relocs|] == relocs;
    return true, err, i;
  }

  /** The first k entries are applied to the block, which was `before`, and nothing else changed. */
  ghost predicate Applied(copied: seq<Byte>, before: seq<Byte>, now: seq<Byte>, bias: nat, minVaddr: nat, l: Layout,
                          at: nat, bytes: nat, k: nat, exports: seq<Export>)
    requires LayoutOK(copied, l) && TableAt(l, at, bytes) && k <= bytes / RELA_SIZE
    requires RelocsOK(Relas(copied, at, bytes), minVaddr, |before|, SymTab(copied, l))
  {
    var relocs, syms := Relas(copied, at, bytes), SymTab(copied, l);
    && RelocsOK(relocs[..k], minVaddr, |before|, syms) && Stays(copied, now, l)
    && Relocated(before, now, bias, minVaddr, relocs[..k], syms, exports)
    && forall j :: 0 <= j < k ==> Applies(bias, relocs[j], syms, exports)
  }

  lemma NothingApplied(copied: seq<Byte>, before: seq<Byte>, bias: nat, minVaddr: nat, l: Layout, at: nat, bytes: nat,
                       exports: seq<Export>)
    requires LayoutOK(copied, l) && TableAt(l, at, bytes) && Stays(copied, before, l)
    requires RelocsOK(Relas(copied, at, bytes), minVaddr, |before|, SymTab(copied, l))
    ensures Applied(copied, before, before, bias, minVaddr, l, at, bytes, 0, exports)
  {
  }

  /** One turn of the loop. */
  method Turn(block: array<Byte>, bias: nat, minVaddr: nat, at: nat, bytes: nat, i: nat, l: Layout,
              exports: seq<Export>, ghost copied: seq<Byte>, ghost before: seq<Byte>) returns (w: Word)
    requires LayoutOK(copied, l) && Apart(copied, l, minVaddr) && Stays(copied, before, l) && TableAt(l, at, bytes)
    requires |before| == block.Length && i < bytes / RELA_SIZE && bias < U64
    requires RelocsOK(Relas(copied, at, bytes), minVaddr, block.Length, SymTab(copied, l))
    requires Applied(copied, before, block[..], bias, minVaddr, l, at, bytes, i, exports)
    modifies block
    ensures var r, syms := Relas(copied, at, bytes)[i], SymTab(copied, l);
            && (w.Stop? <==> !Applies(bias, r, syms, exports)) && (w.Stop? ==> w.err == WhyStopped(r, syms))
            && (w.Word? ==> Applied(copied, before, block[..], bias, minVaddr, l, at, bytes, i + 1, exports))
  {
    ghost var now := block[..];
    w := ApplyOne(block, bias, minVaddr, at, bytes, i, l, exports, copied);
    if w.Word? {
      RelocAdvance(copied, before, now, block[..], bias, minVaddr, l, at, bytes, i, exports);
    }
  }

  /** Entry i's word is stored. */
  lemma RelocAdvance(copied: seq<Byte>, before: seq<Byte>, now: seq<Byte>, next: seq<Byte>, bias: nat, minVaddr: nat,
                     l: Layout, at: nat, bytes: nat, i: nat, exports: seq<Export>)
    requires LayoutOK(copied, l) && Apart(copied, l, minVaddr) && Stays(copied, before, l) && TableAt(l, at, bytes)
    requires RelocsOK(Relas(copied, at, bytes), minVaddr, |before|, SymTab(copied, l)) && i < bytes / RELA_SIZE
    requires Applied(copied, before, now, bias, minVaddr, l, at, bytes, i, exports) && |next| == |now|
    requires var r, syms := Relas(copied, at, bytes)[i], SymTab(copied, l);
             && Applies(bias, r, syms, exports)
             && next[Target(minVaddr, r)..Target(minVaddr, r) + 8] == Encode(Stored(bias, r, syms, exports), 8)
             && forall x :: 0 <= x < |now| && !InTarget(minVaddr, r, x) ==> next[x] == now[x]
    ensures Applied(copied, before, next, bias, minVaddr, l, at, bytes, i + 1, exports)
  {
    var relocs, syms := Relas(copied, at, bytes), SymTab(copied, l);
    RelocStep(before, now, next, bias, minVaddr, relocs, i, syms, exports);
    PartOfTable(copied, l, at, bytes, i + 1);
    StaysOn(copied, before, next, bias, minVaddr, l, relocs[..i + 1], syms, exports);
  }

  /** &relocs[i], read from the block. */
  method ReadRela(block: array<Byte>, l: Layout, at: nat, bytes: nat, i: nat, ghost copied: seq<Byte>) returns (r: Rela)
    requires LayoutOK(copied, l) && Stays(copied, block[..], l) && TableAt(l, at, bytes) && i < bytes / RELA_SIZE
    ensures r == Relas(copied, at, bytes)[i]
  {
    RelaStays(copied, block[..], l, at, bytes, i);
    r := RelaAt(block[..], at + RELA_SIZE * i);
  }

  /** One turn of that loop: entry i is read from the block, and its word stored. */
  method ApplyOne(block: array<Byte>, bias: nat, minVaddr: nat, at: nat, bytes: nat, i: nat, l: Layout,
                  exports: seq<Export>, ghost copied: seq<Byte>) returns (w: Word)
    requires LayoutOK(copied, l) && Stays(copied, block[..], l) && TableAt(l, at, bytes) && i < bytes / RELA_SIZE
    requires at + bytes <= |copied| && RelocsOK(Relas(copied, at, bytes), minVaddr, block.Length, SymTab(copied, l))
    requires bias < U64
    modifies block
    ensures var r, syms := Relas(copied, at, bytes)[i], SymTab(copied, l);
            && w == (if Applies(bias, r, syms, exports) then Word(Stored(bias, r, syms, exports))
                     else Stop(WhyStopped(r, syms)))
            && (w.Stop? ==> block[..] == old(block[..]))
            && (w.Word? ==> block[Target(minVaddr, r)..Target(minVaddr, r) + 8] == Encode(w.v, 8)
                            && forall x :: 0 <= x < block.Length && !InTarget(minVaddr, r, x) ==>
                                 block[x] == old(block[x]))
  {
    var r := ReadRela(block, l, at, bytes, i, copied);
    assert |SymTab(copied, l)| == l.count && (UsesSym(r.kind) ==> r.sym < |SymTab(copied, l)|);
    w := RelocWord(block, bias, l, r, exports, copied);
    if w.Word? {
      StoreWord(block, Target(minVaddr, r), w.v);
    }
  }

  /* ---- dlopen() ---- */

  function SegEnd(s: Segment): nat {
    s.vaddr + s.memsz
  }

  /** PT_LOAD segments do not overlap and have room for their file bytes. */
  ghost predicate SegmentsOK(segs: seq<Segment>) {
    && (forall i :: 0 <= i < |segs| ==> |segs[i].data| <= segs[i].memsz)
    && (forall i, j :: 0 <= i < j < |segs| ==> SegEnd(segs[i]) <= segs[j].vaddr || SegEnd(segs[j]) <= segs[i].vaddr)
  }

  /** The address range the segments take. */
  ghost predicate IsSpan(segs: seq<Segment>, min: int, max: int) {
    if segs == [] then min == -1 && max == 0
    else
      && (forall i :: 0 <= i < |segs| ==> 0 <= min <= segs[i].vaddr && SegEnd(segs[i]) <= max)
      && (exists i :: 0 <= i < |segs| && segs[i].vaddr == min)
      && (max == 0 || exists i :: 0 <= i < |segs| && SegEnd(segs[i]) == max)
  }

  method Span(segs: seq<Segment>) returns (min: int, max: int)
    ensures IsSpan(segs, min, max)
  {
    min, max := -1, 0;
    for i := 0 to |segs|
      invariant IsSpan(segs[..i], min, max)
    {
      ghost var lo, hi, front, more := min, max, segs[..i], segs[..i + 1];
      assert more == front + [segs[i]] && more[i] == segs[i];
      if min < 0 || segs[i].vaddr < min {
        min := segs[i].vaddr;
      }
      if SegEnd(segs[i]) > max {
        max := SegEnd(segs[i]);
      }
      SpanStep(front, segs[i], lo, hi, min, max);
    }
    assert segs[..|segs|] == segs;
  }

  lemma SpanStep(front: seq<Segment>, s: Segment, lo: int, hi: int, min: int, max: int)
    requires IsSpan(front, lo, hi)
    requires min == if lo < 0 || s.vaddr < lo then s.vaddr else lo
    requires max == if SegEnd(s) > hi then SegEnd(s) else hi
    ensures IsSpan(front + [s], min, max)
  {
    var more := front + [s];
    assert more[|front|] == s;
    if front != [] {
      var i :| 0 <= i < |front| && front[i].vaddr == lo;
      assert more[i].vaddr == lo;
      if hi != 0 {
        var j :| 0 <= j < |front| && SegEnd(front[j]) == hi;
        assert SegEnd(more[j]) == hi;
      }
    }
  }

  /** Byte x of a segment in memory: from the file, or zero beyond it. */
  function SegByte(s: Segment, x: nat): Byte {
    if x < |s.data| then s.data[x] else 0
  }

  /** The block holds these segments. */
  ghost predicate Holds(img: seq<Byte>, minVaddr: nat, segs: seq<Segment>) {
    && (forall i :: 0 <= i < |segs| ==> minVaddr <= segs[i].vaddr && SegEnd(segs[i]) - minVaddr <= |img|)
    && forall i, x :: 0 <= i < |segs| && 0 <= x < segs[i].memsz ==>
         img[segs[i].vaddr - minVaddr + x] == SegByte(segs[i], x)
  }

  /** memcpy() of the file bytes and memset() of the rest */
  method CopySegment(block: array<Byte>, at: nat, s: Segment)
    requires at + s.memsz <= block.Length && |s.data| <= s.memsz
    modifies block
    ensures forall x :: 0 <= x < s.memsz ==> block[at + x] == SegByte(s, x)
    ensures forall x :: 0 <= x < block.Length && !(at <= x < at + s.memsz) ==> block[x] == old(block[x])
  {
    for i := 0 to |s.data|
      invariant forall x :: 0 <= x < i ==> block[at + x] == s.data[x]
      invariant forall x :: 0 <= x < block.Length && !(at <= x < at + i) ==> block[x] == old(block[x])
    {
      block[at + i] := s.data[i];
    }
    for i := |s.data| to s.memsz
      invariant forall x :: 0 <= x < i ==> block[at + x] == SegByte(s, x)
      invariant forall x :: 0 <= x < block.Length && !(at <= x < at + i) ==> block[x] == old(block[x])
    {
      block[at + i] := 0;
    }
  }

  method CopySegments(block: array<Byte>, minVaddr: nat, segs: seq<Segment>)
    requires SegmentsOK(segs)
    requires forall i :: 0 <= i < |segs| ==> minVaddr <= segs[i].vaddr && SegEnd(segs[i]) - minVaddr <= block.Length
    modifies block
    ensures Holds(block[..], minVaddr, segs)
  {
    for i := 0 to |segs|
      invariant Holds(block[..], minVaddr, segs[..i])
    {
      ghost var before := block[..];
      CopySegment(block, segs[i].vaddr - minVaddr, segs[i]);
      HoldsStep(before, block[..], minVaddr, segs, i);
    }
    assert segs[..|segs|] == segs;
  }

  lemma HoldsStep(before: seq<Byte>, after: seq<Byte>, minVaddr: nat, segs: seq<Segment>, k: nat)
    requires SegmentsOK(segs) && k < |segs| && |after| == |before| && Holds(before, minVaddr, segs[..k])
    requires minVaddr <= segs[k].vaddr && SegEnd(segs[k]) - minVaddr <= |after|
    requires forall x :: 0 <= x < segs[k].memsz ==> after[segs[k].vaddr - minVaddr + x] == SegByte(segs[k], x)
    requires forall x :: 0 <= x < |after| && !(segs[k].vaddr - minVaddr <= x < SegEnd(segs[k]) - minVaddr) ==>
               after[x] == before[x]
    ensures Holds(after, minVaddr, segs[..k + 1])
  {
    var done, more := segs[..k], segs[..k + 1];
    forall i, x | 0 <= i < |more| && 0 <= x < more[i].memsz
      ensures after[more[i].vaddr - minVaddr + x] == SegByte(more[i], x)
    {
      if i < k {
        assert more[i] == done[i] == segs[i];
        var at := done[i].vaddr - minVaddr + x;
        assert before[at] == SegByte(done[i], x);
        assert after[at] == before[at];
      }
    }
    forall i | 0 <= i < |more| ensures minVaddr <= more[i].vaddr && SegEnd(more[i]) - minVaddr <= |after| {
      if i < k {
        assert more[i] == done[i];
      }
    }
  }

  /** Applying two tables one after the other. */
  lemma RelocatedTwice(a: seq<Byte>, b: seq<Byte>, c: seq<Byte>, bias: nat, minVaddr: nat, r: seq<Rela>, t: seq<Rela>,
                       syms: seq<Sym>, exports: seq<Export>)
    requires RelocsOK(r + t, minVaddr, |a|, syms) && RelocsOK(r, minVaddr, |a|, syms)
    requires RelocsOK(t, minVaddr, |a|, syms)
    requires Relocated(a, b, bias, minVaddr, r, syms, exports) && Relocated(b, c, bias, minVaddr, t, syms, exports)
    ensures Relocated(a, c, bias, minVaddr, r + t, syms, exports)
  {
    var all := r + t;
    forall i | 0 <= i < |all|
      ensures c[Target(minVaddr, all[i])..Target(minVaddr, all[i]) + 8]
              == Encode(Stored(bias, all[i], syms, exports), 8)
    {
      if i < |r| {
        var at := Target(minVaddr, r[i]);
        assert all[i] == r[i];
        forall x | at <= x < at + 8 ensures c[x] == b[x] {
          forall j | 0 <= j < |t| ensures !InTarget(minVaddr, t[j], x) {
            assert all[|r| + j] == t[j];
          }
        }
        assert c[at..at + 8] == b[at..at + 8];
      } else {
        assert all[i] == t[i - |r|];
      }
    }
    forall x | 0 <= x < |a| && !Patched(minVaddr, all, x) ensures c[x] == a[x] {
      forall i | 0 <= i < |r| ensures !InTarget(minVaddr, r[i], x) {
        assert all[i] == r[i];
      }
      forall j | 0 <= j < |t| ensures !InTarget(minVaddr, t[j], x) {
        assert all[|r| + j] == t[j];
      }
    }
  }

  lemma RelocsSplit(r: seq<Rela>, t: seq<Rela>, minVaddr: nat, size: nat, syms: seq<Sym>)
    requires RelocsOK(r + t, minVaddr, size, syms)
    ensures RelocsOK(r, minVaddr, size, syms) && RelocsOK(t, minVaddr, size, syms)
  {
    assert forall i :: 0 <= i < |r| ==> (r + t)[i] == r[i];
    assert forall i :: 0 <= i < |t| ==> (r + t)[|r| + i] == t[i];
  }

  /** A block the segments of f were copied to; bytes between segments can be anything. */
  ghost predicate Copied(f: ModuleFile, img: seq<Byte>, min: int, max: int) {
    && f.segs != [] && IsSpan(f.segs, min, max) && |img| == max - min && Holds(img, min, f.segs)
  }

  /** What the dynamic array in the block says. */
  function TablesAt(img: seq<Byte>, min: nat, dyn: nat): Tables
    requires min <= dyn && DynEnds(img, dyn - min)
  {
    TablesOf(Dyns(img, dyn - min))
  }

  ghost predicate Readable(img: seq<Byte>, min: nat, dyn: nat) {
    min <= dyn && DynEnds(img, dyn - min) && PointersOK(img, min, TablesAt(img, min, dyn))
  }

  /** Whether symbols and strings are there. */
  ghost predicate HasTables(img: seq<Byte>, min: nat, dyn: nat)
    requires Readable(img, min, dyn)
  {
    Complete(img, min, TablesAt(img, min, dyn))
  }

  ghost function LayoutAt(img: seq<Byte>, min: nat, dyn: nat): Layout
    requires Readable(img, min, dyn)
  {
    LayoutOf(img, min, TablesAt(img, min, dyn))
  }

  /** The tables can be read, relocation targets are words of the block, and none overlaps a table. */
  ghost predicate ImageOK(img: seq<Byte>, min: nat, dyn: nat) {
    && Readable(img, min, dyn)
    && (HasTables(img, min, dyn) ==>
          && LayoutOK(img, LayoutAt(img, min, dyn))
          && Apart(img, LayoutAt(img, min, dyn), min)
          && RelocsOK(Relocs(img, LayoutAt(img, min, dyn)), min, |img|, SymTab(img, LayoutAt(img, min, dyn))))
  }

  /** Byte y is one dlopen() reads to find its way through the tables. */
  ghost predicate IsRead(img: seq<Byte>, min: nat, dyn: nat, y: int)
    requires ImageOK(img, min, dyn)
  {
    var t := TablesAt(img, min, dyn);
    || dyn - min <= y < dyn - min + DYN_SIZE * (|Dyns(img, dyn - min)| + 1)
    || (t.hash.Some? && t.hash.value - min <= y < t.hash.value - min + 8)
    || (HasTables(img, min, dyn) && InTables(img, LayoutAt(img, min, dyn), y))
  }

  /** All of them come from the file. */
  ghost predicate Resident(img: seq<Byte>, min: nat, segs: seq<Segment>, dyn: nat)
    requires ImageOK(img, min, dyn)
  {
    forall y :: 0 <= y < |img| && IsRead(img, min, dyn, y) ==> InSegment(min, segs, y)
  }

  /** A module build-module.sh makes. */
  ghost predicate WellFormed(f: ModuleFile) {
    && SegmentsOK(f.segs)
    && (f.dyn.Some? ==> forall img, min, max :: Copied(f, img, min, max) ==>
          0 <= min && ImageOK(img, min, f.dyn.value) && Resident(img, min, f.segs, f.dyn.value))
  }

  lemma SegmentsSame(a: seq<Byte>, b: seq<Byte>, min: nat, segs: seq<Segment>, y: nat)
    requires Holds(a, min, segs) && Holds(b, min, segs) && InSegment(min, segs, y) && |a| == |b|
    ensures y < |a| && a[y] == b[y]
  {
    var i :| 0 <= i < |segs| && SegIndex(min, segs[i], 0) <= y < SegIndex(min, segs[i], segs[i].memsz);
    var x := y - SegIndex(min, segs[i], 0);
    assert segs[i].vaddr - min + x == y;
    assert a[segs[i].vaddr - min + x] == SegByte(segs[i], x) == b[segs[i].vaddr - min + x];
  }

  /** What dlopen() finds does not depend on what malloc() left between the segments. */
  lemma TablesDetermined(f: ModuleFile, a: seq<Byte>, b: seq<Byte>, min: nat, max: int)
    requires WellFormed(f) && f.dyn.Some? && Copied(f, a, min, max) && Copied(f, b, min, max)
    ensures ImageOK(a, min, f.dyn.value) && ImageOK(b, min, f.dyn.value)
    ensures HasTables(a, min, f.dyn.value) <==> HasTables(b, min, f.dyn.value)
    ensures HasTables(a, min, f.dyn.value) ==>
              var l := LayoutAt(a, min, f.dyn.value);
              LayoutAt(b, min, f.dyn.value) == l && SymTab(b, l) == SymTab(a, l) && Relocs(b, l) == Relocs(a, l)
  {
    var dyn := f.dyn.value;
    ReadSame(f, a, b, min, max);
    SameLayout(a, b, min, dyn);
    if HasTables(a, min, dyn) {
      TablesStay(a, b, LayoutAt(a, min, dyn));
    }
  }

  lemma SameLayout(a: seq<Byte>, b: seq<Byte>, min: nat, dyn: nat)
    requires |a| == |b| && ImageOK(a, min, dyn) && ImageOK(b, min, dyn)
    requires forall y :: 0 <= y < |a| && IsRead(a, min, dyn, y) ==> a[y] == b[y]
    ensures HasTables(a, min, dyn) == HasTables(b, min, dyn) && LayoutAt(a, min, dyn) == LayoutAt(b, min, dyn)
  {
    SameDyns(a, b, dyn - min);
    SameCount(a, b, min, TablesAt(a, min, dyn));
  }

  lemma SameCount(a: seq<Byte>, b: seq<Byte>, min: nat, t: Tables)
    requires |a| == |b| && HashIn(a, min, t)
    requires t.hash.Some? ==> Same(a, b, t.hash.value - min, t.hash.value - min + 8)
    ensures HashIn(b, min, t) && CountOf(a, min, t) == CountOf(b, min, t)
  {
    if t.hash.Some? {
      var at := t.hash.value - min;
      SameSlice(a, b, at, at + 8, at + 4, at + 8);
    }
  }

  lemma ReadSame(f: ModuleFile, a: seq<Byte>, b: seq<Byte>, min: nat, max: int)
    requires WellFormed(f) && f.dyn.Some? && Copied(f, a, min, max) && Copied(f, b, min, max)
    ensures |a| == |b| && ImageOK(a, min, f.dyn.value) && ImageOK(b, min, f.dyn.value)
    ensures forall y :: 0 <= y < |a| && IsRead(a, min, f.dyn.value, y) ==> a[y] == b[y]
  {
    forall y | 0 <= y < |a| && IsRead(a, min, f.dyn.value, y) ensures a[y] == b[y] {
      SegmentsSame(a, b, min, f.segs, y);
    }
  }

  ghost predicate AllApply(bias: nat, relocs: seq<Rela>, syms: seq<Sym>, exports: seq<Export>) {
    forall i :: 0 <= i < |relocs| ==>
      (UsesSym(relocs[i].kind) ==> relocs[i].sym < |syms|) && Applies(bias, relocs[i], syms, exports)
  }

  /** Every relocation entry can be applied, byte for byte. */
  ghost predicate AllRawApply(img: seq<Byte>, l: Layout, bias: nat, exports: seq<Export>)
    requires LayoutOK(img, l)
  {
    forall at: nat :: Entry(l, at) ==> at + 24 <= |img| && RawApplies(img, l, at, bias, exports)
  }

  /** The word each entry of `copied` names, by r_offset, is in img the one its bytes ask for. */
  ghost predicate RawStored(copied: seq<Byte>, img: seq<Byte>, l: Layout, min: nat, bias: nat, exports: seq<Export>)
    requires LayoutOK(copied, l) && AllRawApply(copied, l, bias, exports)
  {
    forall at: nat :: Entry(l, at) ==>
      var t := Num(copied, at, 8) - min;
      0 <= t && t + 8 <= |img| && Num(img, t, 8) == RawWord(copied, l, at, bias, exports)
  }

  lemma RawAll(img: seq<Byte>, l: Layout, min: nat, bias: nat, exports: seq<Export>)
    requires LayoutOK(img, l) && RelocsOK(Relocs(img, l), min, |img|, SymTab(img, l))
    ensures AllApply(bias, Relocs(img, l), SymTab(img, l), exports) <==> AllRawApply(img, l, bias, exports)
  {
    var relocs, syms := Relocs(img, l), SymTab(img, l);
    if AllApply(bias, relocs, syms, exports) {
      forall at: nat | Entry(l, at) ensures at + 24 <= |img| && RawApplies(img, l, at, bias, exports) {
        var i := EntryIs(img, l, at);
        RawEntry(img, l, at, bias, exports);
      }
    }
    if AllRawApply(img, l, bias, exports) {
      forall i | 0 <= i < |relocs|
        ensures (UsesSym(relocs[i].kind) ==> relocs[i].sym < |syms|) && Applies(bias, relocs[i], syms, exports)
      {
        var at := EntryOf(img, l, i);
        RawEntry(img, l, at, bias, exports);
      }
    }
  }

  lemma RawLoaded(copied: seq<Byte>, img: seq<Byte>, l: Layout, min: nat, bias: nat, segs: seq<Segment>,
                  exports: seq<Export>)
    requires LayoutOK(copied, l) && AllRawApply(copied, l, bias, exports)
    requires LoadedImage(img, bias, min, segs, Relocs(copied, l), SymTab(copied, l), exports)
    ensures RawStored(copied, img, l, min, bias, exports)
  {
    forall at: nat | Entry(l, at)
      ensures var t := Num(copied, at, 8) - min;
              0 <= t && t + 8 <= |img| && Num(img, t, 8) == RawWord(copied, l, at, bias, exports)
    {
      var i := EntryIs(copied, l, at);
      RawRela(copied, at);
      RawEntry(copied, l, at, bias, exports);
      assert Relocs(copied, l)[i].offset - min == Target(min, Relocs(copied, l)[i]);
    }
  }

  /** Where the tables are: at the addresses the dynamic array gives, its last entry of each tag counting; the number
      of symbols is the second number of the hash table; a relocation table without an address is empty. */
  lemma LayoutIs(img: seq<Byte>, min: nat, dyn: nat)
    requires Readable(img, min, dyn) && HasTables(img, min, dyn)
    ensures var ds, l := Dyns(img, dyn - min), LayoutAt(img, min, dyn);
            && Last(ds, 6) == Some(l.sym + min) && Last(ds, 5) == Some(l.str + min)
            && l.count > 0 && Last(ds, 4).Some? && min <= Last(ds, 4).value
            && Last(ds, 4).value - min + 8 <= |img| && l.count == Num(img, Last(ds, 4).value - min + 4, 4)
            && (if Last(ds, 7).Some? then Last(ds, 7) == Some(l.rela + min) else l.relasz == 0)
            && (if Last(ds, 23).Some? then Last(ds, 23) == Some(l.jmp + min) else l.jmpsz == 0)
            && (Last(ds, 7).Some? && Last(ds, 8).Some? ==> Last(ds, 8) == Some(l.relasz))
            && (Last(ds, 23).Some? && Last(ds, 2).Some? ==> Last(ds, 2) == Some(l.jmpsz))
            && (Last(ds, 8).None? ==> l.relasz == 0) && (Last(ds, 2).None? ==> l.jmpsz == 0)
  {
  }

  /** They are there exactly if the array names symbols, strings and a hash table that counts at least one symbol. */
  lemma TablesThere(img: seq<Byte>, min: nat, dyn: nat)
    requires Readable(img, min, dyn)
    ensures var ds := Dyns(img, dyn - min);
            HasTables(img, min, dyn) <==>
              && Last(ds, 6).Some? && Last(ds, 5).Some? && Last(ds, 4).Some?
              && min <= Last(ds, 4).value && Last(ds, 4).value - min + 8 <= |img|
              && Num(img, Last(ds, 4).value - min + 4, 4) > 0
  {
  }

  /** What a loaded block contains: every relocation word as stored, every other byte of a segment
      from the file or zero. */
  ghost predicate LoadedImage(img: seq<Byte>, bias: nat, min: nat, segs: seq<Segment>, relocs: seq<Rela>,
                              syms: seq<Sym>, exports: seq<Export>) {
    && RelocsOK(relocs, min, |img|, syms)
    && (forall i :: 0 <= i < |relocs| ==> WordAt(img, Target(min, relocs[i])) == Stored(bias, relocs[i], syms, exports))
    && (forall i, x :: 0 <= i < |segs| && 0 <= x < segs[i].memsz ==>
          && 0 <= SegIndex(min, segs[i], x) < |img|
          && (Patched(min, relocs, SegIndex(min, segs[i], x)) || img[SegIndex(min, segs[i], x)] == SegByte(segs[i], x)))
  }

  /** Where byte x of a segment is in the block. */
  function SegIndex(min: nat, s: Segment, x: int): int {
    s.vaddr - min + x
  }

  ghost predicate InSegment(min: nat, segs: seq<Segment>, y: int) {
    exists i :: 0 <= i < |segs| && SegIndex(min, segs[i], 0) <= y < SegIndex(min, segs[i], segs[i].memsz)
  }

  lemma ImageLoaded(copied: seq<Byte>, img: seq<Byte>, bias: nat, min: nat, segs: seq<Segment>, relocs: seq<Rela>,
                    syms: seq<Sym>, exports: seq<Export>)
    requires Holds(copied, min, segs) && RelocsOK(relocs, min, |copied|, syms)
    requires Relocated(copied, img, bias, min, relocs, syms, exports)
    ensures LoadedImage(img, bias, min, segs, relocs, syms, exports)
  {
    forall i, x | 0 <= i < |segs| && 0 <= x < segs[i].memsz
      ensures 0 <= SegIndex(min, segs[i], x) < |img|
      ensures Patched(min, relocs, SegIndex(min, segs[i], x)) || img[SegIndex(min, segs[i], x)] == SegByte(segs[i], x)
    {
      assert copied[segs[i].vaddr - min + x] == SegByte(segs[i], x);
    }
    forall i | 0 <= i < |relocs| ensures WordAt(img, Target(min, relocs[i])) == Stored(bias, relocs[i], syms, exports) {
      WordRead(Stored(bias, relocs[i], syms, exports));
    }
  }

  /** What a successful load leaves: the image with every relocation word as stored, and the tables the
      handle points to as they were copied. */
  ghost predicate LoadOK(f: ModuleFile, copied: seq<Byte>, img: seq<Byte>, l: Layout, min: nat, bias: nat,
                         exports: seq<Export>)
    requires f.dyn.Some? && ImageOK(copied, min, f.dyn.value) && HasTables(copied, min, f.dyn.value)
  {
    && l == LayoutAt(copied, min, f.dyn.value)
    && LoadedImage(img, bias, min, f.segs, Relocs(copied, l), SymTab(copied, l), exports)
    && LayoutOK(img, l) && SymTab(img, l) == SymTab(copied, l) && Relocs(img, l) == Relocs(copied, l)
  }

  /** dlopen() once the file is read: mallocAddr is where malloc() put the block, 0 when it failed.
      `copied` is the block after the segments were copied, min its lowest address as linked. */
  method Dlopen(f: ModuleFile, mallocAddr: nat, exports: seq<Export>)
      returns (r: Loaded, ghost min: int, ghost copied: seq<Byte>)
    requires WellFormed(f) && mallocAddr < U64
    ensures f.segs == [] <==> r == Failed(NoLoad)
    ensures f.segs != [] ==> (r == Failed(NoDynamic) <==> f.dyn.None?)
    ensures f.segs != [] && f.dyn.Some? ==> (r == Failed(NoMemory) <==> mallocAddr == 0)
    ensures f.segs != [] && f.dyn.Some? && mallocAddr != 0 ==>
              && 0 <= min && (exists max :: Copied(f, copied, min, max)) && ImageOK(copied, min, f.dyn.value)
              && (r == Failed(MissingTables) <==> !HasTables(copied, min, f.dyn.value))
              // it succeeds exactly when every referenced undefined symbol is exported and every kind is known
              && (HasTables(copied, min, f.dyn.value) ==>
                    var l := LayoutAt(copied, min, f.dyn.value);
                    && (r.Loaded? <==>
                          AllApply((mallocAddr - min) % U64, Relocs(copied, l), SymTab(copied, l), exports))
                    && (r.Loaded? ==>
                          && r.base == mallocAddr && fresh(r.block)
                          && LoadOK(f, copied, r.block[..], r.layout, min, (mallocAddr - min) % U64, exports)))
              // the same, from the bytes of the entries
              && RawResult(f, copied, if r.Loaded? then r.block[..] else [], min, (mallocAddr - min) % U64, r.Loaded?,
                           exports)
  {
    var lo, max;
    lo, max := Span(f.segs);
    min, copied := lo, [];
    if lo < 0 {
      return Failed(NoLoad), min, copied;
    }
    if f.dyn.None? {
      return Failed(NoDynamic), min, copied;
    }
    if mallocAddr == 0 {
      return Failed(NoMemory), min, copied;
    }
    assert f.segs != [] && lo <= f.segs[0].vaddr && SegEnd(f.segs[0]) <= max;
    var block := new Byte[max - lo];
    CopySegments(block, lo, f.segs);
    copied := block[..];
    assert Copied(f, copied, lo, max);
    var ok, err, l := LoadTables(block, (mallocAddr - lo) % U64, lo, f, exports);
    RawHolds(f, copied, if ok then block[..] else [], lo, (mallocAddr - lo) % U64, ok, exports);
    return if ok then Loaded(block, mallocAddr, l) else Failed(err), min, copied;
  }

  /** A load succeeds exactly if every relocation entry can be applied, and then stores the word its bytes ask for. */
  ghost predicate RawResult(f: ModuleFile, copied: seq<Byte>, img: seq<Byte>, min: nat, bias: nat, ok: bool,
                            exports: seq<Export>)
    requires f.dyn.Some? && ImageOK(copied, min, f.dyn.value)
  {
    HasTables(copied, min, f.dyn.value) ==>
      var l := LayoutAt(copied, min, f.dyn.value);
      && (ok <==> AllRawApply(copied, l, bias, exports))
      && (ok ==> RawStored(copied, img, l, min, bias, exports))
  }

  lemma RawHolds(f: ModuleFile, copied: seq<Byte>, img: seq<Byte>, min: nat, bias: nat, ok: bool, exports: seq<Export>)
    requires f.dyn.Some? && ImageOK(copied, min, f.dyn.value)
    requires HasTables(copied, min, f.dyn.value) ==>
               var l := LayoutAt(copied, min, f.dyn.value);
               && (ok <==> AllApply(bias, Relocs(copied, l), SymTab(copied, l), exports))
               && (ok ==> LoadOK(f, copied, img, l, min, bias, exports))
    ensures RawResult(f, copied, img, min, bias, ok, exports)
  {
    if HasTables(copied, min, f.dyn.value) {
      var l := LayoutAt(copied, min, f.dyn.value);
      RawAll(copied, l, min, bias, exports);
      if ok {
        RawLoaded(copied, img, l, min, bias, f.segs, exports);
      }
    }
  }

  /** From the dynamic array to the relocated block. */
  method LoadTables(block: array<Byte>, bias: nat, min: nat, f: ModuleFile, exports: seq<Export>)
      returns (ok: bool, err: DlError, l: Layout)
    requires f.dyn.Some? && ImageOK(block[..], min, f.dyn.value) && Holds(block[..], min, f.segs) && bias < U64
    modifies block
    ensures var copied := old(block[..]);
            && (!HasTables(copied, min, f.dyn.value) ==> !ok && err == MissingTables)
            && (HasTables(copied, min, f.dyn.value) ==>
                  && l == LayoutAt(copied, min, f.dyn.value)
                  && (ok <==> AllApply(bias, Relocs(copied, l), SymTab(copied, l), exports))
                  && (!ok ==> err.UndefinedSymbol? || err.UnsupportedReloc?)
                  && (ok ==> LoadOK(f, copied, block[..], l, min, bias, exports)))
  {
    ghost var copied := block[..];
    var t := ReadDynamic(block, f.dyn.value - min);
    l := LayoutOf(block[..], min, t);
    if !Complete(block[..], min, t) {
      return false, MissingTables, l;
    }
    ok, err := RelocateBoth(block, bias, min, l, exports);
    if ok {
      ImageLoaded(copied, block[..], bias, min, f.segs, Relocs(copied, l), SymTab(copied, l), exports);
      TablesStay(copied, block[..], l);
    }
  }

  /** .rela.dyn, then .rela.plt */
  method RelocateBoth(block: array<Byte>, bias: nat, min: nat, l: Layout, exports: seq<Export>)
      returns (ok: bool, err: DlError)
    requires LayoutOK(block[..], l) && Apart(block[..], l, min) && bias < U64
    requires RelocsOK(Relocs(block[..], l), min, block.Length, SymTab(block[..], l))
    modifies block
    ensures var copied := old(block[..]);
            && (ok <==> AllApply(bias, Relocs(copied, l), SymTab(copied, l), exports))
            && (!ok ==> err.UndefinedSymbol? || err.UnsupportedReloc?)
            && (ok ==> Relocated(copied, block[..], bias, min, Relocs(copied, l), SymTab(copied, l), exports)
                       && Stays(copied, block[..], l))
  {
    ghost var copied, syms := block[..], SymTab(block[..], l);
    ghost var rela, jmprel := Relas(copied, l.rela, l.relasz), Relas(copied, l.jmp, l.jmpsz);
    RelocsSplit(rela, jmprel, min, block.Length, syms);
    AppliesSplit(bias, rela, jmprel, syms, exports);
    ghost var k: nat;
    ok, err, k := ApplyRelocs(block, bias, min, l.rela, l.relasz, l, exports, copied);
    AllOrSome(bias, rela, syms, exports, k);
    if !ok {
      return;
    }
    ghost var middle := block[..];
    ok, err, k := ApplyRelocs(block, bias, min, l.jmp, l.jmpsz, l, exports, copied);
    AllOrSome(bias, jmprel, syms, exports, k);
    if ok {
      RelocatedTwice(copied, middle, block[..], bias, min, rela, jmprel, syms, exports);
    }
  }

  lemma AllOrSome(bias: nat, relocs: seq<Rela>, syms: seq<Sym>, exports: seq<Export>, k: nat)
    requires k <= |relocs| && AppliesUpTo(bias, relocs, syms, exports, k)
    ensures k == |relocs| <==> AllApply(bias, relocs, syms, exports)
  {
  }

  lemma AppliesSplit(bias: nat, r: seq<Rela>, t: seq<Rela>, syms: seq<Sym>, exports: seq<Export>)
    ensures AllApply(bias, r + t, syms, exports)
            <==> AllApply(bias, r, syms, exports) && AllApply(bias, t, syms, exports)
  {
    assert forall i :: 0 <= i < |r| ==> (r + t)[i] == r[i];
    assert forall i :: 0 <= i < |t| ==> (r + t)[|r| + i] == t[i];
  }

  /** A symbol dlsym() can find under that name. */
  predicate Named(s: Sym, name: Name) {
    s.shndx != Undefined && s.named && s.name == name
  }

  ghost predicate FirstNamed(syms: seq<Sym>, name: Name, k: nat) {
    && (forall j :: 0 <= j < k && j < |syms| ==> !Named(syms[j], name))
    && (k < |syms| ==> Named(syms[k], name))
  }

  /** The loop of dlsym(). */
  method FindNamed(block: array<Byte>, l: Layout, name: Name) returns (k: nat, value: nat)
    requires LayoutOK(block[..], l)
    ensures k <= |SymTab(block[..], l)| && FirstNamed(SymTab(block[..], l), name, k)
    ensures k < |SymTab(block[..], l)| ==> value == SymTab(block[..], l)[k].value
  {
    ghost var img, syms := block[..], SymTab(block[..], l);
    k, value := 0, 0;
    while k < l.count
      invariant k <= l.count == |syms| && forall j :: 0 <= j < k ==> !Named(syms[j], name)
    {
      var s := ReadSym(block, l, k, img);
      if Named(s, name) {
        return k, s.value;
      }
      k := k + 1;
    }
  }

  /** Symbol k has a section, a name that is not at offset 0 of the strings, and that name. */
  ghost predicate RawNamed(img: seq<Byte>, l: Layout, k: nat, name: Name)
    requires LayoutOK(img, l)
  {
    && k < l.count && l.sym + 24 * k + 24 <= |img| && StringEnds(img, l.str + Num(img, l.sym + 24 * k, 4))
    && Num(img, l.sym + 24 * k + 6, 2) != 0 && Num(img, l.sym + 24 * k, 4) != 0
    && StringAt(img, l.str + Num(img, l.sym + 24 * k, 4)) == name
  }

  lemma NamedRaw(img: seq<Byte>, l: Layout, k: nat, name: Name)
    requires LayoutOK(img, l) && k < l.count
    ensures k < |SymTab(img, l)| && (RawNamed(img, l, k, name) <==> Named(SymTab(img, l)[k], name))
    ensures l.sym + 24 * k + 24 <= |img| && SymTab(img, l)[k].value == Num(img, l.sym + 24 * k + 8, 8)
  {
    SymHere(img, l, k);
    RawSym(img, l.sym + 24 * k, l.str);
  }

  /** dlsym(): the first defined symbol of that name in the module's own table, moved by the bias; k is its
      index, or the number of symbols if there is none. */
  method Dlsym(block: array<Byte>, bias: nat, l: Layout, name: Name) returns (found: bool, addr: nat, ghost k: nat)
    requires LayoutOK(block[..], l)
    ensures var syms := SymTab(block[..], l);
            && k <= |syms| && FirstNamed(syms, name, k) && (found <==> k < |syms|)
            && (found ==> addr == (bias + syms[k].value) % U64)
    // the same, from the bytes of the entries
    ensures forall j :: 0 <= j < k ==> !RawNamed(block[..], l, j, name)
    ensures found <==> k < l.count
    ensures found ==> RawNamed(block[..], l, k, name) && l.sym + 24 * k + 24 <= block.Length
                      && addr == (bias + Num(block[..], l.sym + 24 * k + 8, 8)) % 0x1_0000_0000_0000_0000
  {
    var n, value := FindNamed(block, l, name);
    k := n;
    found, addr := n < l.count, (bias + value) % U64;
    forall j | 0 <= j < l.count ensures RawNamed(block[..], l, j, name) <==> Named(SymTab(block[..], l)[j], name) {
      NamedRaw(block[..], l, j, name);
    }
    if found { NamedRaw(block[..], l, k, name); }
  }

  /** Every relocation word of a loaded module is the one the psABI prescribes, exactly if the module
      refers to no absolute symbol (or was loaded at its own addresses). */
  lemma LoadPrescribed(img: seq<Byte>, bias: nat, min: nat, segs: seq<Segment>, relocs: seq<Rela>, syms: seq<Sym>,
                       exports: seq<Export>)
    requires LoadedImage(img, bias, min, segs, relocs, syms, exports)
    ensures (forall i :: 0 <= i < |relocs| ==>
              WordAt(img, Target(min, relocs[i])) == Prescribed(bias, relocs[i], syms, exports))
            <==> (bias % U64 == 0 || forall i :: 0 <= i < |relocs| && UsesSym(relocs[i].kind) ==>
                    syms[relocs[i].sym].shndx != Absolute)
  {
    forall i | 0 <= i < |relocs|
      ensures WordAt(img, Target(min, relocs[i])) == Prescribed(bias, relocs[i], syms, exports)
              <==> (bias % U64 == 0 || (UsesSym(relocs[i].kind) ==> syms[relocs[i].sym].shndx != Absolute))
    {
      StoredIsPrescribed(bias, relocs[i], syms, exports);
    }
  }

  /** Loaded at two bases, a module's images differ in its relocation words only: by the difference of
      the bases where the word refers to the module itself, not at all where to a host export. */
  lemma TwoBases(a: seq<Byte>, b: seq<Byte>, biasA: nat, biasB: nat, min: nat, segs: seq<Segment>, relocs: seq<Rela>,
                 syms: seq<Sym>, exports: seq<Export>)
    requires |a| == |b| && LoadedImage(a, biasA, min, segs, relocs, syms, exports)
    requires LoadedImage(b, biasB, min, segs, relocs, syms, exports)
    ensures forall i :: 0 <= i < |relocs| ==>
              var at := Target(min, relocs[i]);
              WordAt(b, at) == if ModuleLocal(relocs[i], syms) then (WordAt(a, at) + biasB - biasA) % U64
                  else WordAt(a, at)
    ensures forall y :: 0 <= y < |a| && InSegment(min, segs, y) && !Patched(min, relocs, y) ==> a[y] == b[y]
  {
    forall i | 0 <= i < |relocs|
      ensures var at := Target(min, relocs[i]);
              WordAt(b, at) == if ModuleLocal(relocs[i], syms) then (WordAt(a, at) + biasB - biasA) % U64
                  else WordAt(a, at)
    {
      WordMoves(biasA, biasB, relocs[i], syms, exports);
    }
    forall y | 0 <= y < |a| && InSegment(min, segs, y) && !Patched(min, relocs, y) ensures a[y] == b[y] {
      var i :| 0 <= i < |segs| && SegIndex(min, segs[i], 0) <= y < SegIndex(min, segs[i], segs[i].memsz);
      UnpatchedByte(a, biasA, min, segs, relocs, syms, exports, i, y);
      UnpatchedByte(b, biasB, min, segs, relocs, syms, exports, i, y);
    }
  }

  lemma WordMoves(biasA: nat, biasB: nat, r: Rela, syms: seq<Sym>, exports: seq<Export>)
    requires UsesSym(r.kind) ==> r.sym < |syms|
    ensures var v := Stored(biasA, r, syms, exports);
            Stored(biasB, r, syms, exports) == if ModuleLocal(r, syms) then (v + biasB - biasA) % U64 else v
  {
    if biasA <= biasB {
      BaseShift(biasA, biasB - biasA, r, syms, exports);
    } else {
      BaseShift(biasB, biasA - biasB, r, syms, exports);
      ShiftBack(Stored(biasB, r, syms, exports), biasA - biasB);
    }
  }

  /** A byte of segment i that no relocation patched. */
  lemma UnpatchedByte(img: seq<Byte>, bias: nat, min: nat, segs: seq<Segment>, relocs: seq<Rela>, syms: seq<Sym>,
                      exports: seq<Export>, i: nat, y: nat)
    requires LoadedImage(img, bias, min, segs, relocs, syms, exports) && !Patched(min, relocs, y)
    requires i < |segs| && 0 <= y - SegIndex(min, segs[i], 0) < segs[i].memsz
    ensures y < |img| && img[y] == SegByte(segs[i], y - SegIndex(min, segs[i], 0))
  {
    assert y == SegIndex(min, segs[i], y - SegIndex(min, segs[i], 0));
  }

  lemma ShiftBack(w: nat, d: nat)
    requires w < U64
    ensures ((w + d) % U64 - d) % U64 == w
  {
  }
}
