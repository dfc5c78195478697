/** The tables dlopen() finds in the copied image (port/dlfcn_shim.c:339-375): the dynamic array, and
    through it the symbols, their names and the two relocation tables.  Index x of an image is the byte
    at virtual address min + x. */
module DlfcnTables {
  import opened Bytes
  import opened Options
  import opened DlfcnModel

  const DT_PLTRELSZ: nat := 2
  const DT_HASH: nat := 4
  const DT_STRTAB: nat := 5
  const DT_SYMTAB: nat := 6
  const DT_RELA: nat := 7
  const DT_RELASZ: nat := 8
  const DT_JMPREL: nat := 23

  const DYN_SIZE: nat := 16
  const SYM_SIZE: nat := 24
  const RELA_SIZE: nat := 24

  datatype Dyn = Dyn(tag: nat, val: nat)

  /** What the dynamic array says: addresses as linked, sizes in bytes. */
  datatype Tables = Tables(
    symtab: Option<nat>, strtab: Option<nat>, hash: Option<nat>,
    rela: Option<nat>, relasz: nat, jmprel: Option<nat>, pltrelsz: nat)

  /* ---- the dynamic array ---- */

  function DynAt(img: seq<Byte>, at: nat): Dyn
    requires at + DYN_SIZE <= |img|
  {
    Dyn(WordAt(img, at), WordAt(img, at + 8))
  }

  /** DT_NULL ends the array inside the image. */
  predicate DynEnds(img: seq<Byte>, at: nat)
    decreases |img| - at
  {
    at + DYN_SIZE <= |img| && (DynAt(img, at).tag == 0 || DynEnds(img, at + DYN_SIZE))
  }

  function Dyns(img: seq<Byte>, at: nat): seq<Dyn>
    requires DynEnds(img, at)
    decreases |img| - at
  {
    if DynAt(img, at).tag == 0 then [] else [DynAt(img, at)] + Dyns(img, at + DYN_SIZE)
  }

  /** Sixteen bytes an entry, tag and then value, up to the first whose tag is 0. */
  lemma {:induction false} DynsAre(img: seq<Byte>, at: nat, k: nat)
    requires DynEnds(img, at) && k <= |Dyns(img, at)|
    ensures at + 16 * k + 16 <= |img|
    ensures k == |Dyns(img, at)| <==> Decode(img[at + 16 * k..at + 16 * k + 8]) == 0
    ensures k < |Dyns(img, at)| ==>
              && Dyns(img, at)[k].tag == Decode(img[at + 16 * k..at + 16 * k + 8])
              && Dyns(img, at)[k].val == Decode(img[at + 16 * k + 8..at + 16 * k + 16])
    decreases k
  {
    if k > 0 {
      DynsAre(img, at + DYN_SIZE, k - 1);
      assert at + DYN_SIZE + 16 * (k - 1) == at + 16 * k;
    }
  }

  /** The value of the last entry with that tag. */
  function Last(ds: seq<Dyn>, tag: nat): Option<nat> {
    if ds == [] then None
    else if ds[|ds| - 1].tag == tag then Some(ds[|ds| - 1].val)
    else Last(ds[..|ds| - 1], tag)
  }

  lemma {:induction false} LastIs(ds: seq<Dyn>, tag: nat, i: nat)
    requires i < |ds| && ds[i].tag == tag && forall j :: i < j < |ds| ==> ds[j].tag != tag
    ensures Last(ds, tag) == Some(ds[i].val)
    decreases |ds|
  {
    if i < |ds| - 1 {
      LastIs(ds[..|ds| - 1], tag, i);
    }
  }

  function LastOrZero(ds: seq<Dyn>, tag: nat): nat {
    match Last(ds, tag) case None => 0 case Some(v) => v
  }

  /** DT_PLTRELSZ is 2, DT_HASH 4, DT_STRTAB 5, DT_SYMTAB 6, DT_RELA 7, DT_RELASZ 8 and DT_JMPREL 23. */
  function TablesOf(ds: seq<Dyn>): (t: Tables)
    ensures t.symtab == Last(ds, 6) && t.strtab == Last(ds, 5) && t.hash == Last(ds, 4)
    ensures t.rela == Last(ds, 7) && t.jmprel == Last(ds, 23)
    ensures Last(ds, 8) == (if t.relasz == 0 && Last(ds, 8).None? then None else Some(t.relasz))
    ensures Last(ds, 8).None? ==> t.relasz == 0
    ensures Last(ds, 2) == (if t.pltrelsz == 0 && Last(ds, 2).None? then None else Some(t.pltrelsz))
    ensures Last(ds, 2).None? ==> t.pltrelsz == 0
  {
    Tables(Last(ds, DT_SYMTAB), Last(ds, DT_STRTAB), Last(ds, DT_HASH), Last(ds, DT_RELA), LastOrZero(ds, DT_RELASZ),
           Last(ds, DT_JMPREL), LastOrZero(ds, DT_PLTRELSZ))
  }

  /** One turn of the switch in dlopen(). */
  function Note(t: Tables, d: Dyn): Tables {
    if d.tag == DT_SYMTAB then t.(symtab := Some(d.val))
    else if d.tag == DT_STRTAB then t.(strtab := Some(d.val))
    else if d.tag == DT_RELA then t.(rela := Some(d.val))
    else if d.tag == DT_RELASZ then t.(relasz := d.val)
    else if d.tag == DT_JMPREL then t.(jmprel := Some(d.val))
    else if d.tag == DT_PLTRELSZ then t.(pltrelsz := d.val)
    else if d.tag == DT_HASH then t.(hash := Some(d.val))
    else t
  }

  lemma LastSnoc(ds: seq<Dyn>, d: Dyn, tag: nat)
    ensures Last(ds + [d], tag) == if d.tag == tag then Some(d.val) else Last(ds, tag)
  {
    assert (ds + [d])[..|ds|] == ds;
  }

  lemma NoteLast(ds: seq<Dyn>, d: Dyn)
    ensures TablesOf(ds + [d]) == Note(TablesOf(ds), d)
  {
    LastSnoc(ds, d, DT_SYMTAB);
    LastSnoc(ds, d, DT_STRTAB);
    LastSnoc(ds, d, DT_HASH);
    LastSnoc(ds, d, DT_RELA);
    LastSnoc(ds, d, DT_RELASZ);
    LastSnoc(ds, d, DT_JMPREL);
    LastSnoc(ds, d, DT_PLTRELSZ);
  }

  lemma DynsStep(img: seq<Byte>, d: nat, seen: seq<Dyn>, all: seq<Dyn>)
    requires DynEnds(img, d) && all == seen + Dyns(img, d) && DynAt(img, d).tag != 0
    ensures DynEnds(img, d + DYN_SIZE) && all == (seen + [DynAt(img, d)]) + Dyns(img, d + DYN_SIZE)
  {
  }

  lemma NothingSeen()
    ensures TablesOf([]) == Tables(None, None, None, None, 0, None, 0)
  {
  }

  /** The loop of dlopen() over the dynamic array. */
  method ReadDynamic(block: array<Byte>, at: nat) returns (t: Tables)
    requires DynEnds(block[..], at)
    ensures t == TablesOf(Dyns(block[..], at))
  {
    t := Tables(None, None, None, None, 0, None, 0);
    NothingSeen();
    var d := at;
    ghost var img, all, seen: seq<Dyn> := block[..], Dyns(block[..], at), [];
    while DynAt(block[..], d).tag != 0
      invariant DynEnds(img, d) && all == seen + Dyns(img, d) && t == TablesOf(seen)
      decreases block.Length - d
    {
      DynsStep(img, d, seen, all);
      NoteLast(seen, DynAt(img, d));
      t := Note(t, DynAt(block[..], d));
      seen := seen + [DynAt(img, d)];
      d := d + DYN_SIZE;
    }
    assert seen + [] == seen;
  }

  /* ---- symbols and their names ---- */

  /** A NUL ends the string inside the image. */
  predicate StringEnds(img: seq<Byte>, at: nat)
    decreases |img| - at
  {
    at < |img| && (img[at] == 0 || StringEnds(img, at + 1))
  }

  function StringAt(img: seq<Byte>, at: nat): (s: Name)
    requires StringEnds(img, at)
    ensures at + |s| < |img|
    decreases |img| - at
  {
    if img[at] == 0 then [] else [img[at]] + StringAt(img, at + 1)
  }

  function SectionOf(shndx: nat): Section {
    if shndx == 0 then Undefined else if shndx == 0xfff1 then Absolute else Local
  }

  /** st_name, four bytes */
  function NameOffset(img: seq<Byte>, at: nat): nat
    requires at + SYM_SIZE <= |img|
  {
    Decode(img[at..at + 4])
  }

  /** The symbol whose entry is at index `at`, with the string table at index str. */
  function SymAt(img: seq<Byte>, at: nat, str: nat): Sym
    requires at + SYM_SIZE <= |img| && StringEnds(img, str + NameOffset(img, at))
  {
    Sym(NameOffset(img, at) != 0, StringAt(img, str + NameOffset(img, at)), SectionOf(Decode(img[at + 6..at + 8])),
        WordAt(img, at + 8))
  }

  /** count symbols from index `at` on can be read. */
  ghost predicate SymsIn(img: seq<Byte>, at: nat, str: nat, count: nat) {
    && at + SYM_SIZE * count <= |img|
    && forall k :: 0 <= k < count ==> StringEnds(img, str + NameOffset(img, at + SYM_SIZE * k))
  }

  ghost function Syms(img: seq<Byte>, at: nat, str: nat, count: nat): (r: seq<Sym>)
    requires SymsIn(img, at, str, count)
    ensures |r| == count && forall k :: 0 <= k < count ==> r[k] == SymAt(img, at + SYM_SIZE * k, str)
  {
    seq(count, k requires 0 <= k < count => SymAt(img, at + SYM_SIZE * k, str))
  }

  /* ---- relocation entries ---- */

  function KindOf(number: nat): RelocKind {
    if number == 8 then Relative else if number == 6 then GlobDat else if number == 7 then JumpSlot
    else if number == 1 then Direct64 else OtherKind(number)
  }

  /** Elf64_Rela: r_info has the symbol in its high and the type in its low half. */
  function RelaAt(img: seq<Byte>, at: nat): Rela
    requires at + RELA_SIZE <= |img|
  {
    var info := WordAt(img, at + 8);
    Rela(WordAt(img, at), KindOf(info % 0x1_0000_0000), info / 0x1_0000_0000, WordAt(img, at + 16))
  }

  /** The whole entries of a table of that many bytes. */
  ghost function Relas(img: seq<Byte>, at: nat, bytes: nat): (r: seq<Rela>)
    requires at + bytes <= |img|
    ensures |r| == bytes / RELA_SIZE && forall k :: 0 <= k < |r| ==> r[k] == RelaAt(img, at + RELA_SIZE * k)
  {
    seq(bytes / RELA_SIZE, k requires 0 <= k < bytes / RELA_SIZE => RelaAt(img, at + RELA_SIZE * k))
  }

  /* ---- what is read stays what it was while other bytes change ---- */

  ghost predicate Same(a: seq<Byte>, b: seq<Byte>, from: nat, to: nat) {
    |a| == |b| && forall x :: from <= x < to && x < |a| ==> a[x] == b[x]
  }

  lemma SameSlice(a: seq<Byte>, b: seq<Byte>, from: nat, to: nat, i: nat, j: nat)
    requires Same(a, b, from, to) && from <= i <= j <= to && j <= |a|
    ensures a[i..j] == b[i..j]
  {
  }

  lemma SameRela(a: seq<Byte>, b: seq<Byte>, at: nat)
    requires at + RELA_SIZE <= |a| && Same(a, b, at, at + RELA_SIZE)
    ensures RelaAt(b, at) == RelaAt(a, at)
  {
    SameSlice(a, b, at, at + RELA_SIZE, at, at + 8);
    SameSlice(a, b, at, at + RELA_SIZE, at + 8, at + 16);
    SameSlice(a, b, at, at + RELA_SIZE, at + 16, at + 24);
  }

  lemma {:induction false} SameString(a: seq<Byte>, b: seq<Byte>, at: nat)
    requires StringEnds(a, at) && Same(a, b, at, at + |StringAt(a, at)| + 1)
    ensures StringEnds(b, at) && StringAt(b, at) == StringAt(a, at)
    decreases |a| - at
  {
    if a[at] != 0 {
      SameString(a, b, at + 1);
    }
  }

  lemma SameSym(a: seq<Byte>, b: seq<Byte>, at: nat, str: nat)
    requires at + SYM_SIZE <= |a| && StringEnds(a, str + NameOffset(a, at)) && Same(a, b, at, at + SYM_SIZE)
    requires Same(a, b, str + NameOffset(a, at), str + NameOffset(a, at) + |SymAt(a, at, str).name| + 1)
    ensures NameOffset(b, at) == NameOffset(a, at) && StringEnds(b, str + NameOffset(b, at))
    ensures SymAt(b, at, str) == SymAt(a, at, str)
  {
    SameSlice(a, b, at, at + SYM_SIZE, at, at + 4);
    SameSlice(a, b, at, at + SYM_SIZE, at + 6, at + 8);
    SameSlice(a, b, at, at + SYM_SIZE, at + 8, at + 16);
    SameString(a, b, str + NameOffset(a, at));
  }

  lemma {:induction false} SameDyns(a: seq<Byte>, b: seq<Byte>, at: nat)
    requires DynEnds(a, at) && Same(a, b, at, at + DYN_SIZE * (|Dyns(a, at)| + 1))
    ensures DynEnds(b, at) && Dyns(b, at) == Dyns(a, at)
    decreases |a| - at
  {
    SameSlice(a, b, at, at + DYN_SIZE, at, at + 8);
    SameSlice(a, b, at, at + DYN_SIZE, at + 8, at + 16);
    if DynAt(a, at).tag != 0 {
      SameDyns(a, b, at + DYN_SIZE);
    }
  }

  /* ---- where the tables are in the block ---- */

  /** Indices of the symbol entries and strings, how many symbols, and both relocation tables. */
  datatype Layout = Layout(sym: nat, str: nat, count: nat, rela: nat, relasz: nat, jmp: nat, jmpsz: nat)

  /** nchain of the hash table: how many symbols there are; 0 without one. */
  function CountOf(img: seq<Byte>, min: nat, t: Tables): nat
    requires HashIn(img, min, t)
  {
    if t.hash.None? then 0 else Decode(img[t.hash.value - min + 4..t.hash.value - min + 8])
  }

  predicate HashIn(img: seq<Byte>, min: nat, t: Tables) {
    t.hash.Some? ==> min <= t.hash.value && t.hash.value - min + 8 <= |img|
  }

  predicate AtOrAbove(p: Option<nat>, min: nat) {
    p.Some? ==> min <= p.value
  }

  /** Nothing dlopen() follows points below the block. */
  predicate PointersOK(img: seq<Byte>, min: nat, t: Tables) {
    && AtOrAbove(t.symtab, min) && AtOrAbove(t.strtab, min) && AtOrAbove(t.rela, min) && AtOrAbove(t.jmprel, min)
    && HashIn(img, min, t)
  }

  predicate Complete(img: seq<Byte>, min: nat, t: Tables)
    requires PointersOK(img, min, t)
  {
    t.symtab.Some? && t.strtab.Some? && CountOf(img, min, t) > 0
  }

  function IndexOf(p: Option<nat>, min: nat): nat
    requires AtOrAbove(p, min)
  {
    if p.None? then 0 else p.value - min
  }

  function LayoutOf(img: seq<Byte>, min: nat, t: Tables): Layout
    requires PointersOK(img, min, t)
  {
    Layout(IndexOf(t.symtab, min), IndexOf(t.strtab, min), CountOf(img, min, t),
           IndexOf(t.rela, min), if t.rela.None? then 0 else t.relasz,
           IndexOf(t.jmprel, min), if t.jmprel.None? then 0 else t.pltrelsz)
  }

  /** Everything the layout names can be read. */
  ghost predicate LayoutOK(img: seq<Byte>, l: Layout) {
    SymsIn(img, l.sym, l.str, l.count) && l.rela + l.relasz <= |img| && l.jmp + l.jmpsz <= |img|
  }

  ghost function SymTab(img: seq<Byte>, l: Layout): seq<Sym>
    requires LayoutOK(img, l)
  {
    Syms(img, l.sym, l.str, l.count)
  }

  /** .rela.dyn, then .rela.plt */
  ghost function Relocs(img: seq<Byte>, l: Layout): seq<Rela>
    requires LayoutOK(img, l)
  {
    Relas(img, l.rela, l.relasz) + Relas(img, l.jmp, l.jmpsz)
  }

  /** Byte x belongs to the name of symbol k, its NUL included. */
  ghost predicate InName(img: seq<Byte>, l: Layout, k: nat, x: int)
    requires LayoutOK(img, l) && k < l.count
  {
    var at := l.str + NameOffset(img, l.sym + SYM_SIZE * k);
    at <= x <= at + |StringAt(img, at)|
  }

  /** Byte x is read when symbols are resolved and relocations applied. */
  ghost predicate InTables(img: seq<Byte>, l: Layout, x: int)
    requires LayoutOK(img, l)
  {
    || l.sym <= x < l.sym + SYM_SIZE * l.count
    || l.rela <= x < l.rela + l.relasz
    || l.jmp <= x < l.jmp + l.jmpsz
    || exists k :: 0 <= k < l.count && InName(img, l, k, x)
  }

  /** The tables are the same in both images. */
  ghost predicate Stays(a: seq<Byte>, b: seq<Byte>, l: Layout)
    requires LayoutOK(a, l)
  {
    |a| == |b| && forall x :: 0 <= x < |a| && InTables(a, l, x) ==> a[x] == b[x]
  }

  lemma EntryStays(a: seq<Byte>, b: seq<Byte>, l: Layout, k: nat)
    requires LayoutOK(a, l) && Stays(a, b, l) && k < l.count
    ensures Same(a, b, l.sym + SYM_SIZE * k, l.sym + SYM_SIZE * k + SYM_SIZE)
    ensures l.sym + SYM_SIZE * k + SYM_SIZE <= |a|
  {
    assert SYM_SIZE * k + SYM_SIZE <= SYM_SIZE * l.count;
  }

  lemma NameStays(a: seq<Byte>, b: seq<Byte>, l: Layout, k: nat, at: nat)
    requires LayoutOK(a, l) && Stays(a, b, l) && k < l.count && at == l.str + NameOffset(a, l.sym + SYM_SIZE * k)
    ensures Same(a, b, at, at + |StringAt(a, at)| + 1)
  {
    forall x | at <= x < at + |StringAt(a, at)| + 1 && x < |a| ensures a[x] == b[x] {
      assert InName(a, l, k, x);
    }
  }

  lemma SymStays(a: seq<Byte>, b: seq<Byte>, l: Layout, k: nat)
    requires LayoutOK(a, l) && Stays(a, b, l) && k < l.count
    ensures var at := l.sym + SYM_SIZE * k;
            && at + SYM_SIZE <= |b| && StringEnds(b, l.str + NameOffset(b, at))
            && SymAt(b, at, l.str) == SymAt(a, at, l.str)
  {
    var at := l.sym + SYM_SIZE * k;
    EntryStays(a, b, l, k);
    NameStays(a, b, l, k, l.str + NameOffset(a, at));
    SameSym(a, b, at, l.str);
  }

  lemma RelaStays(a: seq<Byte>, b: seq<Byte>, l: Layout, at: nat, bytes: nat, k: nat)
    requires LayoutOK(a, l) && Stays(a, b, l) && k < bytes / RELA_SIZE
    requires (at == l.rela && bytes == l.relasz) || (at == l.jmp && bytes == l.jmpsz)
    ensures at + RELA_SIZE * k + RELA_SIZE <= |b| && RelaAt(b, at + RELA_SIZE * k) == RelaAt(a, at + RELA_SIZE * k)
  {
    assert RELA_SIZE * k + RELA_SIZE <= bytes;
    SameRela(a, b, at + RELA_SIZE * k);
  }

  /** So symbols and relocations read the same. */
  lemma TablesStay(a: seq<Byte>, b: seq<Byte>, l: Layout)
    requires LayoutOK(a, l) && Stays(a, b, l)
    ensures LayoutOK(b, l) && SymTab(b, l) == SymTab(a, l) && Relocs(b, l) == Relocs(a, l)
  {
    forall k | 0 <= k < l.count
      ensures StringEnds(b, l.str + NameOffset(b, l.sym + SYM_SIZE * k))
      ensures SymAt(b, l.sym + SYM_SIZE * k, l.str) == SymAt(a, l.sym + SYM_SIZE * k, l.str)
    {
      SymStays(a, b, l, k);
    }
    assert SymTab(b, l) == SymTab(a, l);
    RelasStay(a, b, l, l.rela, l.relasz);
    RelasStay(a, b, l, l.jmp, l.jmpsz);
  }

  lemma RelasStay(a: seq<Byte>, b: seq<Byte>, l: Layout, at: nat, bytes: nat)
    requires LayoutOK(a, l) && Stays(a, b, l)
    requires (at == l.rela && bytes == l.relasz) || (at == l.jmp && bytes == l.jmpsz)
    ensures Relas(b, at, bytes) == Relas(a, at, bytes)
  {
    forall k | 0 <= k < bytes / RELA_SIZE ensures RelaAt(b, at + RELA_SIZE * k) == RelaAt(a, at + RELA_SIZE * k) {
      RelaStays(a, b, l, at, bytes, k);
    }
  }
}
