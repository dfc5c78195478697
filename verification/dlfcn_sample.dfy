/** A module that dlopen() accepts and relocates otherwise than the psABI says (port/dlfcn_shim.c:202-240):
    192 bytes with a dynamic array, a hash table, two symbols, their strings, and one R_X86_64_64 against
    the second symbol, which is absolute. */
module DlfcnSample {
  import opened Bytes
  import opened Options
  import opened DlfcnModel
  import opened DlfcnTables
  import opened DlfcnRaw
  import opened DlfcnShim

  const HASH: nat := 96
  const SYMTAB: nat := 104
  const RELA: nat := 152
  const TARGET: nat := 176
  const STRTAB: nat := 184
  const SIZE: nat := 192

  /** The bytes, word by word. */
  ghost predicate Content(img: seq<Byte>) {
    && |img| == SIZE
    // the dynamic array
    && WordAt(img, 0) == DT_SYMTAB && WordAt(img, 8) == SYMTAB
    && WordAt(img, 16) == DT_STRTAB && WordAt(img, 24) == STRTAB
    && WordAt(img, 32) == DT_HASH && WordAt(img, 40) == HASH
    && WordAt(img, 48) == DT_RELA && WordAt(img, 56) == RELA
    && WordAt(img, 64) == DT_RELASZ && WordAt(img, 72) == RELA_SIZE
    && WordAt(img, 80) == 0
    // one bucket, two symbols
    && WordAt(img, HASH) == 0x2_0000_0001
    // the null symbol; st_name 1, section SHN_ABS, value 8
    && WordAt(img, SYMTAB) == 0 && WordAt(img, SYMTAB + 8) == 0
    && WordAt(img, SYMTAB + 24) == 0xfff1_0000_0000_0001 && WordAt(img, SYMTAB + 32) == 8
    // R_X86_64_64 of TARGET against symbol 1
    && WordAt(img, RELA) == TARGET && WordAt(img, RELA + 8) == 0x1_0000_0001 && WordAt(img, RELA + 16) == 0
    // the empty string, and `a`
    && WordAt(img, STRTAB) == 0x6100
  }

  ghost predicate IsSample(f: ModuleFile) {
    f.dyn == Some(0) && |f.segs| == 1 && f.segs[0].vaddr == 0 && f.segs[0].memsz == SIZE && Content(f.segs[0].data)
  }

  // --- there is one ------------------------------------------------------------------------

  function Words(ws: seq<nat>): (r: seq<Byte>)
    ensures |r| == 8 * |ws|
  {
    if ws == [] then [] else Encode(ws[0], 8) + Words(ws[1..])
  }

  lemma {:induction false} WordBytes(ws: seq<nat>, k: nat)
    requires k < |ws| && ws[k] < U64
    ensures WordAt(Words(ws), 8 * k) == ws[k]
  {
    var bs := Words(ws);
    if k > 0 {
      var rest := Words(ws[1..]);
      WordBytes(ws[1..], k - 1);
      assert bs[8 * k..8 * k + 8] == rest[8 * (k - 1)..8 * (k - 1) + 8];
    } else {
      WordRead(ws[0]);
      assert bs[0..8] == Encode(ws[0], 8);
    }
  }

  lemma SampleWords() returns (ws: seq<nat>)
    ensures |ws| == 24 && forall k :: 0 <= k < 24 ==> ws[k] < U64
    ensures ws[..11] == [DT_SYMTAB, SYMTAB, DT_STRTAB, STRTAB, DT_HASH, HASH, DT_RELA, RELA, DT_RELASZ, RELA_SIZE, 0]
    ensures ws[12] == 0x2_0000_0001 && ws[13] == ws[14] == 0 && ws[16] == 0xfff1_0000_0000_0001 && ws[17] == 8
    ensures ws[19] == TARGET && ws[20] == 0x1_0000_0001 && ws[21] == 0 && ws[23] == 0x6100
  {
    ws := [DT_SYMTAB, SYMTAB, DT_STRTAB, STRTAB, DT_HASH, HASH, DT_RELA, RELA, DT_RELASZ, RELA_SIZE, 0, 0,
           0x2_0000_0001, 0, 0, 0, 0xfff1_0000_0000_0001, 8, 0, TARGET, 0x1_0000_0001, 0, 0, 0x6100];
  }

  lemma SampleExists() returns (f: ModuleFile)
    ensures IsSample(f)
  {
    var ws := SampleWords();
    f := ModuleFile([Segment(0, Words(ws), SIZE)], Some(0));
    forall k | 0 <= k < 24 ensures WordAt(Words(ws), 8 * k) == ws[k] {
      WordBytes(ws, k);
    }
    assert forall k :: 0 <= k < 11 ==> ws[k] == ws[..11][k];
    SpelledOut(Words(ws), ws);
  }

  lemma SpelledOut(img: seq<Byte>, ws: seq<nat>)
    requires |ws| == 24 && |img| == SIZE && forall k :: 0 <= k < 24 ==> WordAt(img, 8 * k) == ws[k]
    ensures WordAt(img, 0) == ws[0] && WordAt(img, 8) == ws[1] && WordAt(img, 16) == ws[2] && WordAt(img, 24) == ws[3]
    ensures WordAt(img, 32) == ws[4] && WordAt(img, 40) == ws[5] && WordAt(img, 48) == ws[6] && WordAt(img, 56) == ws[7]
    ensures WordAt(img, 64) == ws[8] && WordAt(img, 72) == ws[9] && WordAt(img, 80) == ws[10]
    ensures WordAt(img, 96) == ws[12] && WordAt(img, 104) == ws[13] && WordAt(img, 112) == ws[14]
    ensures WordAt(img, 128) == ws[16] && WordAt(img, 136) == ws[17] && WordAt(img, 152) == ws[19]
    ensures WordAt(img, 160) == ws[20] && WordAt(img, 168) == ws[21] && WordAt(img, 184) == ws[23]
  {
    assert 8 * 0 == 0 && WordAt(img, 8 * 0) == ws[0] && WordAt(img, 8 * 1) == ws[1] && WordAt(img, 8 * 2) == ws[2];
    assert WordAt(img, 8 * 3) == ws[3] && WordAt(img, 8 * 4) == ws[4] && WordAt(img, 8 * 5) == ws[5];
    assert WordAt(img, 8 * 6) == ws[6] && WordAt(img, 8 * 7) == ws[7] && WordAt(img, 8 * 8) == ws[8];
    assert WordAt(img, 8 * 9) == ws[9] && WordAt(img, 8 * 10) == ws[10] && WordAt(img, 8 * 12) == ws[12];
    assert WordAt(img, 8 * 13) == ws[13] && WordAt(img, 8 * 14) == ws[14] && WordAt(img, 8 * 16) == ws[16];
    assert WordAt(img, 8 * 17) == ws[17] && WordAt(img, 8 * 19) == ws[19] && WordAt(img, 8 * 20) == ws[20];
    assert WordAt(img, 8 * 21) == ws[21] && WordAt(img, 8 * 23) == ws[23];
  }

  // --- the tables --------------------------------------------------------------------------

  lemma DynOne(img: seq<Byte>, at: nat, tag: nat, val: nat, rest: seq<Dyn>)
    requires at + DYN_SIZE <= |img| && WordAt(img, at) == tag && WordAt(img, at + 8) == val && tag != 0
    requires DynEnds(img, at + DYN_SIZE) && Dyns(img, at + DYN_SIZE) == rest
    ensures DynEnds(img, at) && Dyns(img, at) == [Dyn(tag, val)] + rest
  {
  }

  lemma DynFound(img: seq<Byte>)
    requires Content(img)
    ensures DynEnds(img, 0)
    ensures Dyns(img, 0) == [Dyn(DT_SYMTAB, SYMTAB)] + ([Dyn(DT_STRTAB, STRTAB)] + ([Dyn(DT_HASH, HASH)]
                            + ([Dyn(DT_RELA, RELA)] + ([Dyn(DT_RELASZ, RELA_SIZE)] + []))))
  {
    var e := [];
    assert DynEnds(img, 80) && Dyns(img, 80) == [];
    DynOne(img, 64, DT_RELASZ, RELA_SIZE, e);
    e := [Dyn(DT_RELASZ, RELA_SIZE)] + e;
    DynOne(img, 48, DT_RELA, RELA, e);
    e := [Dyn(DT_RELA, RELA)] + e;
    DynOne(img, 32, DT_HASH, HASH, e);
    e := [Dyn(DT_HASH, HASH)] + e;
    DynOne(img, 16, DT_STRTAB, STRTAB, e);
    e := [Dyn(DT_STRTAB, STRTAB)] + e;
    DynOne(img, 0, DT_SYMTAB, SYMTAB, e);
  }

  lemma FiveNotes(a: Dyn, b: Dyn, c: Dyn, d: Dyn, e: Dyn)
    ensures TablesOf([a] + ([b] + ([c] + ([d] + ([e] + []))))) ==
            Note(Note(Note(Note(Note(Tables(None, None, None, None, 0, None, 0), a), b), c), d), e)
  {
    NothingSeen();
    NoteLast([], a);
    NoteLast([] + [a], b);
    NoteLast([] + [a] + [b], c);
    NoteLast([] + [a] + [b] + [c], d);
    NoteLast([] + [a] + [b] + [c] + [d], e);
    assert [a] + ([b] + ([c] + ([d] + ([e] + [])))) == [] + [a] + [b] + [c] + [d] + [e];
  }

  function SampleLayout(): Layout {
    Layout(SYMTAB, STRTAB, 2, RELA, RELA_SIZE, 0, 0)
  }

  lemma TablesFound(img: seq<Byte>)
    requires Content(img)
    ensures DynEnds(img, 0) && |Dyns(img, 0)| == 5
    ensures TablesAt(img, 0, 0) == Tables(Some(SYMTAB), Some(STRTAB), Some(HASH), Some(RELA), RELA_SIZE, None, 0)
  {
    DynFound(img);
    FiveNotes(Dyn(DT_SYMTAB, SYMTAB), Dyn(DT_STRTAB, STRTAB), Dyn(DT_HASH, HASH), Dyn(DT_RELA, RELA),
              Dyn(DT_RELASZ, RELA_SIZE));
  }

  lemma LayoutFound(img: seq<Byte>)
    requires Content(img)
    ensures Readable(img, 0, 0) && HasTables(img, 0, 0) && LayoutAt(img, 0, 0) == SampleLayout()
  {
    TablesFound(img);
    Halves(img, HASH);
  }

  /** The two symbols, as dlopen() reads them. */
  lemma SymbolsFound(img: seq<Byte>)
    requires Content(img)
    ensures NameOffset(img, SYMTAB) == 0 && NameOffset(img, SYMTAB + SYM_SIZE) == 1
    ensures StringEnds(img, STRTAB) && StringAt(img, STRTAB) == []
    ensures StringEnds(img, STRTAB + 1) && StringAt(img, STRTAB + 1) == [97]
    ensures SymAt(img, SYMTAB + SYM_SIZE, STRTAB) == Sym(true, [97], Absolute, 8)
  {
    Halves(img, SYMTAB);
    Halves(img, SYMTAB + SYM_SIZE);
    TopHalf(img, SYMTAB + SYM_SIZE);
    FirstBytes(img, STRTAB);
    assert StringEnds(img, STRTAB + 2) && StringAt(img, STRTAB + 2) == [];
  }

  lemma SymTabFound(img: seq<Byte>)
    requires Content(img)
    ensures LayoutOK(img, SampleLayout()) && |SymTab(img, SampleLayout())| == 2
    ensures SymTab(img, SampleLayout())[1] == Sym(true, [97], Absolute, 8)
  {
    SymbolsFound(img);
    var l := SampleLayout();
    forall k | 0 <= k < 2 ensures StringEnds(img, l.str + NameOffset(img, l.sym + SYM_SIZE * k)) {
      assert k == 0 || k == 1;
    }
    assert l.sym + SYM_SIZE * 1 == SYMTAB + SYM_SIZE;
  }

  const SAMPLE_RELOC := Rela(TARGET, Direct64, 1, 0)

  lemma RelocFound(img: seq<Byte>)
    requires Content(img) && LayoutOK(img, SampleLayout())
    ensures Relocs(img, SampleLayout()) == [SAMPLE_RELOC]
  {
    var l := SampleLayout();
    assert l.rela + RELA_SIZE * 0 == RELA;
    assert RelaAt(img, RELA) == SAMPLE_RELOC;
    assert Relas(img, l.rela, l.relasz) == [SAMPLE_RELOC] && Relas(img, l.jmp, l.jmpsz) == [];
  }

  lemma TablesApart(img: seq<Byte>)
    requires Content(img) && LayoutOK(img, SampleLayout()) && Relocs(img, SampleLayout()) == [SAMPLE_RELOC]
    ensures Apart(img, SampleLayout(), 0)
  {
    var l := SampleLayout();
    SymbolsFound(img);
    forall x | 0 <= x < |img| && InTables(img, l, x) ensures !Patched(0, [SAMPLE_RELOC], x) {
      assert !(TARGET <= x < TARGET + 8) by {
        if k :| 0 <= k < l.count && InName(img, l, k, x) {
          assert k == 0 || k == 1;
        }
      }
    }
  }

  lemma ImageFound(img: seq<Byte>)
    requires Content(img)
    ensures ImageOK(img, 0, 0) && HasTables(img, 0, 0)
  {
    LayoutFound(img);
    SymTabFound(img);
    RelocFound(img);
    TablesApart(img);
  }

  /** One segment, all of it in the file. */
  ghost predicate Flat(f: ModuleFile) {
    |f.segs| == 1 && f.segs[0].vaddr == 0 && f.segs[0].memsz == |f.segs[0].data|
  }

  lemma OnlyImage(f: ModuleFile, img: seq<Byte>, min: int, max: int)
    requires Flat(f) && Copied(f, img, min, max)
    ensures min == 0 && img == f.segs[0].data
  {
    forall x | 0 <= x < f.segs[0].memsz ensures img[x] == f.segs[0].data[x] {
      assert img[f.segs[0].vaddr - min + x] == SegByte(f.segs[0], x);
    }
  }

  lemma FlatWellFormed(f: ModuleFile)
    requires Flat(f) && f.dyn == Some(0) && ImageOK(f.segs[0].data, 0, 0)
    ensures WellFormed(f)
  {
    forall img, min, max | Copied(f, img, min, max)
      ensures 0 <= min && ImageOK(img, min, 0) && Resident(img, min, f.segs, 0)
    {
      OnlyImage(f, img, min, max);
      forall y | 0 <= y < |img| ensures InSegment(0, f.segs, y) {
        assert SegIndex(0, f.segs[0], 0) <= y < SegIndex(0, f.segs[0], f.segs[0].memsz);
      }
    }
  }

  lemma SampleWellFormed(f: ModuleFile)
    requires IsSample(f)
    ensures WellFormed(f)
  {
    ImageFound(f.segs[0].data);
    FlatWellFormed(f);
  }

  /** Whatever block the segment is copied to, the load at 4096 succeeds. */
  lemma SampleApplies(f: ModuleFile, copied: seq<Byte>, min: int, max: int)
    requires IsSample(f) && Copied(f, copied, min, max)
    ensures min == 0 && ImageOK(copied, 0, 0) && HasTables(copied, 0, 0) && LayoutAt(copied, 0, 0) == SampleLayout()
    ensures Relocs(copied, SampleLayout()) == [SAMPLE_RELOC]
    ensures |SymTab(copied, SampleLayout())| == 2 && SymTab(copied, SampleLayout())[1] == Sym(true, [97], Absolute, 8)
    ensures AllApply(4096, [SAMPLE_RELOC], SymTab(copied, SampleLayout()), [])
  {
    OnlyImage(f, copied, min, max);
    ImageFound(copied);
    LayoutFound(copied);
    SymTabFound(copied);
    RelocFound(copied);
    ResolvesWrong(SymTab(copied, SampleLayout()));
  }

  /** What the psABI asks for, and what any such load stores. */
  lemma LoadsWrong(f: ModuleFile, copied: seq<Byte>, img: seq<Byte>, l: Layout, min: int, max: int)
    requires IsSample(f) && Copied(f, copied, min, max) && min == 0 && ImageOK(copied, 0, 0) && HasTables(copied, 0, 0)
    requires LoadOK(f, copied, img, l, 0, 4096, [])
    ensures TARGET + 8 <= |img| && WordAt(img, TARGET) == 4104
    ensures LayoutOK(img, l) && Relocs(img, l) == [SAMPLE_RELOC] && |SymTab(img, l)| == 2
    ensures Prescribed(4096, SAMPLE_RELOC, SymTab(img, l), []) == 8
  {
    SampleApplies(f, copied, min, max);
    ResolvesWrong(SymTab(img, l));
    assert [SAMPLE_RELOC][0] == SAMPLE_RELOC && Target(0, SAMPLE_RELOC) == TARGET;
    FirstWord(img, f.segs, SymTab(img, l));
  }

  lemma FirstWord(img: seq<Byte>, segs: seq<Segment>, syms: seq<Sym>)
    requires LoadedImage(img, 4096, 0, segs, [SAMPLE_RELOC], syms, [])
    ensures |syms| > 1 && TARGET + 8 <= |img| && WordAt(img, TARGET) == Stored(4096, SAMPLE_RELOC, syms, [])
  {
    var relocs := [SAMPLE_RELOC];
    assert Target(0, relocs[0]) == TARGET;
  }

  /** Loaded at 4096 the word says 4104; section 4.4.1 of the psABI asks for 8. */
  method AbsoluteLoaded(f: ModuleFile) returns (r: Loaded)
    requires IsSample(f)
    ensures r.Loaded? && TARGET + 8 <= r.block.Length && WordAt(r.block[..], TARGET) == 4104
    ensures LayoutOK(r.block[..], r.layout)
    ensures Relocs(r.block[..], r.layout) == [SAMPLE_RELOC] && |SymTab(r.block[..], r.layout)| == 2
    ensures Prescribed(4096, SAMPLE_RELOC, SymTab(r.block[..], r.layout), []) == 8
  {
    SampleWellFormed(f);
    ghost var min: int, copied: seq<Byte>;
    r, min, copied := Dlopen(f, 4096, []);
    Succeeds(f, copied, min);
    StoresWrong(f, copied, r.block[..], r.layout, min);
  }

  ghost predicate CopyOf(f: ModuleFile, copied: seq<Byte>, min: int) {
    exists max :: Copied(f, copied, min, max)
  }

  lemma Succeeds(f: ModuleFile, copied: seq<Byte>, min: int)
    requires IsSample(f) && CopyOf(f, copied, min)
    ensures min == 0 && (4096 - min) % U64 == 4096
    ensures ImageOK(copied, min, f.dyn.value) && HasTables(copied, min, f.dyn.value)
    ensures var l := LayoutAt(copied, min, f.dyn.value);
            AllApply((4096 - min) % U64, Relocs(copied, l), SymTab(copied, l), [])
  {
    var max :| Copied(f, copied, min, max);
    SampleApplies(f, copied, min, max);
  }

  lemma StoresWrong(f: ModuleFile, copied: seq<Byte>, img: seq<Byte>, l: Layout, min: int)
    requires IsSample(f) && CopyOf(f, copied, min) && min == 0 && ImageOK(copied, 0, 0) && HasTables(copied, 0, 0)
    requires LoadOK(f, copied, img, l, 0, 4096, [])
    ensures TARGET + 8 <= |img| && WordAt(img, TARGET) == 4104
    ensures LayoutOK(img, l) && Relocs(img, l) == [SAMPLE_RELOC] && |SymTab(img, l)| == 2
    ensures Prescribed(4096, SAMPLE_RELOC, SymTab(img, l), []) == 8
  {
    var max :| Copied(f, copied, min, max);
    LoadsWrong(f, copied, img, l, min, max);
  }

  lemma ResolvesWrong(syms: seq<Sym>)
    requires |syms| == 2 && syms[1] == Sym(true, [97], Absolute, 8)
    ensures AllApply(4096, [SAMPLE_RELOC], syms, [])
    ensures Stored(4096, SAMPLE_RELOC, syms, []) == 4104 && Prescribed(4096, SAMPLE_RELOC, syms, []) == 8
  {
  }
}
