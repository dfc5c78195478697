/** A module with one relocation of each kind dlopen() handles (port/dlfcn_shim.c:202-240): R_X86_64_RELATIVE,
    GLOB_DAT and R_X86_64_64 in .rela.dyn and JUMP_SLOT in .rela.plt, against a symbol of its own and one of the
    host's.  344 bytes: dynamic array, hash table, symbols, relocations, four words to patch, strings. */
module DlfcnKinds {
  import opened Bytes
  import opened Options
  import opened DlfcnModel
  import opened DlfcnTables
  import opened DlfcnRaw
  import opened DlfcnShim
  import opened DlfcnSample

  /** The bytes, word by word. */
  ghost predicate Contains(img: seq<Byte>) {
    && |img| == 344
    // DT_SYMTAB, DT_STRTAB, DT_HASH, DT_RELA, DT_RELASZ, DT_JMPREL, DT_PLTRELSZ
    && WordAt(img, 0) == 6 && WordAt(img, 8) == 136 && WordAt(img, 16) == 5 && WordAt(img, 24) == 336
    && WordAt(img, 32) == 4 && WordAt(img, 40) == 128 && WordAt(img, 48) == 7 && WordAt(img, 56) == 208
    && WordAt(img, 64) == 8 && WordAt(img, 72) == 72 && WordAt(img, 80) == 23 && WordAt(img, 88) == 280
    && WordAt(img, 96) == 2 && WordAt(img, 104) == 24 && WordAt(img, 112) == 0
    // one bucket, three symbols
    && WordAt(img, 128) == 0x3_0000_0001
    // the null symbol; `a`, in section 1, value 16; `b`, undefined
    && WordAt(img, 136) == 0 && WordAt(img, 144) == 0
    && WordAt(img, 160) == 0x1_0000_0000_0001 && WordAt(img, 168) == 16
    && WordAt(img, 184) == 3 && WordAt(img, 192) == 0
    // RELATIVE, addend 100; GLOB_DAT of `b`; 64 of `b`, addend 5
    && WordAt(img, 208) == 304 && WordAt(img, 216) == 8 && WordAt(img, 224) == 100
    && WordAt(img, 232) == 312 && WordAt(img, 240) == 0x2_0000_0006 && WordAt(img, 248) == 0
    && WordAt(img, 256) == 320 && WordAt(img, 264) == 0x2_0000_0001 && WordAt(img, 272) == 5
    // JUMP_SLOT of `a`
    && WordAt(img, 280) == 328 && WordAt(img, 288) == 0x1_0000_0007 && WordAt(img, 296) == 0
    // the empty string, `a` and `b`
    && WordAt(img, 336) == 0x6200_6100
  }

  ghost predicate IsKinds(f: ModuleFile) {
    f.dyn == Some(0) && Flat(f) && Contains(f.segs[0].data)
  }

  function Places(): Layout {
    Layout(136, 336, 3, 208, 72, 280, 24)
  }

  // --- there is one --------------------------------------------------------------------------

  /** img spells ws. */
  ghost predicate Spells(img: seq<Byte>, ws: seq<nat>) {
    |img| == 8 * |ws| && forall k :: 0 <= k < |ws| ==> WordAt(img, 8 * k) == ws[k]
  }

  lemma WordThere(img: seq<Byte>, ws: seq<nat>, k: nat)
    requires Spells(img, ws) && k < |ws|
    ensures 8 * k + 8 <= |img| && WordAt(img, 8 * k) == ws[k]
  {
  }

  lemma KindsWords() returns (ws: seq<nat>)
    ensures |ws| == 43 && forall k :: 0 <= k < 43 ==> ws[k] < U64
    ensures ws[..15] == [6, 136, 5, 336, 4, 128, 7, 208, 8, 72, 23, 280, 2, 24, 0]
    ensures ws[16..26] == [0x3_0000_0001, 0, 0, 0, 0x1_0000_0000_0001, 16, 0, 3, 0, 0]
    ensures ws[26..38] == [304, 8, 100, 312, 0x2_0000_0006, 0, 320, 0x2_0000_0001, 5, 328, 0x1_0000_0007, 0]
    ensures ws[42] == 0x6200_6100
  {
    var dyn := [6, 136, 5, 336, 4, 128, 7, 208, 8, 72, 23, 280, 2, 24, 0];
    var syms := [0x3_0000_0001, 0, 0, 0, 0x1_0000_0000_0001, 16, 0, 3, 0, 0];
    var relas := [304, 8, 100, 312, 0x2_0000_0006, 0, 320, 0x2_0000_0001, 5, 328, 0x1_0000_0007, 0];
    ws := dyn + [0] + syms + relas + [0, 0, 0, 0, 0x6200_6100];
  }

  lemma KindsExists() returns (f: ModuleFile)
    ensures IsKinds(f)
  {
    var ws := KindsWords();
    var img := Words(ws);
    forall k | 0 <= k < 43 ensures WordAt(img, 8 * k) == ws[k] {
      WordBytes(ws, k);
    }
    DynSpelled(img, ws);
    SymsSpelled(img, ws);
    RelasSpelled(img, ws);
    WordThere(img, ws, 42);
    f := ModuleFile([Segment(0, img, 344)], Some(0));
  }

  lemma DynSpelled(img: seq<Byte>, ws: seq<nat>)
    requires Spells(img, ws) && |ws| == 43 && ws[..15] == [6, 136, 5, 336, 4, 128, 7, 208, 8, 72, 23, 280, 2, 24, 0]
    ensures WordAt(img, 0) == 6 && WordAt(img, 8) == 136 && WordAt(img, 16) == 5
    ensures WordAt(img, 24) == 336 && WordAt(img, 32) == 4 && WordAt(img, 40) == 128
    ensures WordAt(img, 48) == 7 && WordAt(img, 56) == 208 && WordAt(img, 64) == 8
    ensures WordAt(img, 72) == 72 && WordAt(img, 80) == 23 && WordAt(img, 88) == 280
    ensures WordAt(img, 96) == 2 && WordAt(img, 104) == 24 && WordAt(img, 112) == 0
  {
    WordThere(img, ws, 0); WordThere(img, ws, 1); WordThere(img, ws, 2); WordThere(img, ws, 3);
    WordThere(img, ws, 4); WordThere(img, ws, 5); WordThere(img, ws, 6); WordThere(img, ws, 7);
    WordThere(img, ws, 8); WordThere(img, ws, 9); WordThere(img, ws, 10); WordThere(img, ws, 11);
    WordThere(img, ws, 12); WordThere(img, ws, 13); WordThere(img, ws, 14);
  }

  lemma SymsSpelled(img: seq<Byte>, ws: seq<nat>)
    requires Spells(img, ws) && |ws| == 43 && ws[16..26] == [0x3_0000_0001, 0, 0, 0, 0x1_0000_0000_0001, 16, 0, 3, 0, 0]
    ensures WordAt(img, 128) == 0x3_0000_0001 && WordAt(img, 136) == 0 && WordAt(img, 144) == 0
    ensures WordAt(img, 160) == 0x1_0000_0000_0001 && WordAt(img, 168) == 16 && WordAt(img, 184) == 3
    ensures WordAt(img, 192) == 0
  {
    WordThere(img, ws, 16); WordThere(img, ws, 17); WordThere(img, ws, 18); WordThere(img, ws, 20);
    WordThere(img, ws, 21); WordThere(img, ws, 23); WordThere(img, ws, 24);
  }

  lemma RelasSpelled(img: seq<Byte>, ws: seq<nat>)
    requires Spells(img, ws) && |ws| == 43
    requires ws[26..38] == [304, 8, 100, 312, 0x2_0000_0006, 0, 320, 0x2_0000_0001, 5, 328, 0x1_0000_0007, 0]
    ensures WordAt(img, 208) == 304 && WordAt(img, 216) == 8 && WordAt(img, 224) == 100
    ensures WordAt(img, 232) == 312 && WordAt(img, 240) == 0x2_0000_0006 && WordAt(img, 248) == 0
    ensures WordAt(img, 256) == 320 && WordAt(img, 264) == 0x2_0000_0001 && WordAt(img, 272) == 5
    ensures WordAt(img, 280) == 328 && WordAt(img, 288) == 0x1_0000_0007 && WordAt(img, 296) == 0
  {
    WordThere(img, ws, 26); WordThere(img, ws, 27); WordThere(img, ws, 28); WordThere(img, ws, 29);
    WordThere(img, ws, 30); WordThere(img, ws, 31); WordThere(img, ws, 32); WordThere(img, ws, 33);
    WordThere(img, ws, 34); WordThere(img, ws, 35); WordThere(img, ws, 36); WordThere(img, ws, 37);
  }

  // --- the tables ----------------------------------------------------------------------------

  lemma SevenNotes(a: Dyn, b: Dyn, c: Dyn, d: Dyn, e: Dyn, f: Dyn, g: Dyn)
    ensures TablesOf([a] + ([b] + ([c] + ([d] + ([e] + ([f] + ([g] + []))))))) ==
            Note(Note(Note(Note(Note(Note(Note(Tables(None, None, None, None, 0, None, 0), a), b), c), d), e), f), g)
  {
    NothingSeen();
    NoteLast([], a);
    NoteLast([] + [a], b);
    NoteLast([] + [a] + [b], c);
    NoteLast([] + [a] + [b] + [c], d);
    NoteLast([] + [a] + [b] + [c] + [d], e);
    NoteLast([] + [a] + [b] + [c] + [d] + [e], f);
    NoteLast([] + [a] + [b] + [c] + [d] + [e] + [f], g);
    assert [a] + ([b] + ([c] + ([d] + ([e] + ([f] + ([g] + [])))))) == [] + [a] + [b] + [c] + [d] + [e] + [f] + [g];
  }

  lemma ArrayFound(img: seq<Byte>)
    requires Contains(img)
    ensures DynEnds(img, 0)
    ensures Dyns(img, 0) == [Dyn(6, 136)] + ([Dyn(5, 336)] + ([Dyn(4, 128)] + ([Dyn(7, 208)] + ([Dyn(8, 72)]
                            + ([Dyn(23, 280)] + ([Dyn(2, 24)] + []))))))
  {
    var e := [];
    assert DynEnds(img, 112) && Dyns(img, 112) == [];
    DynOne(img, 96, 2, 24, e);
    e := [Dyn(2, 24)] + e;
    DynOne(img, 80, 23, 280, e);
    e := [Dyn(23, 280)] + e;
    DynOne(img, 64, 8, 72, e);
    e := [Dyn(8, 72)] + e;
    DynOne(img, 48, 7, 208, e);
    e := [Dyn(7, 208)] + e;
    DynOne(img, 32, 4, 128, e);
    e := [Dyn(4, 128)] + e;
    DynOne(img, 16, 5, 336, e);
    e := [Dyn(5, 336)] + e;
    DynOne(img, 0, 6, 136, e);
  }

  lemma PlacesFound(img: seq<Byte>)
    requires Contains(img)
    ensures Readable(img, 0, 0) && HasTables(img, 0, 0) && LayoutAt(img, 0, 0) == Places()
  {
    ArrayFound(img);
    SevenNotes(Dyn(6, 136), Dyn(5, 336), Dyn(4, 128), Dyn(7, 208), Dyn(8, 72), Dyn(23, 280), Dyn(2, 24));
    Halves(img, 128);
  }

  lemma BytesFound(img: seq<Byte>)
    requires Contains(img)
    ensures img[336] == 0 && img[337] == 97 && img[338] == 0 && img[339] == 98 && img[340] == 0
  {
    TwoStrings(img, 336);
  }

  lemma TwoStrings(img: seq<Byte>, at: nat)
    requires at + 8 <= |img| && WordAt(img, at) == 0x6200_6100
    ensures img[at] == 0 && img[at + 1] == 97 && img[at + 2] == 0 && img[at + 3] == 98 && img[at + 4] == 0
  {
    FirstBytes(img, at);
    FourthByte(img, at);
  }

  lemma StringsFound(img: seq<Byte>)
    requires |img| == 344 && img[336] == 0 && img[337] == 97 && img[338] == 0 && img[339] == 98 && img[340] == 0
    ensures StringEnds(img, 336) && StringAt(img, 336) == []
    ensures StringEnds(img, 337) && StringAt(img, 337) == [97]
    ensures StringEnds(img, 339) && StringAt(img, 339) == [98]
  {
    assert StringEnds(img, 338) && StringAt(img, 338) == [];
    assert StringEnds(img, 340) && StringAt(img, 340) == [];
  }

  /** The fourth byte of a word, and the fifth. */
  lemma FourthByte(img: seq<Byte>, at: nat)
    requires at + 8 <= |img|
    ensures var w := WordAt(img, at) / 256 / 256 / 256; img[at + 3] == w % 256 && img[at + 4] == w / 256 % 256
  {
    var bs := img[at..at + 8];
    assert bs[1..][1..] == bs[2..] && bs[2..][1..] == bs[3..] && bs[3..][1..] == bs[4..];
    FirstByte(bs);
    FirstByte(bs[1..]);
    FirstByte(bs[2..]);
    FirstByte(bs[3..]);
    FirstByte(bs[4..]);
  }

  lemma NamesFound(img: seq<Byte>)
    requires Contains(img)
    ensures NameOffset(img, 136) == 0 && NameOffset(img, 160) == 1 && NameOffset(img, 184) == 3
    ensures Num(img, 166, 2) == 1 && Num(img, 190, 2) == 0
  {
    Halves(img, 136);
    Halves(img, 160);
    Halves(img, 184);
    TopHalf(img, 160);
    TopHalf(img, 184);
  }

  lemma SymbolsIn(img: seq<Byte>)
    requires Contains(img)
    ensures LayoutOK(img, Places()) && |SymTab(img, Places())| == 3
  {
    BytesFound(img);
    StringsFound(img);
    NamesFound(img);
    var l := Places();
    forall k | 0 <= k < 3 ensures StringEnds(img, l.str + NameOffset(img, l.sym + SYM_SIZE * k)) {
      assert k == 0 || k == 1 || k == 2;
    }
  }

  // --- the relocations -----------------------------------------------------------------------

  lemma InfosFound(img: seq<Byte>)
    requires Contains(img)
    ensures Num(img, 216, 4) == 8 && Num(img, 220, 4) == 0 && Num(img, 240, 4) == 6 && Num(img, 244, 4) == 2
    ensures Num(img, 264, 4) == 1 && Num(img, 268, 4) == 2 && Num(img, 288, 4) == 7 && Num(img, 292, 4) == 1
  {
    Halves(img, 216);
    Halves(img, 240);
    Halves(img, 264);
    Halves(img, 288);
  }

  const R0 := Rela(304, Relative, 0, 100)
  const R1 := Rela(312, GlobDat, 2, 0)
  const R2 := Rela(320, Direct64, 2, 5)
  const R3 := Rela(328, JumpSlot, 1, 0)

  lemma EntriesFound(img: seq<Byte>)
    requires Contains(img)
    ensures RelaAt(img, 208) == R0 && RelaAt(img, 232) == R1 && RelaAt(img, 256) == R2 && RelaAt(img, 280) == R3
  {
    InfosFound(img);
    RawRela(img, 208);
    RawRela(img, 232);
    RawRela(img, 256);
    RawRela(img, 280);
  }

  lemma RelocsFound(img: seq<Byte>)
    requires Contains(img) && LayoutOK(img, Places())
    ensures Relocs(img, Places()) == [R0, R1, R2, R3]
  {
    EntriesFound(img);
    ThreeRelas(img);
    OneRela(img);
    assert [R0, R1, R2] + [R3] == [R0, R1, R2, R3];
  }

  lemma ThreeRelas(img: seq<Byte>)
    requires |img| == 344 && RelaAt(img, 208) == R0 && RelaAt(img, 232) == R1 && RelaAt(img, 256) == R2
    ensures Relas(img, 208, 72) == [R0, R1, R2]
  {
    assert 208 + RELA_SIZE * 0 == 208 && 208 + RELA_SIZE * 1 == 232 && 208 + RELA_SIZE * 2 == 256;
  }

  lemma OneRela(img: seq<Byte>)
    requires |img| == 344 && RelaAt(img, 280) == R3
    ensures Relas(img, 280, 24) == [R3]
  {
    assert 280 + RELA_SIZE * 0 == 280;
  }

  lemma WordsApart(img: seq<Byte>)
    requires Contains(img) && LayoutOK(img, Places()) && Relocs(img, Places()) == [R0, R1, R2, R3]
    ensures Apart(img, Places(), 0)
  {
    var l := Places();
    NamesFound(img);
    BytesFound(img);
    StringsFound(img);
    forall x | 0 <= x < |img| && InTables(img, l, x) ensures !Patched(0, [R0, R1, R2, R3], x) {
      assert !(304 <= x < 336) by {
        if k :| 0 <= k < l.count && InName(img, l, k, x) {
          assert k == 0 || k == 1 || k == 2;
        }
      }
    }
  }

  lemma KindsImage(img: seq<Byte>)
    requires Contains(img)
    ensures ImageOK(img, 0, 0) && HasTables(img, 0, 0) && LayoutAt(img, 0, 0) == Places()
  {
    PlacesFound(img);
    SymbolsIn(img);
    RelocsFound(img);
    WordsApart(img);
  }

  // --- loaded --------------------------------------------------------------------------------

  lemma EntriesAre(at: nat)
    requires Entry(Places(), at)
    ensures at in {208, 232, 256, 280}
  {
  }

  lemma KindsValues(img: seq<Byte>, exports: seq<Export>)
    requires Contains(img) && LayoutOK(img, Places()) && exports == [Export([98], 70000)]
    ensures RawValue(img, Places(), 1, 4096, exports) == 4112 && RawValue(img, Places(), 2, 4096, exports) == 70000
  {
    NamesFound(img);
    BytesFound(img);
    StringsFound(img);
    assert Lookup(exports, [98]) == 70000;
    assert 136 + 24 * 1 == 160 && 136 + 24 * 2 == 184;
  }

  /** At 4096, with a host that exports `b` at 70000. */
  lemma KindsApply(img: seq<Byte>, exports: seq<Export>)
    requires Contains(img) && LayoutOK(img, Places()) && exports == [Export([98], 70000)]
    ensures RawValue(img, Places(), 1, 4096, exports) == 4112 && RawValue(img, Places(), 2, 4096, exports) == 70000
    ensures AllRawApply(img, Places(), 4096, exports)
  {
    InfosFound(img);
    KindsValues(img, exports);
    forall at: nat | Entry(Places(), at) ensures at + 24 <= |img| && RawApplies(img, Places(), at, 4096, exports) {
      EntriesAre(at);
    }
  }

  lemma KindsStored(copied: seq<Byte>, img: seq<Byte>, exports: seq<Export>)
    requires Contains(copied) && LayoutOK(copied, Places()) && exports == [Export([98], 70000)]
    requires AllRawApply(copied, Places(), 4096, exports) && RawStored(copied, img, Places(), 0, 4096, exports)
    ensures |img| >= 336
    ensures WordAt(img, 304) == 4196 && WordAt(img, 312) == 70000
    ensures WordAt(img, 320) == 70005 && WordAt(img, 328) == 4112
  {
    KindsApply(copied, exports);
    InfosFound(copied);
    assert Entry(Places(), 208) && Entry(Places(), 232) && Entry(Places(), 256) && Entry(Places(), 280);
  }

  lemma KindsLoads(f: ModuleFile, copied: seq<Byte>, img: seq<Byte>, min: nat, bias: nat, ok: bool,
                   exports: seq<Export>)
    requires f.dyn == Some(0) && Contains(copied) && exports == [Export([98], 70000)] && min == 0 && bias == 4096
    requires ImageOK(copied, min, 0) && RawResult(f, copied, img, min, bias, ok, exports)
    ensures ok && |img| >= 336
    ensures WordAt(img, 304) == 4196 && WordAt(img, 312) == 70000
    ensures WordAt(img, 320) == 70005 && WordAt(img, 328) == 4112
  {
    PlacesFound(copied);
    SymbolsIn(copied);
    KindsApply(copied, exports);
    KindsStored(copied, img, exports);
  }

  lemma KindsCopied(f: ModuleFile, copied: seq<Byte>, min: int)
    requires IsKinds(f) && CopyOf(f, copied, min)
    ensures min == 0 && Contains(copied)
  {
    var max :| Copied(f, copied, min, max);
    OnlyImage(f, copied, min, max);
  }

  lemma KindsOpened(f: ModuleFile, copied: seq<Byte>, img: seq<Byte>, min: int, ok: bool, exports: seq<Export>)
    requires f.dyn == Some(0) && Contains(copied) && min == 0 && exports == [Export([98], 70000)]
    requires ImageOK(copied, min, 0) && RawResult(f, copied, img, min, (4096 - min) % U64, ok, exports)
    ensures ok && |img| >= 336
    ensures WordAt(img, 304) == 4196 && WordAt(img, 312) == 70000
    ensures WordAt(img, 320) == 70005 && WordAt(img, 328) == 4112
  {
    KindsLoads(f, copied, img, min, (4096 - min) % U64, ok, exports);
  }

  /** Loaded at 4096 each word is the one the psABI asks for: the base plus 100, the export, the export plus 5, and
      the base plus 16. */
  method KindsLoaded(f: ModuleFile) returns (r: Loaded)
    requires IsKinds(f)
    ensures r.Loaded? && r.block.Length >= 336
    ensures WordAt(r.block[..], 304) == 4196 && WordAt(r.block[..], 312) == 70000
    ensures WordAt(r.block[..], 320) == 70005 && WordAt(r.block[..], 328) == 4112
  {
    KindsImage(f.segs[0].data);
    FlatWellFormed(f);
    ghost var min: int, copied: seq<Byte>;
    r, min, copied := Dlopen(f, 4096, [Export([98], 70000)]);
    KindsCopied(f, copied, min);
    KindsOpened(f, copied, if r.Loaded? then r.block[..] else [], min, r.Loaded?, [Export([98], 70000)]);
  }
}
