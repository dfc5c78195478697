/** Relocation entries and symbols byte by byte (port/dlfcn_shim.c:202-240), as chapter 4 of the System V gABI
    and section 4.4.1 of the AMD64 psABI lay them out: what each entry in the image has dlopen() store. */
module DlfcnRaw {
  import opened Bytes
  import opened Options
  import opened DlfcnModel
  import opened DlfcnTables

  /** The number in n bytes at index `at`. */
  function Num(img: seq<Byte>, at: nat, n: nat): nat
    requires at + n <= |img|
  {
    Decode(img[at..at + n])
  }

  // --- parts of a word ---------------------------------------------------------------------

  lemma {:induction false} DecodeJoin(a: seq<Byte>, b: seq<Byte>)
    ensures Decode(a + b) == Decode(a) + Pow256(|a|) * Decode(b)
    decreases |a|
  {
    if a == [] {
      assert a + b == b;
    } else {
      DecodeJoin(a[1..], b);
      assert (a + b)[1..] == a[1..] + b;
      Scaled(Decode(a[1..]), Pow256(|a| - 1), Decode(b));
    }
  }

  lemma Scaled(x: nat, p: nat, d: nat)
    ensures 256 * (x + p * d) == 256 * x + (256 * p) * d
  {
  }

  lemma {:induction false} DecodeBelow(a: seq<Byte>)
    ensures Decode(a) < Pow256(|a|)
  {
    if a != [] {
      DecodeBelow(a[1..]);
    }
  }

  /** The low and the high half of a word. */
  lemma Halves(img: seq<Byte>, at: nat)
    requires at + 8 <= |img|
    ensures Decode(img[at..at + 4]) == WordAt(img, at) % 0x1_0000_0000
    ensures Decode(img[at + 4..at + 8]) == WordAt(img, at) / 0x1_0000_0000
  {
    var low, high := img[at..at + 4], img[at + 4..at + 8];
    assert img[at..at + 8] == low + high;
    DecodeJoin(low, high);
    DecodeBelow(low);
    assert Pow256(1) == 0x100 && Pow256(2) == 0x1_0000 && Pow256(3) == 0x100_0000 && Pow256(4) == 0x1_0000_0000;
  }

  /** The last two bytes of a word. */
  lemma TopHalf(img: seq<Byte>, at: nat)
    requires at + 8 <= |img|
    ensures Decode(img[at + 6..at + 8]) == WordAt(img, at) / 0x1_0000_0000_0000
  {
    var low, high := img[at..at + 6], img[at + 6..at + 8];
    assert img[at..at + 8] == low + high;
    DecodeJoin(low, high);
    DecodeBelow(low);
    assert Pow256(1) == 0x100 && Pow256(2) == 0x1_0000 && Pow256(3) == 0x100_0000 && Pow256(4) == 0x1_0000_0000;
    assert Pow256(5) == 0x100_0000_0000 && Pow256(6) == 0x1_0000_0000_0000;
  }

  /** Its first three bytes. */
  lemma FirstBytes(img: seq<Byte>, at: nat)
    requires at + 8 <= |img|
    ensures var w := WordAt(img, at);
            img[at] == w % 256 && img[at + 1] == w / 256 % 256 && img[at + 2] == w / 256 / 256 % 256
  {
    var bs := img[at..at + 8];
    FirstByte(bs);
    FirstByte(bs[1..]);
    FirstByte(bs[1..][1..]);
  }

  lemma FirstByte(bs: seq<Byte>)
    requires bs != []
    ensures Decode(bs) % 256 == bs[0] && Decode(bs) / 256 == Decode(bs[1..])
  {
  }

  // --- entries -----------------------------------------------------------------------------

  /** A relocation entry starts at index `at`: 24 bytes each, in .rela.dyn or in .rela.plt. */
  predicate Entry(l: Layout, at: nat) {
    || (l.rela <= at && at + 24 <= l.rela + l.relasz && (at - l.rela) % 24 == 0)
    || (l.jmp <= at && at + 24 <= l.jmp + l.jmpsz && (at - l.jmp) % 24 == 0)
  }

  /** r is of the kind the psABI numbers so. */
  predicate Numbered(r: Rela, type_: nat) {
    && (r.kind == Direct64 <==> type_ == 1) && (r.kind == GlobDat <==> type_ == 6)
    && (r.kind == JumpSlot <==> type_ == 7) && (r.kind == Relative <==> type_ == 8)
  }

  /** r_offset, then r_info with the type in its low and the symbol in its high half, then r_addend. */
  lemma RawRela(img: seq<Byte>, at: nat)
    requires at + 24 <= |img|
    ensures var r, type_ := RelaAt(img, at), Num(img, at + 8, 4);
            && r.offset == Num(img, at, 8) && r.sym == Num(img, at + 12, 4) && r.addend == Num(img, at + 16, 8)
            && Numbered(r, type_)
  {
    Halves(img, at + 8);
  }

  /** st_name, st_info and st_other, st_shndx (0 for SHN_UNDEF, 0xfff1 for SHN_ABS), st_value, st_size. */
  lemma RawSym(img: seq<Byte>, at: nat, str: nat)
    requires at + 24 <= |img| && StringEnds(img, str + Num(img, at, 4))
    ensures var s, shndx := SymAt(img, at, str), Num(img, at + 6, 2);
            && (s.named <==> Num(img, at, 4) != 0) && s.name == StringAt(img, str + Num(img, at, 4))
            && (s.shndx == Undefined <==> shndx == 0) && (s.shndx == Absolute <==> shndx == 0xfff1)
            && s.value == Num(img, at + 8, 8)
  {
  }

  lemma {:induction false} EntryIs(img: seq<Byte>, l: Layout, at: nat) returns (i: nat)
    requires LayoutOK(img, l) && Entry(l, at)
    ensures at + 24 <= |img| && i < |Relocs(img, l)| && Relocs(img, l)[i] == RelaAt(img, at)
  {
    if l.rela <= at && at + 24 <= l.rela + l.relasz && (at - l.rela) % 24 == 0 {
      i := (at - l.rela) / 24;
      assert at == l.rela + RELA_SIZE * i;
    } else {
      var k := (at - l.jmp) / 24;
      assert at == l.jmp + RELA_SIZE * k;
      i := |Relas(img, l.rela, l.relasz)| + k;
    }
  }

  lemma EntryOf(img: seq<Byte>, l: Layout, i: nat) returns (at: nat)
    requires LayoutOK(img, l) && i < |Relocs(img, l)|
    ensures Entry(l, at) && at + 24 <= |img| && Relocs(img, l)[i] == RelaAt(img, at)
  {
    var n := |Relas(img, l.rela, l.relasz)|;
    at := if i < n then l.rela + RELA_SIZE * i else l.jmp + RELA_SIZE * (i - n);
    if i < n { InTable(l.relasz, i); } else { InTable(l.jmpsz, i - n); }
  }

  lemma InTable(bytes: nat, i: nat)
    requires i < bytes / RELA_SIZE
    ensures 24 * i + 24 <= bytes && 24 * i % 24 == 0
  {
  }

  // --- symbols and words ---------------------------------------------------------------------

  lemma SymHere(img: seq<Byte>, l: Layout, k: nat)
    requires LayoutOK(img, l) && k < l.count
    ensures l.sym + 24 * k + 24 <= |img| && StringEnds(img, l.str + Num(img, l.sym + 24 * k, 4))
    ensures SymTab(img, l)[k] == SymAt(img, l.sym + 24 * k, l.str)
  {
    assert l.sym + SYM_SIZE * k == l.sym + 24 * k;
    assert SYM_SIZE * k + SYM_SIZE <= SYM_SIZE * l.count;
    assert NameOffset(img, l.sym + SYM_SIZE * k) == Num(img, l.sym + 24 * k, 4);
  }

  /** What apply_relocs() takes for the address of symbol k: moved with the module if it is defined, whatever its
      section; else the host's export of that name, 0 if there is none. */
  ghost function RawValue(img: seq<Byte>, l: Layout, k: nat, bias: nat, exports: seq<Export>): nat
    requires LayoutOK(img, l) && k < l.count
  {
    SymHere(img, l, k);
    var e := l.sym + 24 * k;
    if Num(img, e + 6, 2) != 0 then (bias + Num(img, e + 8, 8)) % 0x1_0000_0000_0000_0000
    else Lookup(exports, StringAt(img, l.str + Num(img, e, 4)))
  }

  lemma RawResolve(img: seq<Byte>, l: Layout, k: nat, bias: nat, exports: seq<Export>)
    requires LayoutOK(img, l) && k < l.count
    ensures |SymTab(img, l)| == l.count
    ensures Resolve(bias, SymTab(img, l)[k], exports) == RawValue(img, l, k, bias, exports)
  {
    SymHere(img, l, k);
    RawSym(img, l.sym + 24 * k, l.str);
  }

  /** The entry can be applied: its type is R_X86_64_RELATIVE (8), or it is R_X86_64_64 (1), GLOB_DAT (6) or
      JUMP_SLOT (7) and its symbol has an address. */
  ghost predicate RawApplies(img: seq<Byte>, l: Layout, at: nat, bias: nat, exports: seq<Export>)
    requires LayoutOK(img, l) && at + 24 <= |img|
  {
    var type_, k := Num(img, at + 8, 4), Num(img, at + 12, 4);
    type_ == 8 || (type_ in {1, 6, 7} && k < l.count && RawValue(img, l, k, bias, exports) != 0)
  }

  /** Table 4.10 of the psABI: B + A for type 8, S + A for type 1, S for 6 and 7. */
  function Calculation(type_: nat, b: nat, s: nat, a: nat): nat {
    (if type_ == 8 then b + a else if type_ == 1 then s + a else s) % 0x1_0000_0000_0000_0000
  }

  /** The word stored for the entry. */
  ghost function RawWord(img: seq<Byte>, l: Layout, at: nat, bias: nat, exports: seq<Export>): nat
    requires LayoutOK(img, l) && at + 24 <= |img| && RawApplies(img, l, at, bias, exports)
  {
    var type_, k, a := Num(img, at + 8, 4), Num(img, at + 12, 4), Num(img, at + 16, 8);
    Calculation(type_, bias, if type_ == 8 then 0 else RawValue(img, l, k, bias, exports), a)
  }

  lemma StoredBy(bias: nat, r: Rela, syms: seq<Sym>, exports: seq<Export>, type_: nat, v: nat)
    requires Numbered(r, type_) && type_ in {1, 6, 7, 8}
    requires UsesSym(r.kind) ==> r.sym < |syms| && Resolve(bias, syms[r.sym], exports) == v
    ensures Stored(bias, r, syms, exports) == Calculation(type_, bias, v, r.addend)
    ensures Applies(bias, r, syms, exports) <==> type_ == 8 || v != 0
  {
  }

  /** What is decided and stored for a decoded entry is what its bytes say. */
  lemma RawEntry(img: seq<Byte>, l: Layout, at: nat, bias: nat, exports: seq<Export>)
    requires LayoutOK(img, l) && at + 24 <= |img|
    requires var r := RelaAt(img, at); UsesSym(r.kind) ==> r.sym < |SymTab(img, l)|
    ensures Applies(bias, RelaAt(img, at), SymTab(img, l), exports) <==> RawApplies(img, l, at, bias, exports)
    ensures RawApplies(img, l, at, bias, exports) ==>
              Stored(bias, RelaAt(img, at), SymTab(img, l), exports) == RawWord(img, l, at, bias, exports)
  {
    RawRela(img, at);
    var r, type_, k := RelaAt(img, at), Num(img, at + 8, 4), Num(img, at + 12, 4);
    if type_ == 8 {
      StoredBy(bias, r, SymTab(img, l), exports, type_, 0);
    } else if type_ in {1, 6, 7} {
      RawResolve(img, l, k, bias, exports);
      StoredBy(bias, r, SymTab(img, l), exports, type_, RawValue(img, l, k, bias, exports));
    }
  }

  /** S of the psABI for symbol k: the value of an absolute symbol does not depend on the base. */
  ghost function PsabiValue(img: seq<Byte>, l: Layout, k: nat, b: nat, exports: seq<Export>): nat
    requires LayoutOK(img, l) && k < l.count
  {
    SymHere(img, l, k);
    var e := l.sym + 24 * k;
    var shndx, value := Num(img, e + 6, 2), Num(img, e + 8, 8);
    if shndx == 0 then Lookup(exports, StringAt(img, l.str + Num(img, e, 4)))
    else if shndx == 0xfff1 then value else b + value
  }

  /** The word the psABI asks for. */
  ghost function PsabiWord(img: seq<Byte>, l: Layout, at: nat, b: nat, exports: seq<Export>): nat
    requires LayoutOK(img, l) && at + 24 <= |img| && RawApplies(img, l, at, b, exports)
  {
    var type_, k, a := Num(img, at + 8, 4), Num(img, at + 12, 4), Num(img, at + 16, 8);
    Calculation(type_, b, if type_ == 8 then 0 else PsabiValue(img, l, k, b, exports), a)
  }

  /** The entry is against an absolute symbol. */
  ghost predicate AgainstAbsolute(img: seq<Byte>, l: Layout, at: nat)
    requires LayoutOK(img, l) && at + 24 <= |img|
  {
    var k := Num(img, at + 12, 4);
    && Num(img, at + 8, 4) in {1, 6, 7} && k < l.count && l.sym + 24 * k + 24 <= |img|
    && Num(img, l.sym + 24 * k + 6, 2) == 0xfff1
  }

  /** The word stored is the prescribed one, exactly unless the entry is against an absolute symbol and the module
      moved. */
  lemma RawPrescribed(img: seq<Byte>, l: Layout, at: nat, bias: nat, exports: seq<Export>)
    requires LayoutOK(img, l) && at + 24 <= |img| && RawApplies(img, l, at, bias, exports)
    ensures RawWord(img, l, at, bias, exports) == PsabiWord(img, l, at, bias, exports)
            <==> !(AgainstAbsolute(img, l, at) && bias % 0x1_0000_0000_0000_0000 != 0)
  {
    var type_, k := Num(img, at + 8, 4), Num(img, at + 12, 4);
    if type_ != 8 {
      SymHere(img, l, k);
      ValueMoves(img, l, k, type_, bias, exports, Num(img, at + 16, 8));
    }
  }

  lemma ValueMoves(img: seq<Byte>, l: Layout, k: nat, type_: nat, bias: nat, exports: seq<Export>, a: nat)
    requires LayoutOK(img, l) && k < l.count && l.sym + 24 * k + 24 <= |img| && type_ in {1, 6, 7}
    ensures Calculation(type_, bias, RawValue(img, l, k, bias, exports), a)
            == Calculation(type_, bias, PsabiValue(img, l, k, bias, exports), a)
            <==> !(Num(img, l.sym + 24 * k + 6, 2) == 0xfff1 && bias % 0x1_0000_0000_0000_0000 != 0)
  {
    var value, add := Num(img, l.sym + 24 * k + 8, 8), if type_ == 1 then a else 0;
    AddMod(bias + value, add);
    AbsoluteMoves(bias, value, add);
  }
}
