/** Relocating a module (port/dlfcn_shim.c:122-240): what each relocation writes, and what section
    4.4.1 of the System V AMD64 psABI asks for. */
module DlfcnModel {
  import opened Bytes

  const U64: nat := 0x1_0000_0000_0000_0000

  /** st_shndx: SHN_UNDEF, SHN_ABS, or a section of the module. */
  datatype Section = Undefined | Absolute | Local

  type Name = seq<Byte>

  /** Elf64_Sym; named says that st_name is not 0. */
  datatype Sym = Sym(named: bool, name: Name, shndx: Section, value: nat)

  datatype RelocKind = Relative | GlobDat | JumpSlot | Direct64 | OtherKind(number: nat)

  datatype Rela = Rela(offset: nat, kind: RelocKind, sym: nat, addend: nat)

  /** An entry of dl_exports[]. */
  datatype Export = Export(name: Name, addr: nat)

  datatype DlError =
    | NoLoad | NoDynamic | NoMemory | MissingTables | UndefinedSymbol(name: Name) | UnsupportedReloc

  /** dl_export_lookup(): 0 when the host does not export the name. */
  function Lookup(exports: seq<Export>, name: Name): nat {
    if exports == [] then 0
    else if exports[0].name == name then exports[0].addr
    else Lookup(exports[1..], name)
  }

  /** The first entry of that name counts. */
  lemma {:induction false} LookupFirst(exports: seq<Export>, name: Name, k: nat)
    requires k <= |exports| && forall j :: 0 <= j < k ==> exports[j].name != name
    requires k < |exports| ==> exports[k].name == name
    ensures Lookup(exports, name) == if k < |exports| then exports[k].addr else 0
    decreases k
  {
    if k > 0 {
      LookupFirst(exports[1..], name, k - 1);
    }
  }

  /** `resolved` in apply_relocs(): module symbols move with the load bias. */
  function Resolve(bias: nat, s: Sym, exports: seq<Export>): nat {
    if s.shndx != Undefined then (bias + s.value) % U64 else Lookup(exports, s.name)
  }

  predicate UsesSym(k: RelocKind) {
    k.GlobDat? || k.JumpSlot? || k.Direct64?
  }

  /** Whether apply_relocs() gets past this entry. */
  predicate Applies(bias: nat, r: Rela, syms: seq<Sym>, exports: seq<Export>)
    requires UsesSym(r.kind) ==> r.sym < |syms|
  {
    r.kind.Relative? || (UsesSym(r.kind) && Resolve(bias, syms[r.sym], exports) != 0)
  }

  /** The word apply_relocs() stores. */
  function Stored(bias: nat, r: Rela, syms: seq<Sym>, exports: seq<Export>): (v: nat)
    requires UsesSym(r.kind) ==> r.sym < |syms|
    ensures v < U64
  {
    if r.kind.Relative? then (bias + r.addend) % U64
    else if r.kind.Direct64? then (Resolve(bias, syms[r.sym], exports) + r.addend) % U64
    else if UsesSym(r.kind) then Resolve(bias, syms[r.sym], exports) % U64
    else 0
  }

  /** S of the psABI: the value of the symbol, an absolute one being independent of the base B. */
  function SymbolValue(b: nat, s: Sym, exports: seq<Export>): nat {
    match s.shndx
    case Undefined => Lookup(exports, s.name)
    case Absolute => s.value
    case Local => b + s.value
  }

  /** Table 4.10 of the psABI, for the kinds handled: RELATIVE is B + A, 64 is S + A, the others S. */
  function Prescribed(b: nat, r: Rela, syms: seq<Sym>, exports: seq<Export>): nat
    requires UsesSym(r.kind) ==> r.sym < |syms|
  {
    match r.kind
    case Relative => (b + r.addend) % U64
    case Direct64 => (SymbolValue(b, syms[r.sym], exports) + r.addend) % U64
    case GlobDat => SymbolValue(b, syms[r.sym], exports) % U64
    case JumpSlot => SymbolValue(b, syms[r.sym], exports) % U64
    case OtherKind(_) => 0
  }

  lemma AddMod(a: nat, b: nat)
    ensures (a % U64 + b) % U64 == (a + b) % U64
  {
  }

  /** The stored word is the prescribed one, unless the symbol is absolute and the module moved. */
  lemma StoredIsPrescribed(bias: nat, r: Rela, syms: seq<Sym>, exports: seq<Export>)
    requires UsesSym(r.kind) ==> r.sym < |syms|
    ensures Stored(bias, r, syms, exports) == Prescribed(bias, r, syms, exports)
            <==> !(UsesSym(r.kind) && syms[r.sym].shndx == Absolute && bias % U64 != 0)
  {
    if UsesSym(r.kind) {
      var s := syms[r.sym];
      AddMod(bias + s.value, r.addend);
      if s.shndx == Absolute {
        AbsoluteMoves(bias, s.value, r.addend);
        AbsoluteMoves(bias, s.value, 0);
      }
    }
  }

  /** An absolute symbol's own value is what belongs in the word; what is stored is 4096 more. */
  lemma AbsoluteWrong(name: Name, value: nat)
    requires value + 4096 < U64
    ensures var r, syms := Rela(0, GlobDat, 0, 0), [Sym(true, name, Absolute, value)];
            Stored(4096, r, syms, []) == value + 4096 && Prescribed(4096, r, syms, []) == value
  {
    assert (4096 + value) % U64 == 4096 + value && value % U64 == value;
  }

  lemma AbsoluteMoves(bias: nat, value: nat, addend: nat)
    ensures ((bias + value) % U64 + addend) % U64 == (value + addend) % U64 <==> bias % U64 == 0
  {
    AddMod(bias + value, addend);
    var q := (bias + value + addend) / U64;
    var p := (value + addend) / U64;
    assert bias + value + addend == q * U64 + (bias + value + addend) % U64;
    assert value + addend == p * U64 + (value + addend) % U64;
    if bias % U64 == 0 {
      assert bias + value + addend == (bias / U64) * U64 + (value + addend);
    }
    if (bias + value + addend) % U64 == (value + addend) % U64 {
      assert bias == (q - p) * U64;
    }
  }

  /** Whether the word refers to something inside the module. */
  predicate ModuleLocal(r: Rela, syms: seq<Sym>)
    requires UsesSym(r.kind) ==> r.sym < |syms|
  {
    r.kind.Relative? || (UsesSym(r.kind) && syms[r.sym].shndx != Undefined)
  }

  /** Loading elsewhere moves module-local words by the difference of the bases and leaves words
      bound to host exports alone. */
  lemma BaseShift(bias: nat, shift: nat, r: Rela, syms: seq<Sym>, exports: seq<Export>)
    requires UsesSym(r.kind) ==> r.sym < |syms|
    ensures Stored(bias + shift, r, syms, exports)
            == if ModuleLocal(r, syms) then (Stored(bias, r, syms, exports) + shift) % U64
                else Stored(bias, r, syms, exports)
  {
    if r.kind.Relative? {
      AddMod(bias + r.addend, shift);
      assert bias + shift + r.addend == bias + r.addend + shift;
    } else if UsesSym(r.kind) && syms[r.sym].shndx != Undefined {
      var value := syms[r.sym].value;
      var add := if r.kind.Direct64? then r.addend else 0;
      AddMod(bias + shift + value, add);
      AddMod(bias + value, add);
      AddMod(bias + value + add, shift);
      assert bias + shift + value + add == bias + value + add + shift;
    }
  }

  /* ---- words in a byte image ---- */

  /** The little-endian 64-bit word at index `at`. */
  function WordAt(img: seq<Byte>, at: nat): nat
    requires at + 8 <= |img|
  {
    Decode(img[at..at + 8])
  }

  lemma WordRead(v: nat)
    requires v < U64
    ensures Decode(Encode(v, 8)) == v
  {
    assert Pow256(1) == 256 && Pow256(2) == 65536 && Pow256(3) == 0x100_0000 && Pow256(4) == 0x1_0000_0000;
    assert Pow256(5) == 0x100_0000_0000 && Pow256(6) == 0x1_0000_0000_0000 && Pow256(7) == 0x100_0000_0000_0000;
    assert Pow256(8) == U64;
    DecodeEncode(v, 8);
  }
}
