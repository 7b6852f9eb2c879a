/** Windows object files: the COFF writer (binary/coff_object.js) against the COFF reader (binary/static_linker.js). */
module CoffObject {
  import opened Basics

  const MACHINE: nat := 0x8664
  const DOT_TEXT: Text := [46, 116, 101, 120, 116]
  const DOT_DATA: Text := [46, 100, 97, 116, 97]
  const USER: Text := [95, 117, 115, 101, 114, 95]   // _user_
  const UNDERSCORE: Text := [95]
  const MAIN: Text := [95, 109, 97, 105, 110]        // _main
  const FUNCTION: nat := 0x20
  const EXTERNAL: nat := 2
  const STATIC: nat := 3
  const REL32: nat := 4
  const TEXT_FLAGS: nat := 0x6050_0020
  const DATA_FLAGS: nat := 0xc040_0040

  // ---------- bytes ----------

  /** Reading outside the file gives nothing, which counts as 0 in numbers. */
  function B(data: seq<Byte>, i: int): (b: Byte) {
    if 0 <= i < |data| then data[i] else 0
  }

  function Read16(data: seq<Byte>, i: int): (v: nat) {
    var lo: int, hi: int := B(data, i), B(data, i + 1);
    lo + 256 * hi
  }

  function Read32(data: seq<Byte>, i: int): (v: nat) {
    Read16(data, i) + 65536 * Read16(data, i + 2)
  }

  /** Up to max characters, to the first NUL. */
  function ReadString(data: seq<Byte>, i: int, max: nat): Text
    decreases max
  {
    if max == 0 then []
    else if 0 <= i < |data| && data[i] == 0 then []
    else [B(data, i)] + ReadString(data, i + 1, max - 1)
  }

  function FromTable(data: seq<Byte>, pos: nat): Text
    decreases |data| - pos
  {
    if pos < |data| && data[pos] != 0 then [data[pos]] + FromTable(data, pos + 1) else []
  }

  // ---------- the reader ----------

  datatype Section = Section(name: Text, size: nat, at: nat)
  datatype Info = Info(value: nat, section: nat, kind: nat)
  datatype Object = Object(code: seq<Byte>, data: seq<Byte>, symbols: map<Text, Info>)

  function SectionsAt(file: seq<Byte>, off: nat, n: nat): (s: seq<Section>)
    ensures |s| == n
    decreases n
  {
    if n == 0 then []
    else
      var first := Section(ReadString(file, off, 8), Read32(file, off + 16), Read32(file, off + 20));
      [first] + SectionsAt(file, off + 40, n - 1)
  }

  predicate Named(s: Section, name: Text) {
    name <= s.name
  }

  /** Number of the last text section, and of the last data section that is no text section; 0 if there is none. */
  function TextIndex(s: seq<Section>): (i: nat)
    ensures i <= |s|
  {
    if s == [] then 0 else if Named(s[|s| - 1], DOT_TEXT) then |s| else TextIndex(s[..|s| - 1])
  }

  function DataIndex(s: seq<Section>): (i: nat)
    ensures i <= |s|
  {
    if s == [] then 0
    else if !Named(s[|s| - 1], DOT_TEXT) && Named(s[|s| - 1], DOT_DATA) then |s|
    else DataIndex(s[..|s| - 1])
  }

  function Clip(file: seq<Byte>, a: nat, n: nat): seq<Byte> {
    if a >= |file| then [] else if a + n >= |file| then file[a..] else file[a..a + n]
  }

  function Contents(file: seq<Byte>, s: seq<Section>, i: nat): seq<Byte>
    requires i <= |s|
  {
    if i > 0 && s[i - 1].size > 0 then Clip(file, s[i - 1].at, s[i - 1].size) else []
  }

  function NameAt(file: seq<Byte>, off: nat, table: nat): Text {
    if Read32(file, off) == 0 then
      (if Read32(file, off + 4) < 4 then [] else FromTable(file, table + Read32(file, off + 4)))
    else ReadString(file, off, 8)
  }

  /** One symbol: kept if it is external and in one of the two sections. */
  function Keep(file: seq<Byte>, off: nat, table: nat, text: nat, data: nat, soFar: map<Text, Info>): map<Text, Info> {
    var number := Read16(file, off + 12);
    var section := if number == text then 1 else if number == data then 2 else 0;
    if B(file, off + 16) == EXTERNAL && number > 0 && section > 0 then
      soFar[NameAt(file, off, table) := Info(Read32(file, off + 8), section, Read16(file, off + 14))]
    else soFar
  }

  /** Symbols i .. n - 1; auxiliary entries are skipped. */
  function SymbolsAt(file: seq<Byte>, off: nat, i: nat, n: nat, table: nat, text: nat, data: nat, soFar: map<Text,
      Info>): map<Text, Info>
    decreases if i < n then n - i else 0
  {
    if i >= n then soFar
    else
      var aux := B(file, off + 17);
      SymbolsAt(file, off + 18 + 18 * aux, i + 1 + aux, n, table, text, data,
        Keep(file, off, table, text, data, soFar))
  }

  method ReadSections(file: seq<Byte>, start: nat, count: nat) returns (headers: seq<Section>)
    ensures headers == SectionsAt(file, start, count)
  {
    var off: nat := start;
    headers := [];
    var i: nat := 0;
    while i < count
      invariant i <= count && headers + SectionsAt(file, off, count - i) == SectionsAt(file, start, count)
    {
      headers := headers + [Section(ReadString(file, off, 8), Read32(file, off + 16), Read32(file, off + 20))];
      off := off + 40;
      i := i + 1;
    }
  }

  method ReadSymbols(file: seq<Byte>, symtab: nat, nsyms: nat, table: nat, text: nat, data: nat)
      returns (symbols: map<Text, Info>)
    ensures symbols == SymbolsAt(file, symtab, 0, nsyms, table, text, data, map[])
  {
    hide Keep;
    symbols := map[];
    var off: nat := symtab;
    var i: nat := 0;
    while i < nsyms
      invariant SymbolsAt(file, off, i, nsyms, table, text, data, symbols) ==
        SymbolsAt(file, symtab, 0, nsyms, table, text, data, map[])
      decreases if i < nsyms then nsyms - i else 0
    {
      symbols := Keep(file, off, table, text, data, symbols);
      var aux: nat := B(file, off + 17);
      off := off + 18 + 18 * aux;
      i := i + 1 + aux;
    }
  }

  method ParseCoffObject(file: seq<Byte>) returns (r: Option<Object>)
    ensures r == Parse(file)
  {
    if Read16(file, 0) != MACHINE { return None; }
    var headers := ReadSections(file, 20 + Read16(file, 16), Read16(file, 2));
    var text, data := TextIndex(headers), DataIndex(headers);
    var symtab, nsyms := Read32(file, 8), Read32(file, 12);
    var symbols := ReadSymbols(file, symtab, nsyms, symtab + nsyms * 18, text, data);
    r := Some(Object(Contents(file, headers, text), Contents(file, headers, data), symbols));
  }

  function Parse(file: seq<Byte>): Option<Object> {
    if Read16(file, 0) != MACHINE then None
    else
      var symtab, nsyms := Read32(file, 8), Read32(file, 12);
      var s := SectionsAt(file, 20 + Read16(file, 16), Read16(file, 2));
      Some(Object(Contents(file, s, TextIndex(s)), Contents(file, s, DataIndex(s)),
        SymbolsAt(file, symtab, 0, nsyms, symtab + nsyms * 18, TextIndex(s), DataIndex(s), map[])))
  }

  // ---------- the writer ----------

  datatype Sym = Sym(name: Text, value: nat, section: nat, kind: nat, class_: nat, at: nat)
  datatype Reloc = Reloc(offset: nat, symbol: Text)

  /** Symbols, string table, and the number of each named symbol. */
  datatype Table = Table(symbols: seq<Sym>, strings: seq<Byte>, index: map<Text, nat>)

  const FIRST: Table := Table([Sym(DOT_TEXT, 0, 1, 0, STATIC, 0)], [], map[])

  /** A function symbol, unless it is there already; long names go into the string table. */
  function Add(t: Table, name: Text, value: nat, section: nat): Table {
    if name in t.index then t
    else Table(
      t.symbols + [Sym(name, value, section, FUNCTION, EXTERNAL, if |name| > 8 then 4 + |t.strings| else 0)],
      t.strings + (if |name| > 8 then name + [0] else []),
      t.index[name := |t.symbols|])
  }

  function AddLabel(t: Table, name: Text, labels: map<Text, nat>): Table {
    if name in labels then Add(t, name, labels[name], 1) else t
  }

  function AddExports(exports: seq<Text>, labels: map<Text, nat>): Table {
    if exports == [] then FIRST
    else
      var name := exports[|exports| - 1];
      AddLabel(AddLabel(AddExports(exports[..|exports| - 1], labels), USER + name, labels), UNDERSCORE + name, labels)
  }

  function AddUndefined(t: Table, names: seq<Text>): Table {
    if names == [] then t else Add(AddUndefined(t, names[..|names| - 1]), names[|names| - 1], 0, 0)
  }

  function TableOf(exports: seq<Text>, labels: map<Text, nat>, undefined: seq<Text>): Table {
    AddUndefined(AddLabel(AddExports(exports, labels), MAIN, labels), undefined)
  }

  function Zeros(n: nat): (z: seq<Byte>)
    ensures |z| == n && forall i :: 0 <= i < n ==> z[i] == 0
  {
    seq(n, _ => 0)
  }

  function NameField(name: Text): (b: seq<Byte>)
    requires |name| <= 8
    ensures |b| == 8
  {
    name + Zeros(8 - |name|)
  }

  function SymBytes(s: Sym): (b: seq<Byte>)
    ensures |b| == 18
  {
    (if |s.name| <= 8 then NameField(s.name) else LE(0, 4) + LE(s.at, 4))
    + LE(s.value, 4) + LE(s.section, 2) + LE(s.kind, 2) + [s.class_ % 256, 0]
  }

  function SymTab(s: seq<Sym>): (b: seq<Byte>)
    ensures |b| == 18 * |s|
  {
    if s == [] then [] else SymTab(s[..|s| - 1]) + SymBytes(s[|s| - 1])
  }

  function RelocBytes(relocs: seq<Reloc>, index: map<Text, nat>): seq<Byte> {
    if relocs == [] then []
    else
      var r := relocs[|relocs| - 1];
      RelocBytes(relocs[..|relocs| - 1], index)
        + if r.symbol in index then LE(r.offset, 4) + LE(index[r.symbol], 4) + LE(REL32, 2) else []
  }

  function RelocCount(relocs: seq<Reloc>, index: map<Text, nat>): (n: nat)
    ensures |RelocBytes(relocs, index)| == 10 * n
  {
    if relocs == [] then 0
    else RelocCount(relocs[..|relocs| - 1], index) + if relocs[|relocs| - 1].symbol in index then 1 else 0
  }

  function SectionHeader(name: Text, size: nat, at: nat, relocAt: nat, relocs: nat, flags: nat): (b: seq<Byte>)
    requires |name| <= 8
    ensures |b| == 40
  {
    NameField(name) + (LE(0, 4) + LE(0, 4)) + LE(size, 4) + LE(at, 4)
      + (LE(relocAt, 4) + LE(0, 4) + LE(relocs, 2) + LE(0, 2) + LE(flags, 4))
  }

  /** The file, part by part. */
  datatype Layout = Layout(sections: nat, textAt: nat, dataAt: nat, relocAt: nat, symtab: nat)

  function LayoutOf(code: seq<Byte>, data: seq<Byte>, relocs: nat): Layout {
    var n := if |data| > 0 then 2 else 1;
    var textAt := 20 + 40 * n;
    Layout(n, textAt, textAt + |code|, textAt + |code| + |data|, textAt + |code| + |data| + 10 * relocs)
  }

  function Header(l: Layout, nsyms: nat): (b: seq<Byte>)
    ensures |b| == 20
  {
    LE(MACHINE, 2) + LE(l.sections, 2) + LE(0, 4) + LE(l.symtab, 4) + LE(nsyms, 4) + LE(0, 2) + LE(0, 2)
  }

  function Headers(l: Layout, code: seq<Byte>, data: seq<Byte>, relocs: nat): seq<Byte> {
    SectionHeader(DOT_TEXT, |code|, l.textAt, if relocs > 0 then l.relocAt else 0, relocs, TEXT_FLAGS)
    + if |data| > 0 then SectionHeader(DOT_DATA, |data|, l.dataAt, 0, 0, DATA_FLAGS) else []
  }

  function FileOf(code: seq<Byte>, data: seq<Byte>, t: Table, relocs: seq<Reloc>): seq<Byte> {
    var n := RelocCount(relocs, t.index);
    var l := LayoutOf(code, data, n);
    Header(l, |t.symbols|) + Headers(l, code, data, n) + code + data + RelocBytes(relocs, t.index) + SymTab(t.symbols)
      + LE(|t.strings| + 4, 4) + t.strings
  }

  // ---------- reading what is written ----------

  predicate At(file: seq<Byte>, off: nat, piece: seq<Byte>) {
    off + |piece| <= |file| && file[off..off + |piece|] == piece
  }

  lemma AtParts(file: seq<Byte>, off: nat, a: seq<Byte>, b: seq<Byte>)
    requires At(file, off, a + b)
    ensures At(file, off, a) && At(file, off + |a|, b)
  {
    var whole := file[off..off + |a + b|];
    assert whole[..|a|] == a && whole[|a|..] == b;
    assert file[off..off + |a|] == whole[..|a|];
    assert file[off + |a|..off + |a| + |b|] == whole[|a|..];
  }

  lemma AtInside(file: seq<Byte>, off: nat, whole: seq<Byte>, p: nat, piece: seq<Byte>)
    requires At(file, off, whole) && At(whole, p, piece)
    ensures At(file, off + p, piece)
  {
    forall i | 0 <= i < |piece| ensures file[off + p + i] == piece[i] {
      assert file[off..off + |whole|][p + i] == whole[p + i];
      assert whole[p..p + |piece|][i] == piece[i];
    }
  }

  lemma AtIndex(file: seq<Byte>, off: nat, piece: seq<Byte>, i: nat)
    requires At(file, off, piece) && i < |piece|
    ensures off + i < |file| && file[off + i] == piece[i]
  {
    assert file[off..off + |piece|][i] == piece[i];
  }

  lemma Reads16(file: seq<Byte>, off: nat, v: nat)
    requires At(file, off, LE(v, 2)) && v < 65536
    ensures Read16(file, off) == v
  {
    AtIndex(file, off, LE(v, 2), 0);
    AtIndex(file, off, LE(v, 2), 1);
    assert LE(v, 2) == [v % 256] + LE(v / 256, 1) && LE(v / 256, 1) == [v / 256 % 256] + [];
  }

  lemma Reads32(file: seq<Byte>, off: nat, v: nat)
    requires At(file, off, LE(v, 4)) && v < 0x1_0000_0000
    ensures Read32(file, off) == v
  {
    var lo, hi := v % 65536, v / 65536;
    assert LE(v, 4) == [v % 256] + LE(v / 256, 3) && LE(v / 256, 3) == [v / 256 % 256] + LE(v / 256 / 256, 2);
    assert LE(lo, 2) == [lo % 256] + LE(lo / 256, 1) && LE(lo / 256, 1) == [lo / 256 % 256] + [];
    assert v / 256 / 256 == hi && lo % 256 == v % 256 && lo / 256 % 256 == v / 256 % 256;
    assert LE(v, 4) == LE(lo, 2) + LE(hi, 2);
    AtParts(file, off, LE(lo, 2), LE(hi, 2));
    Reads16(file, off, lo);
    Reads16(file, off + 2, hi);
  }

  predicate NoNul(s: Text) {
    forall i :: 0 <= i < |s| ==> s[i] != 0
  }

  lemma {:induction false} ReadsName(file: seq<Byte>, off: nat, name: Text, max: nat)
    requires |name| <= max && At(file, off, name + Zeros(max - |name|)) && NoNul(name)
    ensures ReadString(file, off, max) == name
    decreases max
  {
    if max > 0 {
      AtIndex(file, off, name + Zeros(max - |name|), 0);
      if name != [] {
        assert name + Zeros(max - |name|) == [name[0]] + (name[1..] + Zeros(max - 1 - |name[1..]|));
        AtParts(file, off, [name[0]], name[1..] + Zeros(max - 1 - |name[1..]|));
        ReadsName(file, off + 1, name[1..], max - 1);
      }
    }
  }

  lemma {:induction false} ReadsLong(file: seq<Byte>, pos: nat, name: Text)
    requires At(file, pos, name + [0]) && NoNul(name)
    ensures FromTable(file, pos) == name
    decreases |name|
  {
    AtIndex(file, pos, name + [0], 0);
    if name != [] {
      assert name + [0] == [name[0]] + (name[1..] + [0]);
      AtParts(file, pos, [name[0]], name[1..] + [0]);
      ReadsLong(file, pos + 1, name[1..]);
    }
  }

  /** A short name does not look like a reference into the string table. */
  lemma ShortIsNotZero(file: seq<Byte>, off: nat, name: Text)
    requires |name| <= 8 && At(file, off, NameField(name)) && NoNul(name) && name != []
    ensures Read32(file, off) != 0
  {
    AtIndex(file, off, NameField(name), 0);
  }

  // ---------- one symbol ----------

  /** Its numbers fit their fields, and if it is in a section it has a proper name. */
  predicate SymOk(s: Sym) {
    (s.section > 0 ==> NoNul(s.name) && s.name != []) && s.value < 0x1_0000_0000 && s.section < 65536 && s.kind < 65536
      && s.class_ < 256 && s.at < 0x1_0000_0000
  }

  /** The string table at `table` has the name of a symbol that does not fit the field. */
  predicate HasName(file: seq<Byte>, table: nat, s: Sym) {
    |s.name| > 8 ==> s.at >= 4 && At(file, table + s.at, s.name + [0])
  }

  lemma FieldsOf(file: seq<Byte>, off: nat, s: Sym)
    requires At(file, off, SymBytes(s))
    ensures At(file, off, if |s.name| <= 8 then NameField(s.name) else LE(0, 4) + LE(s.at, 4))
    ensures At(file, off + 8, LE(s.value, 4)) && At(file, off + 12, LE(s.section, 2))
    ensures At(file, off + 14, LE(s.kind, 2))
    ensures At(file, off + 16, [s.class_ % 256, 0])
  {
    var a := if |s.name| <= 8 then NameField(s.name) else LE(0, 4) + LE(s.at, 4);
    var b, c, d, e := LE(s.value, 4), LE(s.section, 2), LE(s.kind, 2), [s.class_ % 256, 0];
    AtParts(file, off, a + b + c + d, e);
    AtParts(file, off, a + b + c, d);
    AtParts(file, off, a + b, c);
    AtParts(file, off, a, b);
  }

  lemma NameReads(file: seq<Byte>, off: nat, s: Sym, table: nat)
    requires At(file, off, SymBytes(s)) && SymOk(s) && HasName(file, table, s) && s.section > 0
    ensures NameAt(file, off, table) == s.name
  {
    hide SymBytes, LE;
    FieldsOf(file, off, s);
    if |s.name| <= 8 {
      ShortIsNotZero(file, off, s.name);
      ReadsName(file, off, s.name, 8);
    } else {
      AtParts(file, off, LE(0, 4), LE(s.at, 4));
      Reads32(file, off, 0);
      Reads32(file, off + 4, s.at);
      ReadsLong(file, table + s.at, s.name);
    }
  }

  /** What the reader keeps of a symbol. */
  function Kept(s: Sym, soFar: map<Text, Info>): map<Text, Info> {
    if s.class_ == EXTERNAL && s.section == 1 then soFar[s.name := Info(s.value, 1, s.kind)] else soFar
  }

  lemma NumbersRead(file: seq<Byte>, off: nat, s: Sym)
    requires At(file, off, SymBytes(s)) && SymOk(s)
    ensures Read32(file, off + 8) == s.value && Read16(file, off + 12) == s.section && Read16(file, off + 14) == s.kind
    ensures B(file, off + 16) == s.class_ && B(file, off + 17) == 0
  {
    FieldsOf(file, off, s);
    Reads32(file, off + 8, s.value);
    Reads16(file, off + 12, s.section);
    Reads16(file, off + 14, s.kind);
    AtIndex(file, off + 16, [s.class_ % 256, 0], 0);
    AtIndex(file, off + 16, [s.class_ % 256, 0], 1);
    hide LE, SymBytes, Read16, Read32;
  }

  lemma SymbolReads(file: seq<Byte>, off: nat, s: Sym, table: nat, data: nat, soFar: map<Text, Info>)
    requires At(file, off, SymBytes(s)) && SymOk(s) && HasName(file, table, s) && s.section <= 1
    requires (data == 0 || data == 2)
    ensures Keep(file, off, table, 1, data, soFar) == Kept(s, soFar)
    ensures B(file, off + 17) == 0
  {
    NumbersRead(file, off, s);
    if s.section > 0 { NameReads(file, off, s, table); }
    hide NameAt, LE, SymBytes, Read16, Read32, B, At, SymOk, HasName;
  }

  // ---------- the symbol table ----------

  function Collect(symbols: seq<Sym>): map<Text, Info> {
    if symbols == [] then map[] else Kept(symbols[|symbols| - 1], Collect(symbols[..|symbols| - 1]))
  }

  ghost predicate Readable(file: seq<Byte>, table: nat, symbols: seq<Sym>) {
    forall i :: 0 <= i < |symbols| ==> SymOk(symbols[i]) && HasName(file, table, symbols[i]) && symbols[i].section <= 1
  }

  lemma {:induction false} SymTabAt(file: seq<Byte>, off: nat, symbols: seq<Sym>, i: nat)
    requires At(file, off, SymTab(symbols)) && i < |symbols|
    ensures At(file, off + 18 * i, SymBytes(symbols[i]))
    decreases |symbols|
  {
    hide At, SymBytes;
    var n := |symbols| - 1;
    AtParts(file, off, SymTab(symbols[..n]), SymBytes(symbols[n]));
    if i < n {
      SymTabAt(file, off, symbols[..n], i);
    }
  }

  lemma {:induction false} SymbolsRead(file: seq<Byte>, off: nat, symbols: seq<Sym>, i: nat, table: nat, data: nat)
    requires At(file, off, SymTab(symbols)) && Readable(file, table, symbols) && i <= |symbols|
    requires (data == 0 || data == 2)
    ensures SymbolsAt(file, off + 18 * i, i, |symbols|, table, 1, data, Collect(symbols[..i])) == Collect(symbols)
    decreases |symbols| - i
  {
    hide Keep, Kept, SymBytes, SymTab;
    if i < |symbols| {
      SymTabAt(file, off, symbols, i);
      SymbolReads(file, off + 18 * i, symbols[i], table, data, Collect(symbols[..i]));
      assert symbols[..i + 1][..i] == symbols[..i];
      SymbolsRead(file, off, symbols, i + 1, table, data);
    } else {
      assert symbols[..i] == symbols;
    }
  }

  // ---------- what the table builder guarantees ----------

  /** Names of symbols that are in a section; all names are without NUL, as those of labels are. */
  predicate GoodLabels(labels: map<Text, nat>) {
    forall l :: l in labels ==> NoNul(l) && l != [] && labels[l] < 0x1_0000_0000
  }

  /** Long names are in the string table where their symbols say. */
  predicate Stored(s: Sym, strings: seq<Byte>) {
    if |s.name| > 8 then s.at >= 4 && s.at - 4 + |s.name| + 1 <= |strings|
      && strings[s.at - 4..s.at - 4 + |s.name| + 1] == s.name + [0]
    else s.at == 0
  }

  predicate Sane(t: Table) {
    && t.symbols != [] && t.symbols[0] == FIRST.symbols[0]
    && (forall i :: 1 <= i < |t.symbols| ==>
         t.symbols[i].class_ == EXTERNAL && t.symbols[i].kind == FUNCTION && t.symbols[i].section <= 1)
    && (forall i :: 0 <= i < |t.symbols| && t.symbols[i].section == 0 ==> t.symbols[i].value == 0)
    && (forall i :: 0 <= i < |t.symbols| ==> Stored(t.symbols[i], t.strings))
    && (forall i :: 1 <= i < |t.symbols| ==> t.symbols[i].name in t.index && t.index[t.symbols[i].name] == i)
    && (forall l :: l in t.index ==> 1 <= t.index[l] < |t.symbols| && t.symbols[t.index[l]].name == l)
  }

  lemma StoredStays(s: Sym, strings: seq<Byte>, more: seq<Byte>)
    requires Stored(s, strings)
    ensures Stored(s, strings + more)
  {
    if |s.name| > 8 {
      assert (strings + more)[s.at - 4..s.at - 4 + |s.name| + 1] == strings[s.at - 4..s.at - 4 + |s.name| + 1];
    }
  }

  lemma AddIsSane(t: Table, name: Text, value: nat, section: nat)
    requires Sane(t) && section <= 1 && (section == 0 ==> value == 0)
    ensures Sane(Add(t, name, value, section)) && t.symbols <= Add(t, name, value, section).symbols
    ensures Add(t, name, value, section).index.Keys == t.index.Keys + {name}
  {
    hide Stored;
    var u := Add(t, name, value, section);
    if name !in t.index {
      NewIsStored(t, name, value, section);
      assert forall i :: 0 <= i < |t.symbols| ==> u.symbols[i] == t.symbols[i];
      forall l | l in u.index ensures 1 <= u.index[l] < |u.symbols| && u.symbols[u.index[l]].name == l {
      }
      forall i | 1 <= i < |u.symbols|
        ensures u.symbols[i].name in u.index && u.index[u.symbols[i].name] == i
      {
      }
    }
  }

  lemma NewIsStored(t: Table, name: Text, value: nat, section: nat)
    requires Sane(t) && name !in t.index
    ensures var u := Add(t, name, value, section); forall i :: 0 <= i < |u.symbols| ==> Stored(u.symbols[i], u.strings)
  {
    var u := Add(t, name, value, section);
    LastIsStored(t, name, value, section);
    hide Stored, LE;
    forall i | 0 <= i < |t.symbols| ensures Stored(u.symbols[i], u.strings) {
      assert u.symbols[i] == t.symbols[i];
      StoredStays(t.symbols[i], t.strings, if |name| > 8 then name + [0] else []);
    }
  }

  lemma LastIsStored(t: Table, name: Text, value: nat, section: nat)
    requires name !in t.index
    ensures var u := Add(t, name, value, section);
      |u.symbols| == |t.symbols| + 1 && Stored(u.symbols[|t.symbols|], u.strings)
  {
    var u := Add(t, name, value, section);
    if |name| > 8 {
      assert u.strings[|t.strings|..|t.strings| + |name| + 1] == name + [0];
    }
  }

  predicate IsWanted(exports: seq<Text>, l: Text) {
    exists k :: 0 <= k < |exports| && (l == USER + exports[k] || l == UNDERSCORE + exports[k])
  }

  predicate Defined(t: Table, l: Text)
    requires Sane(t)
  {
    l in t.index && t.symbols[t.index[l]].section == 1
  }

  /** The defined symbols are the labels of `wanted`, with their values; before undefined symbols are added there are no
      others. */
  ghost predicate Means(t: Table, labels: map<Text, nat>, wanted: Text -> bool, only: bool) {
    && Sane(t)
    && (forall l :: Defined(t, l) <==> wanted(l) && l in labels)
    && (forall l :: Defined(t, l) ==> t.symbols[t.index[l]].value == labels[l])
    && (only ==> forall l :: l in t.index ==> Defined(t, l))
  }

  lemma AddLabelMeans(t: Table, labels: map<Text, nat>, wanted: Text -> bool, name: Text, more: Text -> bool)
    requires Means(t, labels, wanted, true) && forall l :: more(l) <==> wanted(l) || l == name
    ensures Means(AddLabel(t, name, labels), labels, more, true)
  {
    if name in labels {
      var u := Add(t, name, labels[name], 1);
      AddIsSane(t, name, labels[name], 1);
      if name !in t.index {
        forall l ensures Defined(u, l) <==> Defined(t, l) || l == name {
          if l in t.index { assert u.symbols[t.index[l]] == t.symbols[t.index[l]]; }
        }
      }
    }
  }

  lemma {:induction false} ExportsMean(exports: seq<Text>, labels: map<Text, nat>)
    ensures Means(AddExports(exports, labels), labels, l => IsWanted(exports, l), true)
    decreases |exports|
  {
    if exports != [] {
      var n := |exports| - 1;
      var name, before := exports[n], exports[..n];
      ExportsMean(before, labels);
      var t := AddExports(before, labels);
      hide Means, AddLabel;
      var half := (l: Text) => IsWanted(before, l) || l == USER + name;
      AddLabelMeans(t, labels, l => IsWanted(before, l), USER + name, half);
      forall l ensures IsWanted(exports, l) <==> half(l) || l == UNDERSCORE + name {
        MoreWanted(exports, l);
      }
      AddLabelMeans(AddLabel(t, USER + name, labels), labels, half, UNDERSCORE + name, l => IsWanted(exports, l));
    }
  }

  lemma MoreWanted(exports: seq<Text>, l: Text)
    requires exports != []
    ensures var n := |exports| - 1;
      IsWanted(exports, l) <==> IsWanted(exports[..n], l) || l == USER + exports[n] || l == UNDERSCORE + exports[n]
  {
    var n := |exports| - 1;
    assert forall k :: 0 <= k < n ==> exports[..n][k] == exports[k];
    if l == USER + exports[n] || l == UNDERSCORE + exports[n] {
      assert 0 <= n < |exports|;
    }
  }

  lemma {:induction false} UndefinedMeans(t: Table, names: seq<Text>, labels: map<Text, nat>, wanted: Text -> bool)
    requires Means(t, labels, wanted, true)
    ensures Means(AddUndefined(t, names), labels, wanted, false)
    decreases |names|
  {
    hide Stored;
    if names != [] {
      var n := |names| - 1;
      UndefinedMeans(t, names[..n], labels, wanted);
      var was, name := AddUndefined(t, names[..n]), names[n];
      AddIsSane(was, name, 0, 0);
      hide Sane;
      UndefinedDefinesNone(was, name);
    }
  }

  lemma UndefinedDefinesNone(t: Table, name: Text)
    requires Sane(t)
    ensures var u := Add(t, name, 0, 0);
      Sane(u) && forall l :: (Defined(u, l) <==> Defined(t, l)) && (Defined(t, l) ==>
        u.symbols[u.index[l]] == t.symbols[t.index[l]])
  {
    var u := Add(t, name, 0, 0);
    AddIsSane(t, name, 0, 0);
    hide Stored;
    forall l ensures Defined(u, l) <==> Defined(t, l) {
      if l in t.index { assert u.symbols[t.index[l]] == t.symbols[t.index[l]]; }
    }
  }

  /** The table's defined symbols are exactly the exported labels and _main. */
  lemma TableMeans(exports: seq<Text>, labels: map<Text, nat>, undefined: seq<Text>)
    ensures Means(TableOf(exports, labels, undefined), labels, l => IsWanted(exports, l) || l == MAIN, false)
  {
    hide Means;
    ExportsMean(exports, labels);
    AddLabelMeans(AddExports(exports, labels), labels, l => IsWanted(exports, l), MAIN,
      l => IsWanted(exports, l) || l == MAIN);
    UndefinedMeans(AddLabel(AddExports(exports, labels), MAIN, labels), undefined, labels,
      l => IsWanted(exports, l) || l == MAIN);
  }

  lemma {:induction false} CollectIs(t: Table, k: nat, l: Text)
    requires Sane(t) && k <= |t.symbols|
    ensures l in Collect(t.symbols[..k]) <==> Defined(t, l) && t.index[l] < k
    ensures l in Collect(t.symbols[..k]) ==>
      Collect(t.symbols[..k])[l] == Info(t.symbols[t.index[l]].value, 1, FUNCTION)
    decreases k
  {
    if k > 0 {
      assert t.symbols[..k][..k - 1] == t.symbols[..k - 1];
      CollectIs(t, k - 1, l);
    }
  }

  // ---------- the whole file ----------

  lemma SectionReads(file: seq<Byte>, off: nat, name: Text, size: nat, at: nat, relocAt: nat, relocs: nat, flags: nat)
    requires |name| <= 8 && NoNul(name) && size < 0x1_0000_0000 && at < 0x1_0000_0000
    requires At(file, off, SectionHeader(name, size, at, relocAt, relocs, flags))
    ensures ReadString(file, off, 8) == name && Read32(file, off + 16) == size && Read32(file, off + 20) == at
  {
    var z, rest := LE(0, 4) + LE(0, 4), LE(relocAt, 4) + LE(0, 4) + LE(relocs, 2) + LE(0, 2) + LE(flags, 4);
    AtParts(file, off, NameField(name) + z + LE(size, 4) + LE(at, 4), rest);
    AtParts(file, off, NameField(name) + z + LE(size, 4), LE(at, 4));
    AtParts(file, off, NameField(name) + z, LE(size, 4));
    AtParts(file, off, NameField(name), z);
    ReadsName(file, off, name, 8);
    Reads32(file, off + 16, size);
    Reads32(file, off + 20, at);
  }

  lemma HeaderReads(file: seq<Byte>, l: Layout, nsyms: nat)
    requires At(file, 0, Header(l, nsyms)) && l.sections < 65536 && l.symtab < 0x1_0000_0000 && nsyms < 0x1_0000_0000
    ensures Read16(file, 0) == MACHINE && Read16(file, 2) == l.sections && Read32(file, 8) == l.symtab
    ensures Read32(file, 12) == nsyms
    ensures Read16(file, 16) == 0
  {
    var a, b, c, d, e, f, g := LE(MACHINE, 2), LE(l.sections, 2), LE(0, 4), LE(l.symtab, 4), LE(nsyms, 4), LE(0, 2),
      LE(0, 2);
    AtParts(file, 0, a + b + c + d + e + f, g);
    AtParts(file, 0, a + b + c + d + e, f);
    AtParts(file, 0, a + b + c + d, e);
    AtParts(file, 0, a + b + c, d);
    AtParts(file, 0, a + b, c);
    AtParts(file, 0, a, b);
    Reads16(file, 0, MACHINE);
    Reads16(file, 2, l.sections);
    Reads32(file, 8, l.symtab);
    Reads32(file, 12, nsyms);
    Reads16(file, 16, 0);
  }

  /** The sections as read. */
  function SectionsOf(l: Layout, code: seq<Byte>, data: seq<Byte>): seq<Section> {
    [Section(DOT_TEXT, |code|, l.textAt)] + if |data| > 0 then [Section(DOT_DATA, |data|, l.dataAt)] else []
  }

  lemma SectionsRead(file: seq<Byte>, code: seq<Byte>, data: seq<Byte>, relocs: nat)
    requires var l := LayoutOf(code, data, relocs);
      At(file, 20, Headers(l, code, data, relocs)) && l.symtab < 0x1_0000_0000
    ensures var l := LayoutOf(code, data, relocs); SectionsAt(file, 20, l.sections) == SectionsOf(l, code, data)
  {
    hide LE;
    var l := LayoutOf(code, data, relocs);
    var first := SectionHeader(DOT_TEXT, |code|, l.textAt, if relocs > 0 then l.relocAt else 0, relocs, TEXT_FLAGS);
    hide SectionHeader, ReadString, Read32, At;
    if |data| > 0 {
      AtParts(file, 20, first, SectionHeader(DOT_DATA, |data|, l.dataAt, 0, 0, DATA_FLAGS));
      SectionReads(file, 60, DOT_DATA, |data|, l.dataAt, 0, 0, DATA_FLAGS);
      assert SectionsAt(file, 60, 1) == [Section(ReadString(file, 60, 8), Read32(file, 76), Read32(file, 80))]
        + SectionsAt(file, 100, 0);
    } else {
      AtParts(file, 20, first, []);
    }
    SectionReads(file, 20, DOT_TEXT, |code|, l.textAt, if relocs > 0 then l.relocAt else 0, relocs, TEXT_FLAGS);
    assert SectionsAt(file, 20, l.sections) ==
      [Section(ReadString(file, 20, 8), Read32(file, 36), Read32(file, 40))] + SectionsAt(file, 60, l.sections - 1);
  }

  lemma SectionIndexes(l: Layout, code: seq<Byte>, data: seq<Byte>)
    ensures var s := SectionsOf(l, code, data);
      TextIndex(s) == 1 && DataIndex(s) == if |data| > 0 then 2 else 0
  {
    var first := [Section(DOT_TEXT, |code|, l.textAt)];
    assert TextIndex(first) == 1 && DataIndex(first) == 0 by { assert first[..0] == []; }
    if |data| > 0 {
      var s := SectionsOf(l, code, data);
      assert s[..1] == first && !(DOT_TEXT <= DOT_DATA) by { assert DOT_TEXT[1] != DOT_DATA[1]; }
    }
  }

  lemma Chop(file: seq<Byte>, h: seq<Byte>, hs: seq<Byte>, c: seq<Byte>, d: seq<Byte>, r: seq<Byte>, sy: seq<Byte>,
      sz: seq<Byte>, st: seq<Byte>)
    requires file == h + hs + c + d + r + sy + sz + st
    ensures At(file, 0, h) && At(file, |h|, hs) && At(file, |h| + |hs|, c) && At(file, |h| + |hs| + |c|, d)
    ensures At(file, |h| + |hs| + |c| + |d|, r)
    ensures At(file, |h| + |hs| + |c| + |d| + |r|, sy) && At(file, |h| + |hs| + |c| + |d| + |r| + |sy| + |sz|, st)
  {
    assert At(file, 0, file);
    hide At;
    AtParts(file, 0, h + hs + c + d + r + sy + sz, st);
    AtParts(file, 0, h + hs + c + d + r + sy, sz);
    AtParts(file, 0, h + hs + c + d + r, sy);
    AtParts(file, 0, h + hs + c + d, r);
    AtParts(file, 0, h + hs + c, d);
    AtParts(file, 0, h + hs, c);
    AtParts(file, 0, h, hs);
  }

  lemma HeadersLength(l: Layout, code: seq<Byte>, data: seq<Byte>, relocs: nat)
    requires l == LayoutOf(code, data, relocs)
    ensures |Headers(l, code, data, relocs)| == 40 * l.sections && l.textAt == 20 + 40 * l.sections
  {
  }

  /** Where the parts of the file are. */
  predicate Laid(file: seq<Byte>, l: Layout, code: seq<Byte>, data: seq<Byte>, t: Table, relocs: nat) {
    && At(file, 0, Header(l, |t.symbols|)) && At(file, 20, Headers(l, code, data, relocs)) && At(file, l.textAt, code)
    && At(file, l.dataAt, data) && At(file, l.symtab, SymTab(t.symbols))
    && At(file, l.symtab + 18 * |t.symbols| + 4, t.strings)
    && |file| == l.symtab + 18 * |t.symbols| + 4 + |t.strings|
  }

  lemma PartsAt(file: seq<Byte>, l: Layout, code: seq<Byte>, data: seq<Byte>, t: Table, relocs: seq<Reloc>, n: nat)
    requires n == RelocCount(relocs, t.index) && l == LayoutOf(code, data, n) && file == FileOf(code, data, t, relocs)
    ensures Laid(file, l, code, data, t, n)
  {
    hide FileOf, LayoutOf, Header, Headers, RelocBytes, RelocCount, SymTab, LE, At, Laid;
    FileIs(file, l, code, data, t, relocs, n);
    LaidOut(file, l, Header(l, |t.symbols|), Headers(l, code, data, n), code, data, RelocBytes(relocs, t.index),
      SymTab(t.symbols), LE(|t.strings| + 4, 4), t, n);
  }

  lemma FileIs(file: seq<Byte>, l: Layout, code: seq<Byte>, data: seq<Byte>, t: Table, relocs: seq<Reloc>, n: nat)
    requires n == RelocCount(relocs, t.index) && l == LayoutOf(code, data, n) && file == FileOf(code, data, t, relocs)
    ensures file == Header(l, |t.symbols|) + Headers(l, code, data, n) + code + data + RelocBytes(relocs, t.index)
      + SymTab(t.symbols) + LE(|t.strings| + 4, 4) + t.strings
    ensures |RelocBytes(relocs, t.index)| == 10 * n
  {
    hide Header, Headers, RelocBytes, SymTab, LE;
  }

  lemma LaidOut(file: seq<Byte>, l: Layout, h: seq<Byte>, hs: seq<Byte>, code: seq<Byte>, data: seq<Byte>, r: seq<Byte>,
      sy: seq<Byte>, sz: seq<Byte>, t: Table, n: nat)
    requires file == h + hs + code + data + r + sy + sz + t.strings && l == LayoutOf(code, data, n)
    requires h == Header(l, |t.symbols|) && hs == Headers(l, code, data, n) && sy == SymTab(t.symbols) && |r| == 10 * n
    requires |sz| == 4
    ensures Laid(file, l, code, data, t, n)
  {
    hide Header, Headers, SymTab, LE, At;
    HeadersLength(l, code, data, n);
    PlacesAdd(l, code, data, n);
    Chop(file, h, hs, code, data, r, sy, sz, t.strings);
    hide LayoutOf;
  }

  lemma PlacesAdd(l: Layout, code: seq<Byte>, data: seq<Byte>, relocs: nat)
    requires l == LayoutOf(code, data, relocs)
    ensures l.dataAt == l.textAt + |code| && l.symtab == l.dataAt + |data| + 10 * relocs
  {
  }

  // ---------- the relocation table ----------

  /** The relocations whose symbol is in the table. */
  function KnownRelocs(relocs: seq<Reloc>, index: map<Text, nat>): (known: seq<Reloc>)
    ensures |known| == RelocCount(relocs, index) && forall k :: 0 <= k < |known| ==> known[k].symbol in index
  {
    if relocs == [] then []
    else
      var n := |relocs| - 1;
      KnownRelocs(relocs[..n], index) + if relocs[n].symbol in index then [relocs[n]] else []
  }

  lemma {:induction false} RelocAt(relocs: seq<Reloc>, index: map<Text, nat>, k: nat)
    requires k < |KnownRelocs(relocs, index)|
    ensures var r := KnownRelocs(relocs, index)[k];
      At(RelocBytes(relocs, index), 10 * k, EntryBytes(r, index))
    decreases |relocs|
  {
    hide LE;
    var n := |relocs| - 1;
    var known, before := KnownRelocs(relocs, index), RelocBytes(relocs[..n], index);
    if k < |KnownRelocs(relocs[..n], index)| {
      RelocAt(relocs[..n], index, k);
      assert known[k] == KnownRelocs(relocs[..n], index)[k];
      assert RelocBytes(relocs, index)[10 * k..10 * k + 10] == before[10 * k..10 * k + 10];
    } else {
      assert 10 * k == |before|;
    }
  }

  predicate RelocEntry(file: seq<Byte>, off: nat, r: Reloc, t: Table) {
    && off + 10 <= |file| && Read32(file, off) == r.offset && Read16(file, off + 8) == 4
    && Read32(file, off + 4) < |t.symbols| && t.symbols[Read32(file, off + 4)].name == r.symbol
  }

  /** The k-th entry of the written table is the k-th relocation of a known symbol: the offset in the code, the number
      of the symbol, whose entry in the symbol table has its name, and the type of a 32-bit displacement; the header of
      the code section says where the table is and how long. */
  lemma RelocationReads(code: seq<Byte>, data: seq<Byte>, t: Table, relocs: seq<Reloc>, k: nat)
    requires Sane(t) && k < |KnownRelocs(relocs, t.index)| && |FileOf(code, data, t, relocs)| < 0x1_0000_0000
    requires |KnownRelocs(relocs, t.index)| < 65536 && KnownRelocs(relocs, t.index)[k].offset < 0x1_0000_0000
    ensures var file, known := FileOf(code, data, t, relocs), KnownRelocs(relocs, t.index);
      Read16(file, 52) == |known| && RelocEntry(file, Read32(file, 44) + 10 * k, known[k], t)
  {
    var file, n := FileOf(code, data, t, relocs), RelocCount(relocs, t.index);
    var l := LayoutOf(code, data, n);
    hide FileOf, LayoutOf, RelocEntry, Sane, At, Read32, Read16;
    TableIsThere(file, l, code, data, t, relocs, n);
    EntryIn(file, l.relocAt, t, relocs, k);
  }

  lemma EntryIn(file: seq<Byte>, at: nat, t: Table, relocs: seq<Reloc>, k: nat)
    requires Sane(t) && k < |KnownRelocs(relocs, t.index)| && At(file, at, RelocBytes(relocs, t.index))
    requires |t.symbols| < 0x1_0000_0000 && KnownRelocs(relocs, t.index)[k].offset < 0x1_0000_0000
    ensures RelocEntry(file, at + 10 * k, KnownRelocs(relocs, t.index)[k], t)
  {
    hide RelocBytes, Sane, At, LE, Read32, Read16, KnownRelocs, RelocCount, EntryBytes;
    var r := KnownRelocs(relocs, t.index)[k];
    IndexedSymbol(t, r.symbol);
    RelocAt(relocs, t.index, k);
    AtInside(file, at, RelocBytes(relocs, t.index), 10 * k, EntryBytes(r, t.index));
    EntryReads(file, at + 10 * k, r, t.index);
  }

  lemma IndexedSymbol(t: Table, l: Text)
    requires Sane(t) && l in t.index
    ensures t.index[l] < |t.symbols| && t.symbols[t.index[l]].name == l
  {
  }

  function EntryBytes(r: Reloc, index: map<Text, nat>): (b: seq<Byte>)
    requires r.symbol in index
    ensures |b| == 10
  {
    LE(r.offset, 4) + LE(index[r.symbol], 4) + LE(REL32, 2)
  }

  lemma EntryReads(file: seq<Byte>, off: nat, r: Reloc, index: map<Text, nat>)
    requires r.symbol in index && At(file, off, EntryBytes(r, index))
    requires r.offset < 0x1_0000_0000 && index[r.symbol] < 0x1_0000_0000
    ensures off + 10 <= |file| && Read32(file, off) == r.offset && Read32(file, off + 4) == index[r.symbol]
    ensures Read16(file, off + 8) == REL32
  {
    var a, b, c := LE(r.offset, 4), LE(index[r.symbol], 4), LE(REL32, 2);
    hide LE, Read32, Read16;
    AtParts(file, off, a + b, c);
    AtParts(file, off, a, b);
    Reads32(file, off, r.offset);
    Reads32(file, off + 4, index[r.symbol]);
    Reads16(file, off + 8, REL32);
  }

  lemma SectionRelocs(file: seq<Byte>, off: nat, name: Text, size: nat, at: nat, relocAt: nat, relocs: nat, flags: nat)
    requires |name| <= 8 && relocAt < 0x1_0000_0000 && relocs < 65536
    requires At(file, off, SectionHeader(name, size, at, relocAt, relocs, flags))
    ensures Read32(file, off + 24) == relocAt && Read16(file, off + 32) == relocs
  {
    var front := NameField(name) + (LE(0, 4) + LE(0, 4)) + LE(size, 4) + LE(at, 4);
    var a, b, c, d, e := LE(relocAt, 4), LE(0, 4), LE(relocs, 2), LE(0, 2), LE(flags, 4);
    hide LE, Read32, Read16, NameField;
    AtParts(file, off, front, a + b + c + d + e);
    AtParts(file, off + 24, a + b + c + d, e);
    AtParts(file, off + 24, a + b + c, d);
    AtParts(file, off + 24, a + b, c);
    AtParts(file, off + 24, a, b);
    Reads32(file, off + 24, relocAt);
    Reads16(file, off + 32, relocs);
  }

  /** The relocation table is behind code and data, and the code section's header leads to it. */
  lemma TableIsThere(file: seq<Byte>, l: Layout, code: seq<Byte>, data: seq<Byte>, t: Table, relocs: seq<Reloc>, n: nat)
    requires n == RelocCount(relocs, t.index) && l == LayoutOf(code, data, n) && file == FileOf(code, data, t, relocs)
    requires |file| < 0x1_0000_0000 && 0 < n < 65536
    ensures At(file, l.relocAt, RelocBytes(relocs, t.index))
    ensures Read32(file, 44) == l.relocAt && Read16(file, 52) == n
    ensures |t.symbols| < 0x1_0000_0000
  {
    HeadersLength(l, code, data, n);
    assert l.relocAt == l.textAt + |code| + |data|;
    hide FileOf, LayoutOf, Header, Headers, RelocBytes, RelocCount, SymTab, LE, At, Read32, Read16;
    FileIs(file, l, code, data, t, relocs, n);
    Places(file, Header(l, |t.symbols|), Headers(l, code, data, n), code, data, RelocBytes(relocs, t.index),
      SymTab(t.symbols), LE(|t.strings| + 4, 4), t.strings, l.relocAt);
    CodeHeader(file, l, code, data, n);
  }

  lemma Places(file: seq<Byte>, h: seq<Byte>, hs: seq<Byte>, c: seq<Byte>, d: seq<Byte>, r: seq<Byte>, sy: seq<Byte>,
      sz: seq<Byte>, st: seq<Byte>, at: nat)
    requires file == h + hs + c + d + r + sy + sz + st && at == |h| + |hs| + |c| + |d|
    ensures At(file, |h|, hs) && At(file, at, r) && at <= |file| && |sy| <= |file|
  {
    hide At;
    Chop(file, h, hs, c, d, r, sy, sz, st);
  }

  lemma CodeHeader(file: seq<Byte>, l: Layout, code: seq<Byte>, data: seq<Byte>, n: nat)
    requires At(file, 20, Headers(l, code, data, n)) && l.relocAt < 0x1_0000_0000 && 0 < n < 65536
    ensures Read32(file, 44) == l.relocAt && Read16(file, 52) == n
  {
    var head := SectionHeader(DOT_TEXT, |code|, l.textAt, l.relocAt, n, TEXT_FLAGS);
    var rest := if |data| > 0 then SectionHeader(DOT_DATA, |data|, l.dataAt, 0, 0, DATA_FLAGS) else [];
    assert Headers(l, code, data, n) == head + rest;
    hide At, SectionHeader, Read32, Read16, Headers;
    AtParts(file, 20, head, rest);
    SectionRelocs(file, 20, DOT_TEXT, |code|, l.textAt, l.relocAt, n, TEXT_FLAGS);
  }

  /** The object as it was: code, data, and the offset of every exported label and of _main. */
  function Wanted(exports: seq<Text>, labels: map<Text, nat>): map<Text, Info> {
    map l | l in labels && (IsWanted(exports, l) || l == MAIN) :: Info(labels[l], 1, FUNCTION)
  }

  lemma ContentsAre(file: seq<Byte>, l: Layout, code: seq<Byte>, data: seq<Byte>)
    requires At(file, l.textAt, code) && At(file, l.dataAt, data)
    ensures var s := SectionsOf(l, code, data);
      Contents(file, s, 1) == code && Contents(file, s, if |data| > 0 then 2 else 0) == data
  {
  }

  lemma AllReadable(file: seq<Byte>, table: nat, t: Table, labels: map<Text, nat>, wanted: Text -> bool)
    requires Means(t, labels, wanted, false) && GoodLabels(labels) && At(file, table + 4, t.strings)
    requires |file| < 0x1_0000_0000
    ensures Readable(file, table, t.symbols)
  {
    forall i | 0 <= i < |t.symbols| ensures SymOk(t.symbols[i]) && HasName(file, table, t.symbols[i])
      && t.symbols[i].section <= 1 {
      var s := t.symbols[i];
      assert Stored(s, t.strings);
      if |s.name| > 8 {
        AtInside(file, table + 4, t.strings, s.at - 4, s.name + [0]);
      }
      if i > 0 { assert Defined(t, s.name) <==> s.section == 1; }
    }
  }

  /** Round trip: the reader gives back the code, the data, and exactly the exported labels and _main with their
      offsets, short and long names alike, with or without relocations. */
  lemma ObjectReadsBack(code: seq<Byte>, data: seq<Byte>, exports: seq<Text>, labels: map<Text, nat>,
      undefined: seq<Text>, relocs: seq<Reloc>)
    requires GoodLabels(labels)
    requires |FileOf(code, data, TableOf(exports, labels, undefined), relocs)| < 0x1_0000_0000
    ensures Parse(FileOf(code, data, TableOf(exports, labels, undefined), relocs)) ==
      Some(Object(code, data, Wanted(exports, labels)))
  {
    var t := TableOf(exports, labels, undefined);
    var n, file := RelocCount(relocs, t.index), FileOf(code, data, t, relocs);
    var l := LayoutOf(code, data, n);
    TableMeans(exports, labels, undefined);
    PartsAt(file, l, code, data, t, relocs, n);
    hide FileOf, TableOf, LayoutOf, RelocCount, Parse, Laid, Means, Wanted, GoodLabels;
    FileReads(file, l, code, data, t, n, exports, labels);
  }

  lemma FileReads(file: seq<Byte>, l: Layout, code: seq<Byte>, data: seq<Byte>, t: Table, n: nat, exports: seq<Text>,
      labels: map<Text, nat>)
    requires Laid(file, l, code, data, t, n) && l == LayoutOf(code, data, n) && |file| < 0x1_0000_0000
    requires GoodLabels(labels)
    requires Means(t, labels, l => IsWanted(exports, l) || l == MAIN, false)
    ensures Parse(file) == Some(Object(code, data, Wanted(exports, labels)))
  {
    hide Header, Headers, At, SymTab, Means, Wanted, Collect, SymbolsAt, SectionsAt, SectionsOf, Contents, TextIndex,
      DataIndex, Read16, Read32;
    HeaderReads(file, l, |t.symbols|);
    SectionsRead(file, code, data, n);
    SectionIndexes(l, code, data);
    ContentsAre(file, l, code, data);
    AllReadable(file, l.symtab + 18 * |t.symbols|, t, labels, l => IsWanted(exports, l) || l == MAIN);
    SymbolsRead(file, l.symtab, t.symbols, 0, l.symtab + 18 * |t.symbols|, if |data| > 0 then 2 else 0);
    CollectStart(t.symbols);
    CollectIsWanted(t, exports, labels);
  }

  lemma CollectStart(symbols: seq<Sym>)
    ensures Collect(symbols[..0]) == map[]
  {
  }

  lemma CollectIsWanted(t: Table, exports: seq<Text>, labels: map<Text, nat>)
    requires Means(t, labels, l => IsWanted(exports, l) || l == MAIN, false)
    ensures Collect(t.symbols) == Wanted(exports, labels)
  {
    var c, w := Collect(t.symbols), Wanted(exports, labels);
    forall l ensures l in c <==> l in w
      ensures l in c ==> c[l] == w[l] {
      assert t.symbols[..|t.symbols|] == t.symbols;
      CollectIs(t, |t.symbols|, l);
    }
  }

  // ---------- the writing loops ----------

  class COFFObjectGenerator {
    var buffer: seq<Byte>
    var exports: seq<Text>
    var undefinedSymbols: seq<Text>
    var branchRelocations: seq<Reloc>

    constructor ()
      ensures buffer == [] && exports == [] && undefinedSymbols == [] && branchRelocations == []
    {
      buffer, exports, undefinedSymbols, branchRelocations := [], [], [], [];
    }

    method WriteBytes(bytes: seq<Byte>)
      modifies this`buffer
      ensures buffer == old(buffer) + bytes
    {
      var i := 0;
      while i < |bytes|
        invariant i <= |bytes| && buffer == old(buffer) + bytes[..i]
      {
        buffer := buffer + [bytes[i]];
        i := i + 1;
      }
      assert bytes[..i] == bytes;
    }

    method BuildSymbolTable(labels: map<Text, nat>) returns (t: Table)
      ensures t == TableOf(exports, labels, undefinedSymbols)
    {
      t := FIRST;
      var i := 0;
      while i < |exports|
        invariant i <= |exports| && t == AddExports(exports[..i], labels)
      {
        assert exports[..i + 1][..i] == exports[..i];
        t := AddLabel(AddLabel(t, USER + exports[i], labels), UNDERSCORE + exports[i], labels);
        i := i + 1;
      }
      assert exports[..i] == exports;
      t := AddLabel(t, MAIN, labels);
      ghost var defined := t;
      i := 0;
      while i < |undefinedSymbols|
        invariant i <= |undefinedSymbols| && t == AddUndefined(defined, undefinedSymbols[..i])
      {
        assert undefinedSymbols[..i + 1][..i] == undefinedSymbols[..i];
        t := Add(t, undefinedSymbols[i], 0, 0);
        i := i + 1;
      }
      assert undefinedSymbols[..i] == undefinedSymbols;
    }

    method WriteRelocations(index: map<Text, nat>)
      modifies this`buffer
      ensures buffer == old(buffer) + RelocBytes(branchRelocations, index)
    {
      hide LE;
      var i := 0;
      while i < |branchRelocations|
        invariant i <= |branchRelocations| && buffer == old(buffer) + RelocBytes(branchRelocations[..i], index)
      {
        var r := branchRelocations[i];
        assert branchRelocations[..i + 1][..i] == branchRelocations[..i];
        if r.symbol in index {
          WriteBytes(LE(r.offset, 4) + LE(index[r.symbol], 4) + LE(REL32, 2));
        }
        i := i + 1;
      }
      assert branchRelocations[..i] == branchRelocations;
    }

    method WriteSymbols(symbols: seq<Sym>)
      modifies this`buffer
      ensures buffer == old(buffer) + SymTab(symbols)
    {
      hide SymBytes;
      var i := 0;
      while i < |symbols|
        invariant i <= |symbols| && buffer == old(buffer) + SymTab(symbols[..i])
      {
        assert symbols[..i + 1][..i] == symbols[..i];
        WriteBytes(SymBytes(symbols[i]));
        i := i + 1;
      }
      assert symbols[..i] == symbols;
    }

    /** On an empty buffer. */
    method Generate(code: seq<Byte>, data: seq<Byte>, labels: map<Text, nat>)
      requires buffer == []
      modifies this`buffer
      ensures buffer == FileOf(code, data, TableOf(exports, labels, undefinedSymbols), branchRelocations)
    {
      var t := BuildSymbolTable(labels);
      hide TableOf, Header, Headers, RelocBytes, SymTab, LE;
      var n := RelocCount(branchRelocations, t.index);
      var l := LayoutOf(code, data, n);
      WriteBytes(Header(l, |t.symbols|));
      WriteBytes(Headers(l, code, data, n));
      WriteBytes(code);
      WriteBytes(data);
      WriteRelocations(t.index);
      WriteSymbols(t.symbols);
      WriteBytes(LE(|t.strings| + 4, 4));
      WriteBytes(t.strings);
    }
  }
}
