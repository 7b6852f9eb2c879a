/** Windows object files of any origin, described by sections 3 to 5 of the PE/COFF specification, and what the reader
    (binary/static_linker.js) makes of them. */
module CoffFiles {
  import opened Basics
  import opened CoffObject

  // ---------- what an object file is ----------

  /** A section header; what the reader does not look at may be anything. */
  datatype Part = Part(name: Text, size: nat, at: nat)

  /** A symbol with `aux` auxiliary records behind it. Its name is in the record if `at` is 0, and else there in the
      string table. A section number below 0 counts as an unsigned one. */
  datatype Entry = Entry(name: Text, value: nat, section: nat, kind: nat, class_: nat, aux: nat, at: nat)

  predicate HeaderAt(file: seq<Byte>, off: nat, p: Part) {
    && |p.name| <= 8 && NoNul(p.name) && p.size < TWO32 && p.at < TWO32
    && At(file, off, p.name + Zeros(8 - |p.name|)) && off + 40 <= |file|
    && At(file, off + 16, LE(p.size, 4)) && At(file, off + 20, LE(p.at, 4))
  }

  predicate NameIsAt(file: seq<Byte>, off: nat, table: nat, e: Entry) {
    && NoNul(e.name)
    && if e.at == 0 then |e.name| <= 8 && At(file, off, e.name + Zeros(8 - |e.name|))
       else 4 <= e.at < TWO32 && At(file, off, [0, 0, 0, 0] + LE(e.at, 4)) && At(file, table + e.at, e.name + [0])
  }

  /** The name of a symbol that is not external, or in no section, may be anything. */
  predicate EntryAt(file: seq<Byte>, off: nat, table: nat, e: Entry) {
    && (e.class_ == 2 && e.section > 0 ==> NameIsAt(file, off, table, e))
    && e.value < TWO32 && e.section < 65536 && e.kind < 65536 && e.class_ < 256 && e.aux < 256
    && At(file, off + 8, LE(e.value, 4)) && At(file, off + 12, LE(e.section, 2)) && At(file, off + 14, LE(e.kind, 2))
    && At(file, off + 16, [e.class_, e.aux])
  }

  /** The number of records in front of symbol j. */
  function Records(es: seq<Entry>, j: nat): (n: nat)
    requires j <= |es|
  {
    if j == 0 then 0 else Records(es, j - 1) + 1 + es[j - 1].aux
  }

  /** An object for AMD64 with an optional header of `opt` bytes, these sections, and these symbols from `symtab` on. */
  predicate IsHeaded(file: seq<Byte>, opt: nat, ps: seq<Part>, symtab: nat, records: nat) {
    && opt < 65536 && |ps| < 65536 && symtab < TWO32 && records < TWO32
    && At(file, 0, [0x64, 0x86]) && At(file, 2, LE(|ps|, 2))
    && At(file, 8, LE(symtab, 4)) && At(file, 12, LE(records, 4)) && At(file, 16, LE(opt, 2))
  }

  predicate EntriesAt(file: seq<Byte>, symtab: nat, table: nat, es: seq<Entry>) {
    forall j :: 0 <= j < |es| ==> EntryAt(file, symtab + 18 * Records(es, j), table, es[j])
  }

  predicate IsObject(file: seq<Byte>, opt: nat, ps: seq<Part>, symtab: nat, es: seq<Entry>) {
    && IsHeaded(file, opt, ps, symtab, Records(es, |es|))
    && (forall k :: 0 <= k < |ps| ==> HeaderAt(file, 20 + opt + 40 * k, ps[k]))
    && EntriesAt(file, symtab, symtab + 18 * Records(es, |es|), es)
  }

  predicate Starts(p: Part, prefix: string) {
    |prefix| <= |p.name| && p.name[..|prefix|] == Ascii(prefix)
  }

  /** k is the number, from 1 on, of the last section whose name starts like that, or 0 if there is none. */
  predicate IsLast(ps: seq<Part>, prefix: string, k: nat) {
    && k <= |ps| && (k > 0 ==> Starts(ps[k - 1], prefix)) && (forall i :: k <= i < |ps| ==> !Starts(ps[i], prefix))
  }

  /** These bytes are the contents of section k. */
  predicate IsContents(file: seq<Byte>, ps: seq<Part>, k: nat, bytes: seq<Byte>)
    requires k <= |ps|
  {
    if k == 0 then bytes == [] else At(file, ps[k - 1].at, bytes) && |bytes| == ps[k - 1].size
  }

  predicate Inside(file: seq<Byte>, ps: seq<Part>, k: nat)
    requires k <= |ps|
  {
    k > 0 ==> ps[k - 1].at + ps[k - 1].size <= |file|
  }

  /** The numbers of the last text and the last data section, whose contents are in the file. */
  predicate Found(file: seq<Byte>, ps: seq<Part>, text: nat, data: nat) {
    && IsLast(ps, ".text", text) && IsLast(ps, ".data", data) && Inside(file, ps, text) && Inside(file, ps, data)
  }

  /** The symbol names a byte of its section. */
  predicate Names(file: seq<Byte>, ps: seq<Part>, e: Entry, b: Byte) {
    && 0 < e.section <= |ps| && e.value < ps[e.section - 1].size
    && ps[e.section - 1].at + e.value < |file| && file[ps[e.section - 1].at + e.value] == b
  }

  /** An external symbol of one of two sections. */
  predicate IsGlobal(e: Entry, text: nat, data: nat) {
    e.class_ == 2 && e.section > 0 && (e.section == text || e.section == data)
  }

  /** Symbol i is the last global one of its name among the first j. */
  ghost predicate IsLastGlobal(es: seq<Entry>, j: nat, text: nat, data: nat, i: int)
    requires j <= |es|
  {
    && 0 <= i < j && IsGlobal(es[i], text, data)
    && forall k :: i < k < j && IsGlobal(es[k], text, data) ==> es[k].name != es[i].name
  }

  function InfoOf(e: Entry, text: nat): Info {
    Info(e.value, if e.section == text then 1 else 2, e.kind)
  }

  /** Of the first j symbols, `symbols` has the global ones, by name, the last one of each name. */
  ghost predicate HasGlobals(es: seq<Entry>, j: nat, text: nat, data: nat, symbols: map<Text, Info>)
    requires j <= |es|
  {
    && (forall l :: l in symbols ==> exists i :: 0 <= i < j && es[i].name == l && IsGlobal(es[i], text, data))
    && (forall i :: 0 <= i < j && IsGlobal(es[i], text, data) ==> es[i].name in symbols)
    && (forall i :: IsLastGlobal(es, j, text, data, i) ==> symbols[es[i].name] == InfoOf(es[i], text))
  }

  // ---------- sections ----------

  lemma {:induction false} SectionNth(file: seq<Byte>, off: nat, n: nat, k: nat)
    requires k < n
    ensures SectionsAt(file, off, n)[k] ==
      Section(ReadString(file, off + 40 * k, 8), Read32(file, off + 40 * k + 16), Read32(file, off + 40 * k + 20))
    decreases n
  {
    hide ReadString, Read32;
    if k > 0 { SectionNth(file, off + 40, n - 1, k - 1); }
  }

  lemma PartReads(file: seq<Byte>, off: nat, p: Part)
    requires HeaderAt(file, off, p)
    ensures ReadString(file, off, 8) == p.name && Read32(file, off + 16) == p.size && Read32(file, off + 20) == p.at
  {
    ReadsName(file, off, p.name, 8);
    Reads32(file, off + 16, p.size);
    Reads32(file, off + 20, p.at);
  }

  function Sections(ps: seq<Part>): (s: seq<Section>)
    ensures |s| == |ps|
  {
    seq(|ps|, k requires 0 <= k < |ps| => Section(ps[k].name, ps[k].size, ps[k].at))
  }

  lemma PartsRead(file: seq<Byte>, off: nat, ps: seq<Part>)
    requires forall k :: 0 <= k < |ps| ==> HeaderAt(file, off + 40 * k, ps[k])
    ensures SectionsAt(file, off, |ps|) == Sections(ps)
  {
    hide HeaderAt, ReadString, Read32, SectionsAt;
    forall k | 0 <= k < |ps| ensures SectionsAt(file, off, |ps|)[k] == Sections(ps)[k] {
      SectionNth(file, off, |ps|, k);
      PartReads(file, off + 40 * k, ps[k]);
    }
  }

  lemma StartsIs(p: Part)
    ensures Starts(p, ".text") <==> Named(Section(p.name, p.size, p.at), DOT_TEXT)
    ensures Starts(p, ".data") <==> Named(Section(p.name, p.size, p.at), DOT_DATA)
    ensures !(Starts(p, ".text") && Starts(p, ".data"))
  {
    assert Ascii(".text") == DOT_TEXT && Ascii(".data") == DOT_DATA;
    assert DOT_TEXT[1] != DOT_DATA[1];
    assert |p.name| >= 5 ==> p.name[..5][1] == p.name[1];
  }

  lemma SectionsRead(file: seq<Byte>, ps: seq<Part>, text: nat, data: nat)
    requires Found(file, ps, text, data)
    ensures TextIndex(Sections(ps)) == text <= |ps| && DataIndex(Sections(ps)) == data <= |ps|
    ensures IsContents(file, ps, text, Contents(file, Sections(ps), text))
    ensures IsContents(file, ps, data, Contents(file, Sections(ps), data))
  {
    LastText(ps, text);
    LastData(ps, data);
    hide IsLast, Sections;
    ContentsRead(file, ps, text);
    ContentsRead(file, ps, data);
  }

  lemma {:induction false} LastText(ps: seq<Part>, text: nat)
    requires IsLast(ps, ".text", text)
    ensures TextIndex(Sections(ps)) == text
    decreases |ps|
  {
    hide Named, Starts;
    if ps != [] {
      var n := |ps| - 1;
      StartsIs(ps[n]);
      assert Sections(ps)[..n] == Sections(ps[..n]);
      if text <= n { LastText(ps[..n], text); }
    }
  }

  lemma {:induction false} LastData(ps: seq<Part>, data: nat)
    requires IsLast(ps, ".data", data)
    ensures DataIndex(Sections(ps)) == data
    decreases |ps|
  {
    hide Named, Starts;
    if ps != [] {
      var n := |ps| - 1;
      StartsIs(ps[n]);
      assert Sections(ps)[..n] == Sections(ps[..n]);
      if data <= n { LastData(ps[..n], data); }
    }
  }

  lemma ContentsRead(file: seq<Byte>, ps: seq<Part>, k: nat)
    requires k <= |ps| && Inside(file, ps, k)
    ensures IsContents(file, ps, k, Contents(file, Sections(ps), k))
  {
  }

  // ---------- symbols ----------

  lemma NameOfEntry(file: seq<Byte>, off: nat, table: nat, e: Entry)
    requires NameIsAt(file, off, table, e)
    ensures NameAt(file, off, table) == e.name
  {
    if e.at == 0 {
      ReadsName(file, off, e.name, 8);
      InRecord(file, off, e.name);
    } else {
      AtParts(file, off, [0, 0, 0, 0], LE(e.at, 4));
      ZeroReads(file, off);
      Reads32(file, off + 4, e.at);
      ReadsLong(file, table + e.at, e.name);
    }
    hide LE, At, Read32;
  }

  lemma ZeroReads(file: seq<Byte>, off: nat)
    requires At(file, off, [0, 0, 0, 0])
    ensures Read32(file, off) == 0
  {
    var z := [0, 0, 0, 0];
    AtIndex(file, off, z, 0);
    AtIndex(file, off, z, 1);
    AtIndex(file, off, z, 2);
    AtIndex(file, off, z, 3);
  }

  /** A record that starts with zeros has the empty name, unless it refers to the string table. */
  lemma InRecord(file: seq<Byte>, off: nat, name: Text)
    requires |name| <= 8 && NoNul(name) && At(file, off, name + Zeros(8 - |name|))
    ensures if name == [] then Read32(file, off) == Read32(file, off + 4) == 0 else Read32(file, off) != 0
  {
    if name == [] {
      assert name + Zeros(8) == [0, 0, 0, 0] + [0, 0, 0, 0];
      AtParts(file, off, [0, 0, 0, 0], [0, 0, 0, 0]);
      ZeroReads(file, off);
      ZeroReads(file, off + 4);
    } else {
      AtIndex(file, off, name + Zeros(8 - |name|), 0);
    }
  }

  lemma NumbersOfEntry(file: seq<Byte>, off: nat, table: nat, e: Entry)
    requires EntryAt(file, off, table, e)
    ensures Read32(file, off + 8) == e.value && Read16(file, off + 12) == e.section && Read16(file, off + 14) == e.kind
    ensures B(file, off + 16) == e.class_ && B(file, off + 17) == e.aux
  {
    hide NameIsAt, LE, Read32, Read16;
    Reads32(file, off + 8, e.value);
    Reads16(file, off + 12, e.section);
    Reads16(file, off + 14, e.kind);
    AtIndex(file, off + 16, [e.class_, e.aux], 0);
    AtIndex(file, off + 16, [e.class_, e.aux], 1);
  }

  lemma EntryReads(file: seq<Byte>, off: nat, table: nat, e: Entry, text: nat, data: nat, soFar: map<Text, Info>)
    requires EntryAt(file, off, table, e)
    ensures B(file, off + 17) == e.aux
    ensures Keep(file, off, table, text, data, soFar) == After(e, text, data, soFar)
  {
    NumbersOfEntry(file, off, table, e);
    if e.class_ == 2 && e.section > 0 { NameOfEntry(file, off, table, e); }
    hide EntryAt, NameAt, Read32, Read16, B;
  }

  function After(e: Entry, text: nat, data: nat, before: map<Text, Info>): map<Text, Info> {
    if IsGlobal(e, text, data) then before[e.name := InfoOf(e, text)] else before
  }

  lemma OneMoreGlobal(es: seq<Entry>, j: nat, text: nat, data: nat, before: map<Text, Info>)
    requires j < |es| && HasGlobals(es, j, text, data, before)
    ensures HasGlobals(es, j + 1, text, data, After(es[j], text, data, before))
  {
    hide IsGlobal, InfoOf;
    var after := After(es[j], text, data, before);
    forall l | l in after ensures exists i :: 0 <= i < j + 1 && es[i].name == l && IsGlobal(es[i], text, data) {
      if l in before {
        var i :| 0 <= i < j && es[i].name == l && IsGlobal(es[i], text, data);
      } else {
        assert es[j].name == l;
      }
    }
    forall i | IsLastGlobal(es, j + 1, text, data, i) ensures after[es[i].name] == InfoOf(es[i], text) {
      if i < j { assert IsLastGlobal(es, j, text, data, i); }
    }
  }

  lemma OneEntry(es: seq<Entry>, j: nat)
    requires j < |es|
    ensures Records(es, j + 1) == Records(es, j) + 1 + es[j].aux
  {
  }

  lemma EntryOfIndex(file: seq<Byte>, symtab: nat, table: nat, es: seq<Entry>, j: nat)
    requires j < |es| && EntriesAt(file, symtab, table, es)
    ensures EntryAt(file, symtab + 18 * Records(es, j), table, es[j])
  {
    hide EntryAt, Records;
  }

  lemma OneRound(file: seq<Byte>, off: nat, i: nat, n: nat, table: nat, text: nat, data: nat, soFar: map<Text, Info>)
    requires i < n
    ensures var aux := B(file, off + 17);
      SymbolsAt(file, off, i, n, table, text, data, soFar) ==
      SymbolsAt(file, off + 18 + 18 * aux, i + 1 + aux, n, table, text, data,
        Keep(file, off, table, text, data, soFar))
  {
    hide Keep, B;
  }

  /** The reading loop comes from symbol j to symbol j + 1. */
  lemma NextSymbol(file: seq<Byte>, symtab: nat, table: nat, es: seq<Entry>, j: nat, text: nat, data: nat,
      soFar: map<Text, Info>)
    requires j < |es| && EntriesAt(file, symtab, table, es)
    ensures var i, k, n := Records(es, j), Records(es, j + 1), Records(es, |es|);
      SymbolsAt(file, symtab + 18 * i, i, n, table, text, data, soFar) ==
      SymbolsAt(file, symtab + 18 * k, k, n, table, text, data, After(es[j], text, data, soFar))
  {
    hide *;
    var off, n := symtab + 18 * Records(es, j), Records(es, |es|);
    OneEntry(es, j);
    EntryOfIndex(file, symtab, table, es, j);
    RecordsGrow(es, j);
    EntryReads(file, off, table, es[j], text, data, soFar);
    OneRound(file, off, Records(es, j), n, table, text, data, soFar);
  }

  lemma NoMoreSymbols(file: seq<Byte>, symtab: nat, table: nat, es: seq<Entry>, text: nat, data: nat,
      soFar: map<Text, Info>)
    ensures var n := Records(es, |es|); SymbolsAt(file, symtab + 18 * n, n, n, table, text, data, soFar) == soFar
  {
  }

  lemma {:induction false} EntriesRead(file: seq<Byte>, symtab: nat, table: nat, es: seq<Entry>, j: nat, text: nat,
      data: nat, soFar: map<Text, Info>)
    requires j <= |es| && HasGlobals(es, j, text, data, soFar) && EntriesAt(file, symtab, table, es)
    ensures HasGlobals(es, |es|, text, data,
      SymbolsAt(file, symtab + 18 * Records(es, j), Records(es, j), Records(es, |es|), table, text, data, soFar))
    decreases |es| - j
  {
    if j < |es| {
      hide *;
      NextSymbol(file, symtab, table, es, j, text, data, soFar);
      OneMoreGlobal(es, j, text, data, soFar);
      EntriesRead(file, symtab, table, es, j + 1, text, data, After(es[j], text, data, soFar));
    } else {
      NoMoreSymbols(file, symtab, table, es, text, data, soFar);
      hide *;
    }
  }

  lemma {:induction false} RecordsGrow(es: seq<Entry>, j: nat)
    requires j <= |es|
    ensures if j < |es| then Records(es, j) < Records(es, |es|) else Records(es, j) == Records(es, |es|)
    decreases |es| - j
  {
    if j < |es| { RecordsGrow(es, j + 1); }
  }

  // ---------- whole files ----------

  lemma HeadReads(file: seq<Byte>, opt: nat, ps: seq<Part>, symtab: nat, records: nat)
    requires IsHeaded(file, opt, ps, symtab, records)
    ensures Read16(file, 0) == MACHINE && Read16(file, 2) == |ps| && Read32(file, 8) == symtab
    ensures Read32(file, 12) == records && Read16(file, 16) == opt
  {
    AtIndex(file, 0, [0x64, 0x86], 0);
    AtIndex(file, 0, [0x64, 0x86], 1);
    Reads16(file, 2, |ps|);
    Reads32(file, 8, symtab);
    Reads32(file, 12, records);
    Reads16(file, 16, opt);
    hide LE, At, Read32;
  }

  /** Of every object file the reader takes the contents of the last text and the last data section, and exactly the
      external symbols of these two, whatever auxiliary records there are; of two with one name the later one. */
  lemma ForeignReads(file: seq<Byte>, opt: nat, ps: seq<Part>, symtab: nat, es: seq<Entry>, text: nat, data: nat)
    requires IsObject(file, opt, ps, symtab, es) && Found(file, ps, text, data)
    ensures Parse(file).Some?
    ensures var o := Parse(file).value;
      && IsContents(file, ps, text, o.code) && IsContents(file, ps, data, o.data)
      && HasGlobals(es, |es|, text, data, o.symbols)
  {
    hide *;
    var records := Records(es, |es|);
    ObjectHas(file, opt, ps, symtab, es);
    HeadReads(file, opt, ps, symtab, records);
    ParseIs(file, opt, ps, symtab, records);
    PartsRead(file, 20 + opt, ps);
    SectionsRead(file, ps, text, data);
    NoGlobalsYet(es, text, data);
    EntriesRead(file, symtab, symtab + 18 * records, es, 0, text, data, map[]);
  }

  lemma ObjectHas(file: seq<Byte>, opt: nat, ps: seq<Part>, symtab: nat, es: seq<Entry>)
    requires IsObject(file, opt, ps, symtab, es)
    ensures IsHeaded(file, opt, ps, symtab, Records(es, |es|))
    ensures forall k :: 0 <= k < |ps| ==> HeaderAt(file, 20 + opt + 40 * k, ps[k])
    ensures EntriesAt(file, symtab, symtab + 18 * Records(es, |es|), es) && Records(es, 0) == 0
  {
    hide IsHeaded, HeaderAt, EntriesAt;
  }

  lemma ParseIs(file: seq<Byte>, opt: nat, ps: seq<Part>, symtab: nat, records: nat)
    requires Read16(file, 0) == MACHINE && Read16(file, 2) == |ps| && Read32(file, 8) == symtab
    requires Read32(file, 12) == records && Read16(file, 16) == opt
    ensures var s := SectionsAt(file, 20 + opt, |ps|);
      Parse(file) == Some(Object(Contents(file, s, TextIndex(s)), Contents(file, s, DataIndex(s)),
        SymbolsAt(file, symtab, 0, records, symtab + 18 * records, TextIndex(s), DataIndex(s), map[])))
  {
    hide SectionsAt, SymbolsAt, Contents, TextIndex, DataIndex, Read32, Read16;
  }

  lemma NoGlobalsYet(es: seq<Entry>, text: nat, data: nat)
    ensures HasGlobals(es, 0, text, data, map[])
  {
  }

  /** A file for any other machine is refused. */
  lemma OtherMachine(file: seq<Byte>)
    requires |file| >= 2
    ensures Parse(file).None? <==> file[..2] != [0x64, 0x86]
  {
    hide SectionsAt, SymbolsAt, Contents, TextIndex, DataIndex, Read32;
    var lo: int, hi: int := file[0], file[1];
    assert file[..2] == [file[0], file[1]];
  }

  // ---------- the files of the writer ----------

  function EntriesOf(symbols: seq<Sym>): (es: seq<Entry>)
    ensures |es| == |symbols|
  {
    seq(|symbols|, i requires 0 <= i < |symbols| => EntryOf(symbols[i]))
  }

  function EntryOf(s: Sym): Entry {
    Entry(s.name, s.value, s.section, s.kind, s.class_, 0, s.at)
  }

  function PartsOf(l: Layout, code: seq<Byte>, data: seq<Byte>): seq<Part> {
    [Part(Ascii(".text"), |code|, l.textAt)] + if |data| > 0 then [Part(Ascii(".data"), |data|, l.dataAt)] else []
  }

  lemma {:induction false} NoAuxiliaries(symbols: seq<Sym>, j: nat)
    requires j <= |symbols|
    ensures Records(EntriesOf(symbols), j) == j
  {
    if j > 0 { NoAuxiliaries(symbols, j - 1); }
  }

  lemma HeadIs(file: seq<Byte>, l: Layout, nsyms: nat)
    requires At(file, 0, Header(l, nsyms))
    ensures At(file, 0, [0x64, 0x86]) && At(file, 2, LE(l.sections, 2)) && At(file, 8, LE(l.symtab, 4))
    ensures At(file, 12, LE(nsyms, 4)) && At(file, 16, LE(0, 2))
  {
    MachineIs();
    hide LE;
    var a, b, c, d, e, f, g := LE(MACHINE, 2), LE(l.sections, 2), LE(0, 4), LE(l.symtab, 4), LE(nsyms, 4), LE(0, 2),
      LE(0, 2);
    AtParts(file, 0, a + b + c + d + e + f, g);
    AtParts(file, 0, a + b + c + d + e, f);
    AtParts(file, 0, a + b + c + d, e);
    AtParts(file, 0, a + b + c, d);
    AtParts(file, 0, a + b, c);
    AtParts(file, 0, a, b);
  }

  lemma MachineIs()
    ensures LE(MACHINE, 2) == [0x64, 0x86]
  {
    assert LE(MACHINE, 2) == [MACHINE % 256] + LE(MACHINE / 256, 1);
    assert LE(MACHINE / 256, 1) == [MACHINE / 256 % 256] + [];
  }

  lemma SectionIs(file: seq<Byte>, off: nat, name: Text, size: nat, at: nat, relocAt: nat, relocs: nat, flags: nat)
    requires |name| <= 8 && NoNul(name) && size < TWO32 && at < TWO32
    requires At(file, off, SectionHeader(name, size, at, relocAt, relocs, flags))
    ensures HeaderAt(file, off, Part(name, size, at))
  {
    hide LE;
    var z, rest := LE(0, 4) + LE(0, 4), LE(relocAt, 4) + LE(0, 4) + LE(relocs, 2) + LE(0, 2) + LE(flags, 4);
    AtParts(file, off, NameField(name) + z + LE(size, 4) + LE(at, 4), rest);
    AtParts(file, off, NameField(name) + z + LE(size, 4), LE(at, 4));
    AtParts(file, off, NameField(name) + z, LE(size, 4));
    AtParts(file, off, NameField(name), z);
  }

  function TextHeader(l: Layout, code: seq<Byte>, relocs: nat): seq<Byte> {
    SectionHeader(DOT_TEXT, |code|, l.textAt, if relocs > 0 then l.relocAt else 0, relocs, TEXT_FLAGS)
  }

  function DataHeader(l: Layout, data: seq<Byte>): seq<Byte> {
    if |data| > 0 then SectionHeader(DOT_DATA, |data|, l.dataAt, 0, 0, DATA_FLAGS) else []
  }

  lemma HeadersAt(file: seq<Byte>, l: Layout, code: seq<Byte>, data: seq<Byte>, relocs: nat)
    requires At(file, 20, Headers(l, code, data, relocs))
    ensures At(file, 20, TextHeader(l, code, relocs)) && At(file, 60, DataHeader(l, data))
  {
    assert Headers(l, code, data, relocs) == TextHeader(l, code, relocs) + DataHeader(l, data);
    assert |TextHeader(l, code, relocs)| == 40;
    hide *;
    AtParts(file, 20, TextHeader(l, code, relocs), DataHeader(l, data));
  }

  lemma TextSection(file: seq<Byte>, l: Layout, code: seq<Byte>, relocs: nat)
    requires At(file, 20, TextHeader(l, code, relocs)) && |code| < TWO32 && l.textAt < TWO32
    ensures HeaderAt(file, 20, Part(Ascii(".text"), |code|, l.textAt))
  {
    hide At, SectionHeader, HeaderAt, Ascii;
    SectionNames();
    SectionIs(file, 20, DOT_TEXT, |code|, l.textAt, if relocs > 0 then l.relocAt else 0, relocs, TEXT_FLAGS);
  }

  lemma DataSection(file: seq<Byte>, l: Layout, data: seq<Byte>)
    requires At(file, 60, DataHeader(l, data)) && 0 < |data| < TWO32 && l.dataAt < TWO32
    ensures HeaderAt(file, 60, Part(Ascii(".data"), |data|, l.dataAt))
  {
    hide At, SectionHeader, HeaderAt, Ascii;
    SectionNames();
    SectionIs(file, 60, DOT_DATA, |data|, l.dataAt, 0, 0, DATA_FLAGS);
  }

  lemma SectionsAre(file: seq<Byte>, l: Layout, code: seq<Byte>, data: seq<Byte>, relocs: nat)
    requires At(file, 20, Headers(l, code, data, relocs)) && |code| < TWO32 && |data| < TWO32
    requires l.textAt < TWO32 && l.dataAt < TWO32
    ensures forall k :: 0 <= k < |PartsOf(l, code, data)| ==> HeaderAt(file, 20 + 40 * k, PartsOf(l, code, data)[k])
  {
    hide *;
    HeadersAt(file, l, code, data, relocs);
    TextSection(file, l, code, relocs);
    if |data| > 0 { DataSection(file, l, data); }
    TwoHeaders(file, l, code, data);
  }

  lemma SectionNames()
    ensures Ascii(".text") == DOT_TEXT && Ascii(".data") == DOT_DATA && NoNul(DOT_TEXT) && NoNul(DOT_DATA)
  {
  }

  lemma TwoHeaders(file: seq<Byte>, l: Layout, code: seq<Byte>, data: seq<Byte>)
    requires HeaderAt(file, 20, Part(Ascii(".text"), |code|, l.textAt))
    requires |data| > 0 ==> HeaderAt(file, 60, Part(Ascii(".data"), |data|, l.dataAt))
    ensures forall k :: 0 <= k < |PartsOf(l, code, data)| ==> HeaderAt(file, 20 + 40 * k, PartsOf(l, code, data)[k])
  {
    hide HeaderAt, Ascii;
  }

  lemma NoWord()
    ensures LE(0, 4) == [0, 0, 0, 0]
  {
    assert LE(0, 4) == [0] + LE(0, 3) && LE(0, 3) == [0] + LE(0, 2) && LE(0, 2) == [0] + LE(0, 1);
    assert LE(0, 1) == [0] + [];
  }

  lemma EntryIs(file: seq<Byte>, off: nat, table: nat, s: Sym)
    requires At(file, off, SymBytes(s)) && SymOk(s) && HasName(file, table, s) && (|s.name| <= 8 ==> s.at == 0)
    ensures EntryAt(file, off, table, EntryOf(s))
  {
    FieldsOf(file, off, s);
    NoWord();
    hide LE, SymBytes, At;
  }

  /** What the writer makes is an object file, whose sections are the code and the data and whose symbols are those of
      the table. */
  lemma WrittenIsObject(code: seq<Byte>, data: seq<Byte>, exports: seq<Text>, labels: map<Text, nat>,
      undefined: seq<Text>, relocs: seq<Reloc>)
    requires GoodLabels(labels)
    requires |FileOf(code, data, TableOf(exports, labels, undefined), relocs)| < TWO32
    ensures var t := TableOf(exports, labels, undefined);
      var l := LayoutOf(code, data, RelocCount(relocs, t.index));
      IsObject(FileOf(code, data, t, relocs), 0, PartsOf(l, code, data), l.symtab, EntriesOf(t.symbols))
  {
    var t := TableOf(exports, labels, undefined);
    var n, file := RelocCount(relocs, t.index), FileOf(code, data, t, relocs);
    var l := LayoutOf(code, data, n);
    TableMeans(exports, labels, undefined);
    PartsAt(file, l, code, data, t, relocs, n);
    hide FileOf, TableOf, RelocCount, LayoutOf, IsObject, Laid, Means, GoodLabels;
    LaidIsObject(file, l, code, data, t, n, exports, labels);
  }

  lemma LaidIsObject(file: seq<Byte>, l: Layout, code: seq<Byte>, data: seq<Byte>, t: Table, n: nat,
      exports: seq<Text>, labels: map<Text, nat>)
    requires Laid(file, l, code, data, t, n) && l == LayoutOf(code, data, n) && |file| < TWO32 && GoodLabels(labels)
    requires Means(t, labels, l => IsWanted(exports, l) || l == MAIN, false)
    ensures IsObject(file, 0, PartsOf(l, code, data), l.symtab, EntriesOf(t.symbols))
  {
    hide Header, Headers, At, SymTab, HeaderAt, EntriesAt;
    var es, m, table := EntriesOf(t.symbols), |t.symbols|, l.symtab + 18 * |t.symbols|;
    HeadIs(file, l, m);
    SectionsAre(file, l, code, data, n);
    NoAuxiliaries(t.symbols, m);
    AllReadable(file, table, t, labels, l => IsWanted(exports, l) || l == MAIN);
    hide Means;
    EntriesAre(file, l.symtab, table, t);
    hide LE, Records;
  }

  lemma EntriesAre(file: seq<Byte>, symtab: nat, table: nat, t: Table)
    requires At(file, symtab, SymTab(t.symbols)) && Readable(file, table, t.symbols) && Sane(t)
    ensures EntriesAt(file, symtab, table, EntriesOf(t.symbols))
  {
    hide At, SymTab, SymBytes, EntryAt, SymOk, HasName, Records;
    var es := EntriesOf(t.symbols);
    forall j | 0 <= j < |es| ensures EntryAt(file, symtab + 18 * Records(es, j), table, es[j]) {
      NoAuxiliaries(t.symbols, j);
      SymTabAt(file, symtab, t.symbols, j);
      assert Stored(t.symbols[j], t.strings);
      EntryIs(file, symtab + 18 * j, table, t.symbols[j]);
    }
  }
}
