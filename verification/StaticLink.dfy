/** The static linker (binary/static_linker.js): libraries put one behind the other, their symbols rebased. */
module StaticLink {
  import opened Basics
  import opened CoffObject
  import CoffFiles

  function CodeOf(libs: seq<Object>): seq<Byte> {
    if libs == [] then [] else CodeOf(libs[..|libs| - 1]) + libs[|libs| - 1].code
  }

  function DataOf(libs: seq<Object>): seq<Byte> {
    if libs == [] then [] else DataOf(libs[..|libs| - 1]) + libs[|libs| - 1].data
  }

  /** Where a symbol of library k comes to be, in the linked code or the linked data. */
  function Rebased(libs: seq<Object>, k: nat, i: Info): nat
    requires k < |libs|
  {
    (if i.section == 1 then |CodeOf(libs[..k])| else |DataOf(libs[..k])|) + i.value
  }

  predicate Has(lib: Object, name: Text) {
    name in lib.symbols && (lib.symbols[name].section == 1 || lib.symbols[name].section == 2)
  }

  /** The last library that has a name, or -1. */
  function Owner(libs: seq<Object>, name: Text): (k: int)
    ensures -1 <= k < |libs|
    ensures k >= 0 ==> Has(libs[k], name)
    ensures forall j :: k < j < |libs| ==> !Has(libs[j], name)
  {
    if libs == [] then -1
    else if Has(libs[|libs| - 1], name) then |libs| - 1
    else Owner(libs[..|libs| - 1], name)
  }

  /** Every name some library has, at its place in the last library that has it. */
  ghost predicate Linked(libs: seq<Object>, symbols: map<Text, nat>) {
    forall name :: (name in symbols <==> Owner(libs, name) >= 0)
      && (name in symbols ==> symbols[name] == Rebased(libs, Owner(libs, name), libs[Owner(libs, name)].symbols[name]))
  }

  class StaticLinker {
    var libraries: seq<Object>

    constructor (libraries: seq<Object>)
      ensures this.libraries == libraries
    {
      this.libraries := libraries;
    }

    method PlaceSymbols(lib: Object, codeOffset: nat, dataOffset: nat, before: map<Text, nat>)
        returns (offsets: map<Text, nat>)
      ensures forall name :: name in offsets <==> name in before || Has(lib, name)
      ensures forall name :: Has(lib, name) ==>
        offsets[name] == (if lib.symbols[name].section == 1 then codeOffset else dataOffset) + lib.symbols[name].value
      ensures forall name :: name in before && !Has(lib, name) ==> offsets[name] == before[name]
    {
      offsets := before;
      var todo := lib.symbols.Keys;
      while todo != {}
        invariant todo <= lib.symbols.Keys
        invariant forall name :: name in offsets <==> name in before || (Has(lib, name) && name !in todo)
        invariant forall name :: Has(lib, name) && name !in todo ==>
          offsets[name] == (if lib.symbols[name].section == 1 then codeOffset else dataOffset) + lib.symbols[name].value
        invariant forall name :: name in before && (!Has(lib, name) || name in todo) ==> offsets[name] == before[name]
        decreases |todo|
      {
        var name :| name in todo;
        var sym := lib.symbols[name];
        if sym.section == 1 {
          offsets := offsets[name := codeOffset + sym.value];
        } else if sym.section == 2 {
          offsets := offsets[name := dataOffset + sym.value];
        }
        todo := todo - {name};
      }
    }

    method GetLinkedCode() returns (code: seq<Byte>, data: seq<Byte>, symbols: map<Text, nat>)
      ensures code == CodeOf(libraries) && data == DataOf(libraries) && Linked(libraries, symbols)
    {
      code, data, symbols := [], [], map[];
      var i := 0;
      while i < |libraries|
        invariant i <= |libraries| && code == CodeOf(libraries[..i]) && data == DataOf(libraries[..i])
        invariant Linked(libraries[..i], symbols)
      {
        var lib := libraries[i];
        var before := symbols;
        symbols := PlaceSymbols(lib, |code|, |data|, before);
        OneMore(libraries, i, before, symbols);
        assert libraries[..i + 1][..i] == libraries[..i];
        code := code + lib.code;
        data := data + lib.data;
        i := i + 1;
      }
      assert libraries[..i] == libraries;
    }
  }

  lemma OneMore(libs: seq<Object>, i: nat, before: map<Text, nat>, after: map<Text, nat>)
    requires i < |libs| && Linked(libs[..i], before)
    requires forall name :: name in after <==> name in before || Has(libs[i], name)
    requires forall name :: Has(libs[i], name) ==> after[name] == Rebased(libs, i, libs[i].symbols[name])
    requires forall name :: name in before && !Has(libs[i], name) ==> after[name] == before[name]
    ensures Linked(libs[..i + 1], after)
  {
    var all := libs[..i + 1];
    assert all[..i] == libs[..i];
    forall name ensures name in after <==> Owner(all, name) >= 0
      ensures name in after ==> after[name] == Rebased(all, Owner(all, name), all[Owner(all, name)].symbols[name]) {
      var k := Owner(all, name);
      if Has(libs[i], name) {
        assert k == i;
      } else {
        assert k == Owner(libs[..i], name);
        if k >= 0 { assert all[..k] == libs[..i][..k]; }
      }
    }
  }

  lemma {:induction false} PlaceInCode(libs: seq<Object>, k: nat)
    requires k < |libs|
    ensures var base := |CodeOf(libs[..k])|;
      base + |libs[k].code| <= |CodeOf(libs)| && CodeOf(libs)[base..base + |libs[k].code|] == libs[k].code
    decreases |libs|
  {
    var n := |libs| - 1;
    if k < n {
      PlaceInCode(libs[..n], k);
      assert libs[..n][..k] == libs[..k];
      var base := |CodeOf(libs[..k])|;
      assert CodeOf(libs)[base..base + |libs[k].code|] == CodeOf(libs[..n])[base..base + |libs[k].code|];
    }
  }

  lemma LastIsOwner(libs: seq<Object>, k: nat, name: Text)
    requires k < |libs| && Has(libs[k], name) && forall j :: k < j < |libs| ==> !Has(libs[j], name)
    ensures Owner(libs, name) == k
  {
    hide Has;
  }

  /** A symbol leads to the byte of code or data it named, provided no later library has the same name. */
  lemma SymbolsLead(libs: seq<Object>, symbols: map<Text, nat>, k: nat, name: Text)
    requires Linked(libs, symbols) && k < |libs| && Has(libs[k], name)
    requires forall j :: k < j < |libs| ==> !Has(libs[j], name)
    ensures name in symbols
    ensures var i, at := libs[k].symbols[name], symbols[name];
      && (i.section == 1 && i.value < |libs[k].code| ==>
            at < |CodeOf(libs)| && CodeOf(libs)[at] == libs[k].code[i.value])
      && (i.section == 2 && i.value < |libs[k].data| ==>
            at < |DataOf(libs)| && DataOf(libs)[at] == libs[k].data[i.value])
  {
    hide Linked, Has, CodeOf, DataOf;
    LinkedGives(libs, symbols, k, name);
    var i := libs[k].symbols[name];
    if i.section == 1 && i.value < |libs[k].code| { CodeByte(libs, k, i.value); }
    if i.section == 2 && i.value < |libs[k].data| { DataByte(libs, k, i.value); }
  }

  lemma LinkedGives(libs: seq<Object>, symbols: map<Text, nat>, k: nat, name: Text)
    requires Linked(libs, symbols) && k < |libs| && Has(libs[k], name)
    requires forall j :: k < j < |libs| ==> !Has(libs[j], name)
    ensures name in libs[k].symbols && name in symbols
    ensures symbols[name] == Rebased(libs, k, libs[k].symbols[name])
  {
    hide CodeOf, DataOf, Owner, Rebased;
    LastIsOwner(libs, k, name);
  }

  lemma CodeByte(libs: seq<Object>, k: nat, v: nat)
    requires k < |libs| && v < |libs[k].code|
    ensures |CodeOf(libs[..k])| + v < |CodeOf(libs)| && CodeOf(libs)[|CodeOf(libs[..k])| + v] == libs[k].code[v]
  {
    PlaceInCode(libs, k);
    hide CodeOf;
    var base := |CodeOf(libs[..k])|;
    assert CodeOf(libs)[base..base + |libs[k].code|][v] == CodeOf(libs)[base + v];
  }

  lemma {:induction false} PlaceInData(libs: seq<Object>, k: nat)
    requires k < |libs|
    ensures var base := |DataOf(libs[..k])|;
      base + |libs[k].data| <= |DataOf(libs)| && DataOf(libs)[base..base + |libs[k].data|] == libs[k].data
    decreases |libs|
  {
    var n := |libs| - 1;
    if k < n {
      PlaceInData(libs[..n], k);
      assert libs[..n][..k] == libs[..k];
      var base := |DataOf(libs[..k])|;
      assert DataOf(libs)[base..base + |libs[k].data|] == DataOf(libs[..n])[base..base + |libs[k].data|];
    }
  }

  lemma DataByte(libs: seq<Object>, k: nat, v: nat)
    requires k < |libs| && v < |libs[k].data|
    ensures |DataOf(libs[..k])| + v < |DataOf(libs)| && DataOf(libs)[|DataOf(libs[..k])| + v] == libs[k].data[v]
  {
    PlaceInData(libs, k);
    hide DataOf;
    var base := |DataOf(libs[..k])|;
    assert DataOf(libs)[base..base + |libs[k].data|][v] == DataOf(libs)[base + v];
  }

  /** From writer to linker: in any list of objects of which the k-th is what the reader makes of a file written from
      `code` and `labels`, an exported label leads to the byte it marked in that code, unless a later object has the
      name. */
  lemma ObjectsLink(objects: seq<Object>, symbols: map<Text, nat>, k: nat, code: seq<Byte>, data: seq<Byte>,
      exports: seq<Text>, labels: map<Text, nat>, undefined: seq<Text>, relocs: seq<Reloc>, name: Text)
    requires GoodLabels(labels)
    requires |FileOf(code, data, TableOf(exports, labels, undefined), relocs)| < 0x1_0000_0000
    requires k < |objects|
    requires Parse(FileOf(code, data, TableOf(exports, labels, undefined), relocs)) == Some(objects[k])
    requires Linked(objects, symbols)
    requires name in Wanted(exports, labels) && labels[name] < |code|
    requires forall j :: k < j < |objects| ==> !Has(objects[j], name)
    ensures name in symbols && symbols[name] < |CodeOf(objects)| && CodeOf(objects)[symbols[name]] == code[labels[name]]
  {
    ObjectReadsBack(code, data, exports, labels, undefined, relocs);
    hide Parse, FileOf, TableOf, CodeOf, Linked, Owner;
    SymbolsLead(objects, symbols, k, name);
  }

  /** From any object file to linked code: an external symbol, the last of its name in the k-th file, leads to the byte
      of that file's last text or data section that it names, unless a later object has the name. */
  lemma ForeignLinks(objects: seq<Object>, symbols: map<Text, nat>, k: nat, file: seq<Byte>, opt: nat,
      ps: seq<CoffFiles.Part>, symtab: nat, es: seq<CoffFiles.Entry>, text: nat, data: nat, i: nat, b: Byte)
    requires CoffFiles.IsObject(file, opt, ps, symtab, es) && CoffFiles.Found(file, ps, text, data)
    requires k < |objects| && Parse(file) == Some(objects[k]) && Linked(objects, symbols)
    requires CoffFiles.IsLastGlobal(es, |es|, text, data, i) && CoffFiles.Names(file, ps, es[i], b)
    requires forall j :: k < j < |objects| ==> !Has(objects[j], es[i].name)
    ensures es[i].name in symbols
    ensures var at, linked := symbols[es[i].name], if es[i].section == text then CodeOf(objects) else DataOf(objects);
      at < |linked| && linked[at] == b
  {
    hide Parse, CodeOf, DataOf, Linked, Owner, CoffFiles.IsObject, CoffFiles.IsContents, CoffFiles.HasGlobals, Has;
    CoffFiles.ForeignReads(file, opt, ps, symtab, es, text, data);
    var o, e := objects[k], es[i];
    SymbolIs(o, es, text, data, i);
    hide CoffFiles.IsLastGlobal, CoffFiles.Found, CoffFiles.Names;
    ByteOf(file, ps, e, if e.section == text then o.code else o.data, b);
    SymbolsLead(objects, symbols, k, e.name);
  }

  lemma SymbolIs(o: Object, es: seq<CoffFiles.Entry>, text: nat, data: nat, i: nat)
    requires CoffFiles.HasGlobals(es, |es|, text, data, o.symbols) && CoffFiles.IsLastGlobal(es, |es|, text, data, i)
    ensures Has(o, es[i].name) && o.symbols[es[i].name] == CoffFiles.InfoOf(es[i], text)
    ensures es[i].section > 0 && (es[i].section == text || es[i].section == data)
  {
  }

  lemma ByteOf(file: seq<Byte>, ps: seq<CoffFiles.Part>, e: CoffFiles.Entry, bytes: seq<Byte>, b: Byte)
    requires CoffFiles.Names(file, ps, e, b) && CoffFiles.IsContents(file, ps, e.section, bytes)
    ensures e.value < |bytes| && bytes[e.value] == b
  {
    AtIndex(file, ps[e.section - 1].at, bytes, e.value);
  }
}
