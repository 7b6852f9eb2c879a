/** Which variable an export stands for, through re-exports and imports that may run in circles, and the index of all
    exports that stand for a variable (compiler/index.js). */
module ExportGraph {
  import opened Basics

  /** An empty string is an absent one; `source` is a module's index, which need not be one. */
  datatype Export = Export(name: string, namespace: bool, kind: string, source: Option<int>, importedName: string,
    localName: string)
  datatype Binding = Binding(isNamespace: bool, source: Option<int>, importedName: string)
  datatype Meta = Meta(exports: seq<Export>, imports: map<string, Binding>, kinds: map<string, string>)

  /** A module's export, or a module's variable. */
  datatype Key = Key(index: int, name: string)

  datatype Ref =
    | Namespace(source: Option<int>, index: int)
    | Cell(cell: Key)
    | Plain(kind: string, index: int, localName: string)

  /** What one look at an export says. */
  datatype Outcome = Missing | Found(ref: Ref) | Follow(next: Key)

  function FindExport(exports: seq<Export>, name: string): (e: Option<Export>)
    ensures e.Some? ==> e.value in exports && e.value.name == name
    ensures e.None? <==> forall j :: 0 <= j < |exports| ==> exports[j].name != name
  {
    if exports == [] then None
    else if exports[0].name == name then Some(exports[0])
    else FindExport(exports[1..], name)
  }

  function LocalNameOf(e: Export): string {
    if e.localName != "" then e.localName
    else if e.kind == "const" || e.kind == "local" then e.name
    else ""
  }

  predicate IsLive(m: Meta, local: string) {
    local in m.kinds && m.kinds[local] == "variable"
  }

  function Look(metas: seq<Meta>, i: nat, e: Export): Outcome
    requires i < |metas|
  {
    var local := LocalNameOf(e);
    if e.namespace && e.source.Some? then Found(Namespace(e.source, i))
    else if e.kind == "reexport"
      && e.source.Some? then Follow(Key(e.source.value, if e.importedName != "" then e.importedName else e.name))
    else if local != "" && local in metas[i].imports then
      var b := metas[i].imports[local];
      if b.isNamespace then Found(Namespace(b.source, i))
      else if b.source.Some? then Follow(Key(b.source.value, b.importedName))
      else Missing
    else if local != "" && IsLive(metas[i], local) then Found(Cell(Key(i, local)))
    else Found(Plain(if e.kind != "" then e.kind else "value", i, local))
  }

  function StepOf(metas: seq<Meta>, k: Key): Outcome {
    if !(0 <= k.index < |metas|) || k.name == "" then Missing
    else match FindExport(metas[k.index].exports, k.name)
      case None => Missing
      case Some(e) => Look(metas, k.index, e)
  }

  // ---------- resolution ----------

  function TargetsOf(metas: seq<Meta>, i: nat, exports: seq<Export>): (s: set<Key>)
    requires i < |metas|
    ensures forall e :: e in exports && Look(metas, i, e).Follow? ==> Look(metas, i, e).next in s
  {
    if exports == [] then {}
    else
      TargetsOf(metas, i, exports[1..]) + match Look(metas, i, exports[0]) case Follow(next) => {next} case _ => {}
  }

  /** Every key some export leads on to: finitely many. */
  function AllTargets(metas: seq<Meta>, n: nat): (s: set<Key>)
    requires n <= |metas|
    ensures forall i, e :: 0 <= i < n && e in metas[i].exports && Look(metas, i, e).Follow? ==>
      Look(metas, i, e).next in s
  {
    if n == 0 then {} else AllTargets(metas, n - 1) + TargetsOf(metas, n - 1, metas[n - 1].exports)
  }

  function Resolve(metas: seq<Meta>, k: Key, seen: set<Key>): Option<Ref>
    decreases AllTargets(metas, |metas|) + {k} - seen
  {
    if !(0 <= k.index < |metas|) || k.name == "" || k in seen then None
    else match StepOf(metas, k)
      case Missing => None
      case Found(ref) => Some(ref)
      case Follow(next) =>
        var e := FindExport(metas[k.index].exports, k.name).value;
        assert Look(metas, k.index, e).next in AllTargets(metas, |metas|);
        var before, after := AllTargets(metas, |metas|) + {k} - seen,
          AllTargets(metas, |metas|) + {next} - (seen + {k});
        assert after <= before && k in before && k !in after;
        Resolve(metas, next, seen + {k})
  }

  /** The chain from k ends after n links, in ref. */
  predicate EndsIn(metas: seq<Meta>, k: Key, n: nat, ref: Ref)
    decreases n
  {
    match StepOf(metas, k)
    case Missing => false
    case Found(r) => n == 0 && r == ref
    case Follow(next) => n > 0 && EndsIn(metas, next, n - 1, ref)
  }

  /** The key after i links. */
  function KeyAt(metas: seq<Meta>, k: Key, i: nat): Key
    decreases i
  {
    if i == 0 then k
    else match StepOf(metas, k) case Follow(next) => KeyAt(metas, next, i - 1) case _ => k
  }

  lemma {:induction false} EndsOnce(metas: seq<Meta>, k: Key, n: nat, r: Ref, m: nat, q: Ref)
    requires EndsIn(metas, k, n, r) && EndsIn(metas, k, m, q)
    ensures n == m && r == q
    decreases n
  {
    if n > 0 {
      EndsOnce(metas, StepOf(metas, k).next, n - 1, r, m - 1, q);
    }
  }

  lemma {:induction false} EndsFrom(metas: seq<Meta>, k: Key, n: nat, r: Ref, i: nat)
    requires EndsIn(metas, k, n, r) && i <= n
    ensures EndsIn(metas, KeyAt(metas, k, i), n - i, r)
    decreases i
  {
    if i > 0 {
      EndsFrom(metas, StepOf(metas, k).next, n - 1, r, i - 1);
    }
  }

  /** What resolution finds is where the chain ends. */
  lemma {:induction false} ResolveSound(metas: seq<Meta>, k: Key, seen: set<Key>) returns (n: nat)
    requires Resolve(metas, k, seen).Some?
    ensures EndsIn(metas, k, n, Resolve(metas, k, seen).value)
    decreases AllTargets(metas, |metas|) + {k} - seen
  {
    match StepOf(metas, k)
    case Found(_) => n := 0;
    case Follow(next) =>
      var e := FindExport(metas[k.index].exports, k.name).value;
      assert Look(metas, k.index, e).next in AllTargets(metas, |metas|);
      var before, after := AllTargets(metas, |metas|) + {k} - seen, AllTargets(metas, |metas|) + {next} - (seen + {k});
      assert after <= before && k in before && k !in after;
      n := ResolveSound(metas, next, seen + {k});
      n := n + 1;
  }

  /** A chain that ends never comes back to a key, so `seen` does not stop it. */
  lemma {:induction false} ResolveComplete(metas: seq<Meta>, k: Key, seen: set<Key>, n: nat, ref: Ref)
    requires EndsIn(metas, k, n, ref) && forall i :: 0 <= i <= n ==> KeyAt(metas, k, i) !in seen
    ensures Resolve(metas, k, seen) == Some(ref)
    decreases n
  {
    assert KeyAt(metas, k, 0) == k;
    if n > 0 {
      var next := StepOf(metas, k).next;
      forall i | 0 <= i <= n - 1 ensures KeyAt(metas, next, i) !in seen + {k} {
        assert KeyAt(metas, k, i + 1) == KeyAt(metas, next, i);
        EndsFrom(metas, k, n, ref, i + 1);
        if KeyAt(metas, k, i + 1) == k {
          EndsOnce(metas, k, n, ref, n - i - 1, ref);
        }
      }
      ResolveComplete(metas, next, seen + {k}, n - 1, ref);
    }
  }

  /** Resolution finds exactly what the chain of re-exports and imports ends in, if it ends; a chain in a circle gives
      nothing. */
  lemma ResolveExactly(metas: seq<Meta>, k: Key, ref: Ref)
    ensures Resolve(metas, k, {}) == Some(ref) <==> exists n: nat :: EndsIn(metas, k, n, ref)
  {
    hide EndsIn, Resolve;
    if Resolve(metas, k, {}) == Some(ref) {
      var n := ResolveSound(metas, k, {});
      assert EndsIn(metas, k, n, ref);
    } else {
      forall n: nat | EndsIn(metas, k, n, ref) ensures false {
        ResolveComplete(metas, k, {}, n, ref);
      }
    }
  }

  // ---------- what an export denotes ----------

  /** By the rules of the language an export leads to a variable of some module, or to all exports of one. */
  datatype Entity = Variable(cell: Key) | AllOf(source: Option<int>, at: int)

  /** The export of that name: if a module has several, its first. */
  predicate Exported(metas: seq<Meta>, k: Key, j: nat) {
    && 0 <= k.index < |metas| && j < |metas[k.index].exports| && k.name != ""
    && metas[k.index].exports[j].name == k.name
    && forall i :: 0 <= i < j ==> metas[k.index].exports[i].name != k.name
  }

  /** `export * as name from "source"`. */
  predicate IsNamespace(e: Export) {
    e.namespace && e.source != None
  }

  /** `export { imported as name } from "source"`, or one of the names of `export * from "source"`, which keep them. */
  predicate IsIndirect(e: Export, of: Key) {
    && !IsNamespace(e) && e.kind == "reexport" && e.source == Some(of.index)
    && of.name == (if e.importedName == "" then e.name else e.importedName)
  }

  /** `export { local as name }`, `export let local`, `export default local`. */
  predicate IsLocal(e: Export, local: string) {
    && !IsNamespace(e) && !(e.kind == "reexport" && e.source != None) && local != ""
    && (local == e.localName || (e.localName == "" && e.kind in {"const", "local"} && local == e.name))
  }

  predicate ImportedFrom(m: Meta, local: string, of: Key) {
    local in m.imports && !m.imports[local].isNamespace && m.imports[local] == Binding(false, Some(of.index), of.name)
  }

  /** The export stands for another one: a re-export, or the export of something imported by name. */
  ghost predicate LeadsTo(m: Meta, e: Export, of: Key) {
    IsIndirect(e, of) || exists local :: IsLocal(e, local) && ImportedFrom(m, local, of)
  }

  /** The export stands for something itself: a variable of its module, or, exported or imported as a namespace, all of
      a module's exports. */
  ghost predicate Is(m: Meta, at: int, e: Export, d: Entity) {
    || (IsNamespace(e) && d == AllOf(e.source, at))
    || exists local :: IsLocal(e, local) &&
         if local in m.imports then m.imports[local].isNamespace && d == AllOf(m.imports[local].source, at)
         else IsLive(m, local) && d == Variable(Key(at, local))
  }

  /** The export leads to that entity over n others. */
  ghost predicate Denotes(metas: seq<Meta>, k: Key, d: Entity, n: nat)
    decreases n
  {
    exists j: nat :: Exported(metas, k, j) &&
      var m, e := metas[k.index], metas[k.index].exports[j];
      if n == 0 then Is(m, k.index, e, d) else exists of :: LeadsTo(m, e, of) && Denotes(metas, of, d, n - 1)
  }

  /** The export denotes the entity. */
  ghost predicate StandsFor(metas: seq<Meta>, k: Key, d: Entity) {
    exists n: nat :: Denotes(metas, k, d, n)
  }

  function RefOf(d: Entity): Ref {
    match d
    case Variable(c) => Cell(c)
    case AllOf(source, at) => Namespace(source, at)
  }

  lemma FirstIs(exports: seq<Export>, name: string, j: nat)
    requires j < |exports| && exports[j].name == name && forall i :: 0 <= i < j ==> exports[i].name != name
    ensures FindExport(exports, name) == Some(exports[j])
  {
    if j > 0 { FirstIs(exports[1..], name, j - 1); }
  }

  lemma {:induction false} FindsFirst(exports: seq<Export>, name: string) returns (j: nat)
    requires FindExport(exports, name).Some?
    ensures j < |exports| && exports[j].name == name && forall i :: 0 <= i < j ==> exports[i].name != name
    decreases |exports|
  {
    if exports[0].name == name {
      j := 0;
    } else {
      j := FindsFirst(exports[1..], name);
      j := j + 1;
    }
  }

  lemma LocalIs(e: Export, local: string)
    ensures IsLocal(e, local) <==>
      && local == LocalNameOf(e) && local != "" && !IsNamespace(e) && !(e.kind == "reexport" && e.source != None)
  {
  }

  /** One look, in the terms of the language. */
  lemma LookMeans(metas: seq<Meta>, i: nat, e: Export)
    requires i < |metas|
    ensures forall of :: Look(metas, i, e) == Follow(of) <==> LeadsTo(metas[i], e, of)
    ensures forall d :: Look(metas, i, e) == Found(RefOf(d)) <==> Is(metas[i], i, e, d)
  {
    LocalIs(e, LocalNameOf(e));
    forall local | IsLocal(e, local) ensures local == LocalNameOf(e) { LocalIs(e, local); }
  }

  lemma {:induction false} EndDenotes(metas: seq<Meta>, k: Key, d: Entity, n: nat)
    requires EndsIn(metas, k, n, RefOf(d))
    ensures Denotes(metas, k, d, n)
    decreases n
  {
    hide Look, LeadsTo, Is;
    var exports := metas[k.index].exports;
    var j := FindsFirst(exports, k.name);
    assert Exported(metas, k, j);
    FirstIs(exports, k.name, j);
    LookMeans(metas, k.index, exports[j]);
    if n > 0 {
      var of := StepOf(metas, k).next;
      assert LeadsTo(metas[k.index], exports[j], of);
      EndDenotes(metas, of, d, n - 1);
    }
  }

  lemma DenotedStep(metas: seq<Meta>, k: Key, d: Entity, n: nat) returns (of: Key)
    requires Denotes(metas, k, d, n)
    ensures if n == 0 then StepOf(metas, k) == Found(RefOf(d))
            else StepOf(metas, k) == Follow(of) && Denotes(metas, of, d, n - 1)
  {
    hide Look, LeadsTo, Is, FindExport;
    of := k;
    var j: nat :| Exported(metas, k, j) &&
      var m, e := metas[k.index], metas[k.index].exports[j];
      if n == 0 then Is(m, k.index, e, d) else exists of :: LeadsTo(m, e, of) && Denotes(metas, of, d, n - 1);
    FirstIs(metas[k.index].exports, k.name, j);
    LookMeans(metas, k.index, metas[k.index].exports[j]);
    if n > 0 {
      of :| LeadsTo(metas[k.index], metas[k.index].exports[j], of) && Denotes(metas, of, d, n - 1);
    }
  }

  lemma {:induction false} DenotedEnds(metas: seq<Meta>, k: Key, d: Entity, n: nat)
    requires Denotes(metas, k, d, n)
    ensures EndsIn(metas, k, n, RefOf(d))
    decreases n
  {
    hide StepOf, Denotes;
    var of := DenotedStep(metas, k, d, n);
    if n > 0 { DenotedEnds(metas, of, d, n - 1); }
  }

  /** Resolution gives the entity that an export denotes, whenever it denotes one. */
  lemma ResolvesToWhatItDenotes(metas: seq<Meta>, k: Key, d: Entity)
    ensures Resolve(metas, k, {}) == Some(RefOf(d)) <==> StandsFor(metas, k, d)
  {
    hide Denotes, EndsIn, Resolve;
    ResolveExactly(metas, k, RefOf(d));
    if n: nat :| EndsIn(metas, k, n, RefOf(d)) { EndDenotes(metas, k, d, n); }
    if n: nat :| Denotes(metas, k, d, n) { DenotedEnds(metas, k, d, n); }
  }

  /** A cell is a variable of the module it is said to be in. */
  lemma {:induction false} CellIsLive(metas: seq<Meta>, k: Key, n: nat, c: Key)
    requires EndsIn(metas, k, n, Cell(c))
    ensures 0 <= c.index < |metas| && IsLive(metas[c.index], c.name)
    decreases n
  {
    if n > 0 {
      CellIsLive(metas, StepOf(metas, k).next, n - 1, c);
    }
  }

  // ---------- the index of exports that stand for a variable ----------

  datatype Entry = Entry(cell: Key, target: Key)

  function CellOf(metas: seq<Meta>, k: Key): Option<Key> {
    match Resolve(metas, k, {})
    case Some(Cell(c)) => Some(c)
    case _ => None
  }

  predicate Listed(e: Export) {
    e.kind != "star" && !e.namespace
  }

  function EntryOf(metas: seq<Meta>, i: nat, e: Export): seq<Entry> {
    if !Listed(e) then []
    else match CellOf(metas, Key(i, e.name))
      case Some(c) => [Entry(c, Key(i, e.name))]
      case None => []
  }

  function EntriesOf(metas: seq<Meta>, i: nat, exports: seq<Export>): seq<Entry> {
    if exports == [] then []
    else EntriesOf(metas, i, exports[..|exports| - 1]) + EntryOf(metas, i, exports[|exports| - 1])
  }

  /** A scan of the exports of the first n modules. */
  function Scan(metas: seq<Meta>, n: nat): seq<Entry>
    requires n <= |metas|
  {
    if n == 0 then [] else Scan(metas, n - 1) + EntriesOf(metas, n - 1, metas[n - 1].exports)
  }

  /** The targets of one cell, in the order of the scan. */
  function Select(entries: seq<Entry>, cell: Key): seq<Key> {
    if entries == [] then []
    else
      var last := entries[|entries| - 1];
      Select(entries[..|entries| - 1], cell) + if last.cell == cell then [last.target] else []
  }

  /** Without those in the variable's own module, and each once. */
  function Others(targets: seq<Key>, src: int): (r: seq<Key>)
    ensures forall t :: t in r <==> t in targets && t.index != src
    ensures forall i, j :: 0 <= i < j < |r| ==> r[i] != r[j]
  {
    if targets == [] then []
    else
      var rest, last := Others(targets[..|targets| - 1], src), targets[|targets| - 1];
      assert targets == targets[..|targets| - 1] + [last];
      if last.index == src || last in rest then rest else rest + [last]
  }

  lemma {:induction false} SelectAppends(a: seq<Entry>, b: seq<Entry>, cell: Key)
    ensures Select(a + b, cell) == Select(a, cell) + Select(b, cell)
    decreases |b|
  {
    if b == [] {
      assert a + b == a;
    } else {
      var n := |b| - 1;
      assert (a + b)[..|a| + n] == a + b[..n];
      SelectAppends(a, b[..n], cell);
    }
  }

  lemma {:induction false} SelectHas(entries: seq<Entry>, cell: Key, t: Key)
    ensures t in Select(entries, cell) <==> Entry(cell, t) in entries
    decreases |entries|
  {
    if entries != [] {
      var n := |entries| - 1;
      assert entries == entries[..n] + [entries[n]];
      SelectHas(entries[..n], cell, t);
    }
  }

  lemma {:induction false} EntriesHave(metas: seq<Meta>, i: nat, exports: seq<Export>, en: Entry)
    ensures en in EntriesOf(metas, i, exports) <==> exists e :: e in exports && en in EntryOf(metas, i, e)
    decreases |exports|
  {
    if exports != [] {
      var n := |exports| - 1;
      assert exports == exports[..n] + [exports[n]];
      EntriesHave(metas, i, exports[..n], en);
    }
  }

  lemma {:induction false} ScanHas(metas: seq<Meta>, n: nat, en: Entry)
    requires n <= |metas|
    ensures en in Scan(metas, n) <==> exists i, e :: 0 <= i < n && e in metas[i].exports && en in EntryOf(metas, i, e)
    decreases n
  {
    hide EntriesOf, EntryOf;
    if n > 0 {
      ScanHas(metas, n - 1, en);
      EntriesHave(metas, n - 1, metas[n - 1].exports, en);
    }
  }

  /** What a full scan of all exports of all modules gives for a variable. */
  function Propagation(metas: seq<Meta>, cell: Key): (r: seq<Key>) {
    Others(Select(Scan(metas, |metas|), cell), cell.index)
  }

  /** t is one of the exports in other modules that denote the variable. */
  ghost predicate Shows(metas: seq<Meta>, t: Key, cell: Key) {
    && 0 <= t.index < |metas| && t.index != cell.index && StandsFor(metas, t, Variable(cell))
    && exists e :: e in metas[t.index].exports && e.name == t.name && e.kind != "star" && !e.namespace
  }

  lemma PropagationHas(metas: seq<Meta>, cell: Key, t: Key)
    ensures t in Propagation(metas, cell) <==>
      && 0 <= t.index < |metas| && t.index != cell.index && CellOf(metas, t) == Some(cell)
      && exists e :: e in metas[t.index].exports && e.name == t.name && Listed(e)
  {
    SelectHas(Scan(metas, |metas|), cell, t);
    ScanHas(metas, |metas|, Entry(cell, t));
    hide Scan, Select, Resolve;
  }

  lemma EachOnce(metas: seq<Meta>, cell: Key)
    ensures forall i, j :: 0 <= i < j < |Propagation(metas, cell)| ==>
      Propagation(metas, cell)[i] != Propagation(metas, cell)[j]
  {
    hide Scan, Select;
  }

  /** Those are the listed exports of other modules that denote the variable, each once. */
  lemma PropagationIs(metas: seq<Meta>, cell: Key, t: Key)
    ensures t in Propagation(metas, cell) <==> Shows(metas, t, cell)
    ensures forall i, j :: 0 <= i < j < |Propagation(metas, cell)| ==>
      Propagation(metas, cell)[i] != Propagation(metas, cell)[j]
  {
    PropagationHas(metas, cell, t);
    ResolvesToWhatItDenotes(metas, t, Variable(cell));
    assert CellOf(metas, t) == Some(cell) <==> StandsFor(metas, t, Variable(cell));
    EachOnce(metas, cell);
    hide Scan, Select, Resolve, StandsFor;
  }

  class LiveBindings {
    const metas: seq<Meta>
    var propTargetIndex: Option<map<Key, seq<Key>>>

    /** The index, once built, has every variable's part of the scan. */
    ghost predicate Valid()
      reads this
    {
      propTargetIndex.Some? ==> forall c :: Bucket(propTargetIndex.value, c) == Select(Scan(metas, |metas|), c)
    }

    constructor (metas: seq<Meta>)
      ensures this.metas == metas && Valid()
    {
      this.metas := metas;
      propTargetIndex := None;
    }

    method BuildIndex() returns (index: map<Key, seq<Key>>)
      ensures forall c :: Bucket(index, c) == Select(Scan(metas, |metas|), c)
    {
      assert forall c :: Select(Scan(metas, 0), c) == [];
      hide EntriesOf, Select;
      index := map[];
      var i := 0;
      while i < |metas|
        invariant i <= |metas|
        invariant forall c :: Bucket(index, c) == Select(Scan(metas, i), c)
      {
        index := IndexModule(index, i, Scan(metas, i));
        i := i + 1;
      }
    }

    method IndexModule(was: map<Key, seq<Key>>, i: nat, ghost scan: seq<Entry>) returns (index: map<Key, seq<Key>>)
      requires i < |metas| && forall c :: Bucket(was, c) == Select(scan, c)
      ensures forall c :: Bucket(index, c) == Select(scan + EntriesOf(metas, i, metas[i].exports), c)
    {
      hide Select, EntryOf, Bucket;
      index := was;
      var exports := metas[i].exports;
      var j := 0;
      assert scan + [] == scan;
      while j < |exports|
        invariant j <= |exports|
        invariant forall c :: Bucket(index, c) == Select(scan + EntriesOf(metas, i, exports[..j]), c)
      {
        index := IndexExport(index, i, exports[j], scan + EntriesOf(metas, i, exports[..j]));
        assert exports[..j + 1][..j] == exports[..j];
        assert scan + EntriesOf(metas, i, exports[..j]) + EntryOf(metas, i, exports[j]) == scan
          + EntriesOf(metas, i, exports[..j + 1]);
        j := j + 1;
      }
      assert exports[..j] == exports;
    }

    method IndexExport(was: map<Key, seq<Key>>, i: nat, e: Export, ghost scan: seq<Entry>)
        returns (index: map<Key, seq<Key>>)
      requires forall c :: Bucket(was, c) == Select(scan, c)
      ensures forall c :: Bucket(index, c) == Select(scan + EntryOf(metas, i, e), c)
    {
      index := was;
      var ref := Resolve(metas, Key(i, e.name), {});
      if Listed(e) && ref.Some? && ref.value.Cell? {
        var key := ref.value.cell;
        index := index[key := Bucket(index, key) + [Key(i, e.name)]];
        forall c ensures Bucket(index, c) == Select(scan + EntryOf(metas, i, e), c) {
          SelectOne(was, scan, Entry(key, Key(i, e.name)), c);
        }
      } else {
        assert scan + EntryOf(metas, i, e) == scan;
      }
    }

    /** The cached index answers as a full scan would, every time: with the exports in other modules that denote the
        variable, each once. */
    method GetResolvedExportPropagationTargets(source: Key) returns (targets: seq<Key>)
      requires Valid()
      modifies this
      ensures Valid() && targets == if source.name == "" then [] else Propagation(metas, source)
      ensures forall t :: t in targets <==> source.name != "" && Shows(metas, t, source)
      ensures forall i, j :: 0 <= i < j < |targets| ==> targets[i] != targets[j]
    {
      forall t ensures t in Propagation(metas, source) <==> Shows(metas, t, source)
        ensures forall i, j :: 0 <= i < j < |Propagation(metas, source)| ==>
          Propagation(metas, source)[i] != Propagation(metas, source)[j]
      {
        PropagationIs(metas, source, t);
      }
      hide Shows, Scan, Select;
      if source.name == "" { return []; }
      if propTargetIndex.None? {
        var index := BuildIndex();
        propTargetIndex := Some(index);
      }
      var arr := Bucket(propTargetIndex.value, source);
      targets := [];
      var i := 0;
      while i < |arr|
        invariant i <= |arr| && targets == Others(arr[..i], source.index)
      {
        var t := arr[i];
        assert arr[..i + 1][..i] == arr[..i];
        if t.index != source.index && t !in targets {
          targets := targets + [t];
        }
        i := i + 1;
      }
      assert arr[..i] == arr;
    }
  }

  lemma SelectOne(index: map<Key, seq<Key>>, scan: seq<Entry>, en: Entry, c: Key)
    requires Bucket(index, c) == Select(scan, c)
    ensures Bucket(index[en.cell := Bucket(index, en.cell) + [en.target]], c) == Select(scan + [en], c)
  {
    assert (scan + [en])[..|scan|] == scan;
  }

  function Bucket(index: map<Key, seq<Key>>, c: Key): seq<Key> {
    if c in index then index[c] else []
  }
}
