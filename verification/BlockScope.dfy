/** The renaming of what inner blocks declare (lang/analysis/blockscope.js), and what it does to a program. */
module BlockScope {
  import opened Basics
  import opened Scoping
  import opened Binding
  import opened ClosureNames

  // ---------- new names ----------

  /** The one name that is never renamed. */
  const PROTO := "__proto__"

  function NameOf(x: string, k: nat): string {
    x + "$blk$" + Shown(k)
  }

  ghost predicate Numbered(z: string, lo: nat, hi: nat) {
    exists x: string, k: nat :: lo < k <= hi && z == NameOf(x, k)
  }

  /** Not of the form the renaming uses. */
  ghost predicate Old(z: string) {
    forall x: string, k: nat :: z != NameOf(x, k)
  }

  /** A new name says of which name it is, and its number. */
  lemma NewNameReads(x: string, j: nat, y: string, k: nat)
    requires NameOf(x, j) == NameOf(y, k)
    ensures x == y && j == k
  {
    var z, m, n := NameOf(x, j), |Shown(j)|, |Shown(k)|;
    assert z[|z| - m - 1] == '$' && z[|z| - n - 1] == '$';
    assert forall i :: |z| - m <= i < |z| ==> z[i] == Shown(j)[i - (|z| - m)];
    assert forall i :: |z| - n <= i < |z| ==> z[i] == Shown(k)[i - (|z| - n)];
    assert m == n;
    assert z[|z| - m..] == Shown(j) && z[|z| - n..] == Shown(k);
    ShownReads(j, k);
    assert z[..|z| - m - 5] == x && z[..|z| - n - 5] == y;
  }

  lemma NumbersApart(z: string, lo: nat, mid: nat, hi: nat)
    requires Numbered(z, lo, mid)
    ensures !Numbered(z, mid, hi) && !Old(z)
  {
    if Numbered(z, mid, hi) {
      var x, j: nat :| lo < j <= mid && z == NameOf(x, j);
      var y, k: nat :| mid < k <= hi && z == NameOf(y, k);
      NewNameReads(x, j, y, k);
    }
  }

  lemma ProtoIsOld()
    ensures Old(PROTO)
  {
    forall x: string, k: nat ensures PROTO != NameOf(x, k) {
      var z := NameOf(x, k);
      assert z[|z| - 1] == Shown(k)[|Shown(k)| - 1];
    }
  }

  // ---------- what the renaming makes of a tree ----------

  /** What each name stands for. */
  type Names = string -> string

  function BlockNames(e: Names, ds: seq<Decl>, named: seq<Decl>, ks: seq<Node>): Names {
    x =>
      if NamesFunction(ks, x) then x
      else if Lexical(ds, x) && First(ds, x) < |named| then named[First(ds, x)].name
      else e(x)
  }

  function OwnNames(e: Names, own: seq<string>, ps: seq<Param>): Names {
    x => if x in own || IsParam(ps, x) then x else e(x)
  }

  function BodyNames(e: Names, b: Node): Names {
    x => if Hoisted(b, x) || (b.Block? && Lexical(b.decls, x)) then x else e(x)
  }

  function SelfName(e: Names, y: string): Names {
    x => if x == y then y else e(x)
  }

  /** No name of the source stands for z, nor is it one. */
  ghost predicate Fresh(z: string, e: Names) {
    !Old(z) && forall x :: Old(x) ==> e(x) != z
  }

  predicate Kept(d: Decl, ks: seq<Node>) {
    d.hoisted || d.name == PROTO || NamesFunction(ks, d.name)
  }

  ghost predicate Opens(e: Names, ds: seq<Decl>, named: seq<Decl>, ks: seq<Node>) {
    && |named| == |ds|
    && (forall k :: 0 <= k < |ds| ==>
          && named[k].hoisted == ds[k].hoisted && named[k].plain == ds[k].plain
          && (if Kept(ds[k], ks) then named[k].name == ds[k].name else Fresh(named[k].name, e)))
    && (forall j, k :: 0 <= j < |ds| && 0 <= k < |ds| && !Kept(ds[j], ks) && !Kept(ds[k], ks) ==>
          (named[j].name == named[k].name <==> ds[j].name == ds[k].name))
  }

  /** t is s with what inner blocks declare renamed, where names of s stand for what e says. */
  ghost predicate Ren(s: Node, t: Node, e: Names)
    decreases s, 0
  {
    match s
    case Id(y) => t == Id(e(y))
    case Group(m, ks) =>
      if m then t == s
      else t.Group? && !t.inPattern && |t.kids| == |ks| && forall k :: 0 <= k < |ks| ==> Ren(ks[k], t.kids[k], e)
    case Block(ds, ks) =>
      && t.Block? && Opens(e, ds, t.decls, ks) && |t.kids| == |ks|
      && forall k :: 0 <= k < |ks| ==> Ren(ks[k], t.kids[k], BlockNames(e, ds, t.decls, ks))
    case Labelled(l, b) => t.Labelled? && t.tag == l && Ren(b, t.stmt, e)
    case Jump(_) => t == s
    case Named(y, f) => t.Named? && t.name == y && Ren(f, t.fn, SelfName(e, y))
    case Fn(own, ps, vs, b) =>
      && t.Fn? && t.own == own && t.params == ps && |t.defaults| == |vs|
      && (forall k :: 0 <= k < |vs| ==> Ren(vs[k], t.defaults[k], OwnNames(e, own, ps)))
      && RenBody(b, t.body, BodyNames(OwnNames(e, own, ps), b))
  }

  /** What a body declares itself keeps its name. */
  ghost predicate RenBody(b: Node, t: Node, e: Names)
    decreases b, 1
  {
    if b.Block? then
      && t.Block? && t.decls == b.decls && |t.kids| == |b.kids|
      && forall k :: 0 <= k < |b.kids| ==> Ren(b.kids[k], t.kids[k], e)
    else Ren(b, t, e)
  }

  /** All names in n are of the source. */
  ghost predicate OldNames(n: Node) {
    match n
    case Id(y) => Old(y)
    case Group(_, ks) => forall k :: 0 <= k < |ks| ==> OldNames(ks[k])
    case Block(ds, ks) =>
      (forall k :: 0 <= k < |ds| ==> Old(ds[k].name)) && forall k :: 0 <= k < |ks| ==> OldNames(ks[k])
    case Labelled(l, b) => Old(l) && OldNames(b)
    case Jump(l) => Old(l)
    case Named(y, f) => Old(y) && OldNames(f)
    case Fn(own, ps, vs, b) =>
      && (forall x :: x in own || IsParam(ps, x) ==> Old(x))
      && (forall k :: 0 <= k < |vs| ==> OldNames(vs[k])) && OldNames(b)
  }

  lemma {:induction false} FreeIsOld(n: Node, x: string)
    requires OldNames(n) && (Free(n, x) || Hoisted(n, x))
    ensures Old(x)
    decreases n
  {
    match n
    case Id(_) =>
    case Group(_, ks) =>
      var k :| 0 <= k < |ks| && Free(ks[k], x);
      FreeIsOld(ks[k], x);
    case Block(ds, ks) =>
      if !ByVar(ds, x) {
        var k :| 0 <= k < |ks| && (Free(ks[k], x) || Hoisted(ks[k], x));
        FreeIsOld(ks[k], x);
      }
    case Labelled(_, b) => FreeIsOld(b, x);
    case Named(y, f) => if x != y { FreeIsOld(f, x); }
    case Fn(_, _, vs, b) =>
      if k :| 0 <= k < |vs| && Free(vs[k], x) {
        FreeIsOld(vs[k], x);
      } else {
        FreeIsOld(b, x);
      }
  }

  // ---------- where every identifier keeps its declaration ----------

  type Hidden = string -> bool

  function HiddenInBlock(h: Hidden, ds: seq<Decl>, ks: seq<Node>): Hidden {
    x => !NamesFunction(ks, x) && ((x != PROTO && Lexical(ds, x)) || h(x))
  }

  function HiddenInFunction(h: Hidden, own: seq<string>, ps: seq<Param>): Hidden {
    x => x !in own && !IsParam(ps, x) && h(x)
  }

  function HiddenInBody(h: Hidden, b: Node): Hidden {
    x => !Hoisted(b, x) && !(b.Block? && Lexical(b.decls, x)) && h(x)
  }

  /** h are the names that blocks around n declare.  No such name is used by a default value in a pattern, and none is
      declared by var. */
  ghost predicate Clear(n: Node, h: Hidden)
    decreases n, 0
  {
    match n
    case Group(m, ks) =>
      if m then forall x :: Free(n, x) ==> !h(x) else forall k :: 0 <= k < |ks| ==> Clear(ks[k], h)
    case Block(ds, ks) =>
      && (forall k :: 0 <= k < |ds| && ds[k].hoisted ==> !HiddenInBlock(h, ds, ks)(ds[k].name))
      && forall k :: 0 <= k < |ks| ==> Clear(ks[k], HiddenInBlock(h, ds, ks))
    case Labelled(_, b) => Clear(b, h)
    case Named(y, f) => Clear(f, x => x != y && h(x))
    case Fn(own, ps, vs, b) =>
      && (forall k :: 0 <= k < |vs| ==> Clear(vs[k], HiddenInFunction(h, own, ps)))
      && ClearBody(b, HiddenInBody(HiddenInFunction(h, own, ps), b))
    case _ => true
  }

  ghost predicate ClearBody(b: Node, h: Hidden)
    decreases b, 1
  {
    if b.Block? then forall k :: 0 <= k < |b.kids| ==> Clear(b.kids[k], h) else Clear(b, h)
  }

  /** One name of the source: it stands for a name with the same declaration, and is hidden exactly if that is another
      name; then the name itself means something else by now. */
  ghost predicate AgreeAt(e: Names, h: Hidden, se: Env, te: Env, x: string) {
    && se(x) == te(e(x))
    && (e(x) == x || !Old(e(x)))
    && (h(x) <==> e(x) != x)
    && (h(x) ==> se(x) != te(x))
  }

  ghost predicate Agree(e: Names, h: Hidden, se: Env, te: Env) {
    forall x :: Old(x) ==> AgreeAt(e, h, se, te, x)
  }

  lemma SameFunctions(ks: seq<Node>, ls: seq<Node>, e: Names, x: string)
    requires |ls| == |ks| && forall k :: 0 <= k < |ks| ==> Ren(ks[k], ls[k], e)
    ensures NamesFunction(ls, x) <==> NamesFunction(ks, x)
  {
    forall k | 0 <= k < |ks| ensures ls[k].Named? <==> ks[k].Named?
      ensures ls[k].Named? ==> ls[k].name == ks[k].name
    {
    }
  }

  lemma FunctionsAreOld(ks: seq<Node>, x: string)
    requires (forall k :: 0 <= k < |ks| ==> OldNames(ks[k])) && NamesFunction(ks, x)
    ensures Old(x)
  {
  }

  /** The declaration a name leads to is the one its new name leads to. */
  lemma NamedFirst(e: Names, ds: seq<Decl>, named: seq<Decl>, ks: seq<Node>, x: string)
    requires Opens(e, ds, named, ks) && forall k :: 0 <= k < |ds| ==> Old(ds[k].name)
    requires Lexical(ds, x)
    ensures var k := First(ds, x);
      Lexical(named, named[k].name) && First(named, named[k].name) == k
      && (if x == PROTO || NamesFunction(ks, x) then named[k].name == x else Fresh(named[k].name, e))
  {
    var k := First(ds, x);
    assert !named[k].hoisted;
    assert Lexical(named, named[k].name);
  }

  lemma NotNamed(e: Names, ds: seq<Decl>, named: seq<Decl>, ks: seq<Node>, x: string)
    requires Opens(e, ds, named, ks) && forall k :: 0 <= k < |ds| ==> Old(ds[k].name)
    requires Old(x) && !Lexical(ds, x) && (e(x) == x || !Old(e(x)))
    ensures !Lexical(named, e(x)) && !Lexical(named, x)
  {
  }

  /** Where a name of the source leads to in a block and in the block it has become. */
  lemma LeadsTo(e: Names, se: Env, te: Env, ds: seq<Decl>, named: seq<Decl>, ks: seq<Node>, ls: seq<Node>, p: seq<nat>,
      x: string)
    requires Opens(e, ds, named, ks) && Old(x) && (e(x) == x || !Old(e(x)))
    requires forall k :: 0 <= k < |ds| ==> Old(ds[k].name)
    requires forall z :: NamesFunction(ls, z) <==> NamesFunction(ks, z)
    requires forall z :: NamesFunction(ks, z) ==> Old(z)
    requires !(Lexical(ds, x) && NamesFunction(ks, x)) && se(x) == te(e(x))
    ensures InBlock(se, ds, ks, p)(x) == InBlock(te, named, ls, p)(BlockNames(e, ds, named, ks)(x))
    ensures NamesFunction(ks, x) || (Lexical(ds, x) && x == PROTO) ==> BlockNames(e, ds, named, ks)(x) == x
    ensures Lexical(ds, x) && x != PROTO && !NamesFunction(ks, x) ==>
      !Old(BlockNames(e, ds, named, ks)(x)) && InBlock(te, named, ls, p)(x) == te(x)
    ensures !Lexical(ds, x) && !NamesFunction(ks, x) ==>
      BlockNames(e, ds, named, ks)(x) == e(x) && InBlock(te, named, ls, p)(x) == te(x)
  {
    hide Old;
    if NamesFunction(ks, x) {
    } else if Lexical(ds, x) {
      NamedFirst(e, ds, named, ks, x);
      if x != PROTO { LexicalIsRenamed(e, ds, named, ks, x); }
    } else {
      NotNamed(e, ds, named, ks, x);
    }
  }

  lemma LexicalIsRenamed(e: Names, ds: seq<Decl>, named: seq<Decl>, ks: seq<Node>, x: string)
    requires Opens(e, ds, named, ks) && Old(x) && x != PROTO && !NamesFunction(ks, x)
    ensures !Lexical(named, x)
  {
  }

  lemma AgreeInBlock(e: Names, h: Hidden, se: Env, te: Env, s: Node, t: Node, p: seq<nat>)
    requires Agree(e, h, se, te) && UpTo(te, |p|) && e(PROTO) == PROTO
    requires s.Block? && OldNames(s) && Proper(s) && Ren(s, t, e)
    ensures Agree(BlockNames(e, s.decls, t.decls, s.kids), HiddenInBlock(h, s.decls, s.kids),
                  InBlock(se, s.decls, s.kids, p), InBlock(te, t.decls, t.kids, p))
    ensures BlockNames(e, s.decls, t.decls, s.kids)(PROTO) == PROTO
  {
    var ds, ks, named, ls := s.decls, s.kids, t.decls, t.kids;
    forall z ensures NamesFunction(ls, z) <==> NamesFunction(ks, z)
      ensures NamesFunction(ks, z) ==> Old(z)
    {
      SameFunctions(ks, ls, BlockNames(e, ds, named, ks), z);
      if NamesFunction(ks, z) { FunctionsAreOld(ks, z); }
    }
    forall k | 0 <= k < |ds| ensures Old(ds[k].name) {}
    hide Ren, OldNames, Proper, Old, Opens, NamesFunction, Lexical;
    forall x | Old(x)
      ensures AgreeAt(BlockNames(e, ds, named, ks), HiddenInBlock(h, ds, ks), InBlock(se, ds, ks, p),
                      InBlock(te, named, ls, p), x)
    {
      assert AgreeAt(e, h, se, te, x);
      LeadsTo(e, se, te, ds, named, ks, ls, p, x);
    }
    ProtoIsOld();
    LeadsTo(e, se, te, ds, named, ks, ls, p, PROTO);
  }

  lemma AgreeInFunction(e: Names, h: Hidden, se: Env, te: Env, own: seq<string>, ps: seq<Param>, p: seq<nat>)
    requires Agree(e, h, se, te) && forall x :: x in own || IsParam(ps, x) ==> Old(x)
    ensures Agree(OwnNames(e, own, ps), HiddenInFunction(h, own, ps), InFunction(se, own, ps, p),
                  InFunction(te, own, ps, p))
  {
    hide Old, IsParam;
    forall x | Old(x)
      ensures AgreeAt(OwnNames(e, own, ps), HiddenInFunction(h, own, ps), InFunction(se, own, ps, p),
                      InFunction(te, own, ps, p), x)
    {
      assert AgreeAt(e, h, se, te, x);
    }
  }

  lemma AgreeInBody(e: Names, h: Hidden, se: Env, te: Env, b: Node, t: Node, p: seq<nat>)
    requires Agree(e, h, se, te) && !b.Block?
    requires forall x :: (Hoisted(t, x) <==> Hoisted(b, x)) && (Hoisted(b, x) ==> Old(x))
    ensures Agree(BodyNames(e, b), HiddenInBody(h, b), InBody(se, b, p), InBody(te, t, p))
  {
    hide Old, Hoisted, Lexical;
    forall x | Old(x)
      ensures AgreeAt(BodyNames(e, b), HiddenInBody(h, b), InBody(se, b, p), InBody(te, t, p), x)
    {
      assert AgreeAt(e, h, se, te, x);
    }
  }

  lemma AgreeInBodyBlock(e: Names, h: Hidden, se: Env, te: Env, b: Node, t: Node, p: seq<nat>, q: seq<nat>)
    requires Agree(e, h, se, te) && b.Block? && t.Block? && t.decls == b.decls
    requires forall x :: (Hoisted(t, x) <==> Hoisted(b, x)) && (Hoisted(b, x) ==> Old(x))
    requires forall x :: NamesFunction(t.kids, x) <==> NamesFunction(b.kids, x)
    requires forall x :: NamesFunction(b.kids, x) ==> Hoisted(b, x)
    requires forall x :: Lexical(b.decls, x) ==> Old(x)
    ensures Agree(BodyNames(e, b), HiddenInBody(h, b), InBlock(InBody(se, b, p), b.decls, b.kids, q),
                  InBlock(InBody(te, t, p), t.decls, t.kids, q))
  {
    hide Old, Hoisted, Lexical, NamesFunction;
    forall x | Old(x)
      ensures AgreeAt(BodyNames(e, b), HiddenInBody(h, b), InBlock(InBody(se, b, p), b.decls, b.kids, q),
                      InBlock(InBody(te, t, p), t.decls, t.kids, q), x)
    {
      assert AgreeAt(e, h, se, te, x);
    }
  }

  /** The renaming leaves alone what is declared in the whole function. */
  lemma {:induction false} RenHoists(s: Node, t: Node, e: Names, x: string)
    requires Ren(s, t, e)
    ensures Hoisted(t, x) <==> Hoisted(s, x)
    decreases s
  {
    match s
    case Block(ds, ks) =>
      assert forall k :: 0 <= k < |ds| && ds[k].hoisted ==> t.decls[k].name == ds[k].name;
      assert ByVar(t.decls, x) <==> ByVar(ds, x);
      forall k | 0 <= k < |ks| ensures Hoisted(t.kids[k], x) <==> Hoisted(ks[k], x) {
        RenHoists(ks[k], t.kids[k], BlockNames(e, ds, t.decls, ks), x);
      }
    case Labelled(_, b) => RenHoists(b, t.stmt, e, x);
    case _ =>
  }

  lemma BodyHoists(s: Node, t: Node, e: Names, x: string)
    requires RenBody(s, t, e)
    ensures Hoisted(t, x) <==> Hoisted(s, x)
  {
    if s.Block? {
      forall k | 0 <= k < |s.kids| ensures Hoisted(t.kids[k], x) <==> Hoisted(s.kids[k], x) {
        RenHoists(s.kids[k], t.kids[k], e, x);
      }
    } else {
      RenHoists(s, t, e, x);
    }
  }

  // ---------- the meaning of the renamed program ----------

  /** A default value within a pattern is left as it is. */
  lemma KeptGroup(s: Node, e: Names, h: Hidden, se: Env, te: Env, p: seq<nat>)
    requires s.Group? && s.inPattern && OldNames(s) && Proper(s) && Agree(e, h, se, te)
    ensures Same(s, s, se, te, p) <==> Clear(s, h)
  {
    OneTree(s, se, te, p);
    hide Proper, Same, Old, OldNames, Free;
    forall x | Free(s, x) ensures se(x) == te(x) <==> !h(x) {
      FreeIsOld(s, x);
      assert AgreeAt(e, h, se, te, x);
    }
  }

  /** Every identifier refers to the same declaration after the renaming, exactly if the tree is clear. */
  lemma {:induction false} RenamingKeeps(s: Node, t: Node, e: Names, h: Hidden, se: Env, te: Env, p: seq<nat>)
    requires Ren(s, t, e) && OldNames(s) && Proper(s) && Agree(e, h, se, te) && e(PROTO) == PROTO
    requires UpTo(se, |p|) && UpTo(te, |p|) && (s.Named? ==> e(s.name) == s.name)
    ensures Same(s, t, se, te, p) <==> Clear(s, h)
    decreases s, 1
  {
    match s
    case Id(y) => assert AgreeAt(e, h, se, te, y);
    case Group(m, ks) =>
      if m {
        KeptGroup(s, e, h, se, te, p);
      } else {
        KidsKeep(ks, t.kids, e, h, se, te, p);
      }
    case Block(ds, ks) => BlockKeeps(s, t, e, h, se, te, p);
    case Labelled(_, b) => RenamingKeeps(b, t.stmt, e, h, se, te, p + [0]);
    case Jump(_) =>
    case Named(y, f) =>
      AgreeInNamed(e, h, se, te, y);
      RenamingKeeps(f, t.fn, SelfName(e, y), x => x != y && h(x), se, te, p + [0]);
    case Fn(_, _, _, _) => FunctionKeeps(s, t, e, h, se, te, p);
  }

  lemma AgreeInNamed(e: Names, h: Hidden, se: Env, te: Env, y: string)
    requires Agree(e, h, se, te) && e(y) == y
    ensures Agree(SelfName(e, y), x => x != y && h(x), se, te)
  {
    hide Old;
    forall x | Old(x) ensures AgreeAt(SelfName(e, y), x => x != y && h(x), se, te, x) {
      assert AgreeAt(e, h, se, te, x);
    }
  }

  lemma {:induction false} BlockKeeps(s: Node, t: Node, e: Names, h: Hidden, se: Env, te: Env, p: seq<nat>)
    requires Ren(s, t, e) && OldNames(s) && Proper(s) && Agree(e, h, se, te) && e(PROTO) == PROTO
    requires UpTo(se, |p|) && UpTo(te, |p|) && s.Block?
    ensures Same(s, t, se, te, p) <==> Clear(s, h)
    decreases s, 0
  {
    var ds, ks := s.decls, s.kids;
    var e', h' := BlockNames(e, ds, t.decls, ks), HiddenInBlock(h, ds, ks);
    var se', te' := InBlock(se, ds, ks, p), InBlock(te, t.decls, t.kids, p);
    AgreeInBlock(e, h, se, te, s, t, p);
    forall k | 0 <= k < |ks| && ks[k].Named? ensures NamesFunction(ks, ks[k].name) {}
    KidsKeep(ks, t.kids, e', h', se', te', p);
    forall k | 0 <= k < |ds| ensures SameDecl(ds[k], t.decls[k], se', te') <==> ds[k].hoisted ==> !h'(ds[k].name) {
      assert AgreeAt(e', h', se', te', ds[k].name);
    }
  }

  lemma {:induction false} FunctionKeeps(s: Node, t: Node, e: Names, h: Hidden, se: Env, te: Env, p: seq<nat>)
    requires Ren(s, t, e) && OldNames(s) && Proper(s) && Agree(e, h, se, te) && e(PROTO) == PROTO
    requires UpTo(se, |p|) && UpTo(te, |p|) && s.Fn?
    ensures Same(s, t, se, te, p) <==> Clear(s, h)
    decreases s, 0
  {
    var own, ps, vs, b := s.own, s.params, s.defaults, s.body;
    var e1, h1 := OwnNames(e, own, ps), HiddenInFunction(h, own, ps);
    var se1, te1 := InFunction(se, own, ps, p), InFunction(te, own, ps, p);
    AgreeInFunction(e, h, se, te, own, ps, p);
    KidsKeep(vs, t.defaults, e1, h1, se1, te1, p);
    BodyKeeps(b, t.body, e1, h1, se1, te1, p, p + [|vs|]);
  }

  lemma {:induction false} BodyKeeps(b: Node, t: Node, e: Names, h: Hidden, se: Env, te: Env, p: seq<nat>, q: seq<nat>)
    requires RenBody(b, t, BodyNames(e, b)) && OldNames(b) && Proper(b) && !b.Named? && Agree(e, h, se, te)
    requires e(PROTO) == PROTO && |q| == |p| + 1 && UpTo(se, |q|) && UpTo(te, |q|)
    ensures Same(b, t, InBody(se, b, p), InBody(te, t, p), q) <==> ClearBody(b, HiddenInBody(h, b))
    decreases b, 2
  {
    var e', h' := BodyNames(e, b), HiddenInBody(h, b);
    var se', te' := InBody(se, b, p), InBody(te, t, p);
    forall x ensures Hoisted(t, x) <==> Hoisted(b, x)
      ensures Hoisted(b, x) ==> Old(x)
    {
      BodyHoists(b, t, e', x);
      if Hoisted(b, x) { FreeIsOld(b, x); }
    }
    if b.Block? {
      BodyBlockKeeps(b, t, e, h, se, te, p, q);
    } else {
      AgreeInBody(e, h, se, te, b, t, p);
      RenamingKeeps(b, t, e', h', se', te', q);
    }
  }

  lemma {:induction false} BodyBlockKeeps(b: Node, t: Node, e: Names, h: Hidden, se: Env, te: Env, p: seq<nat>,
      q: seq<nat>)
    requires RenBody(b, t, BodyNames(e, b)) && OldNames(b) && Proper(b) && b.Block? && Agree(e, h, se, te)
    requires e(PROTO) == PROTO && |q| == |p| + 1 && UpTo(se, |q|) && UpTo(te, |q|)
    requires forall x :: (Hoisted(t, x) <==> Hoisted(b, x)) && (Hoisted(b, x) ==> Old(x))
    ensures Same(b, t, InBody(se, b, p), InBody(te, t, p), q) <==> ClearBody(b, HiddenInBody(h, b))
    decreases b, 1
  {
    hide Hoisted, Lexical, NamesFunction, Agree, IsParam, Old;
    var e', h' := BodyNames(e, b), HiddenInBody(h, b);
    var ds, ks := b.decls, b.kids;
    FunctionsHoist(b);
    forall x ensures NamesFunction(t.kids, x) <==> NamesFunction(ks, x) {
      SameFunctions(ks, t.kids, e', x);
    }
    forall x | Lexical(ds, x) ensures Old(x) { LexicalIsOld(b, x); }
    AgreeInBodyBlock(e, h, se, te, b, t, p, q);
    var se2, te2 := InBlock(InBody(se, b, p), ds, ks, q), InBlock(InBody(te, t, p), t.decls, t.kids, q);
    BodyDecls(b, t, se, te, p, q);
    KidsKeep(ks, t.kids, e', h', se2, te2, q);
  }

  /** What a body declares by var is its own before and after. */
  lemma BodyDecls(b: Node, t: Node, se: Env, te: Env, p: seq<nat>, q: seq<nat>)
    requires b.Block? && t.Block? && t.decls == b.decls && forall x :: Hoisted(t, x) <==> Hoisted(b, x)
    requires forall x :: NamesFunction(t.kids, x) <==> NamesFunction(b.kids, x)
    ensures forall k :: 0 <= k < |b.decls| ==>
      SameDecl(b.decls[k], b.decls[k], InBlock(InBody(se, b, p), b.decls, b.kids, q),
               InBlock(InBody(te, t, p), t.decls, t.kids, q))
  {
    forall k | 0 <= k < |b.decls| && b.decls[k].hoisted ensures Hoisted(b, b.decls[k].name) {
      assert ByVar(b.decls, b.decls[k].name);
    }
  }

  lemma {:induction false} KidsKeep(ks: seq<Node>, ls: seq<Node>, e: Names, h: Hidden, se: Env, te: Env, p: seq<nat>)
    requires |ls| == |ks| && Agree(e, h, se, te) && e(PROTO) == PROTO && UpTo(se, |p| + 1) && UpTo(te, |p| + 1)
    requires forall k :: 0 <= k < |ks| ==>
      Ren(ks[k], ls[k], e) && OldNames(ks[k]) && Proper(ks[k]) && (ks[k].Named? ==> e(ks[k].name) == ks[k].name)
    ensures forall k :: 0 <= k < |ks| ==> (Same(ks[k], ls[k], se, te, p + [k]) <==> Clear(ks[k], h))
    decreases ks, 0
  {
    forall k | 0 <= k < |ks| ensures Same(ks[k], ls[k], se, te, p + [k]) <==> Clear(ks[k], h) {
      RenamingKeeps(ks[k], ls[k], e, h, se, te, p + [k]);
    }
  }

  lemma FunctionsHoist(b: Node)
    requires b.Block?
    ensures forall k :: 0 <= k < |b.kids| && b.kids[k].Named? ==> Hoisted(b, b.kids[k].name)
    ensures forall x :: NamesFunction(b.kids, x) ==> Hoisted(b, x)
  {
    forall k | 0 <= k < |b.kids| && b.kids[k].Named? ensures Hoisted(b, b.kids[k].name) {
      assert Hoisted(b.kids[k], b.kids[k].name);
    }
  }

  lemma LexicalIsOld(b: Node, x: string)
    requires b.Block? && OldNames(b) && Lexical(b.decls, x)
    ensures Old(x)
  {
  }

  // ---------- the bodies of renamed functions ----------

  /** A name that stands in a renamed tree outside its block is of the source, or what a name of the source stands
      for. */
  lemma {:induction false} StandsFrom(s: Node, t: Node, e: Names, z: string)
    requires Ren(s, t, e) && OldNames(s) && Stands(t, z)
    ensures Old(z) || exists x :: Old(x) && e(x) == z
    decreases s, 0
  {
    match s
    case Id(y) =>
    case Group(m, ks) =>
      var k :| 0 <= k < |t.kids| && Stands(t.kids[k], z);
      if m { StandsIsOld(ks[k], z); } else { StandsFrom(ks[k], t.kids[k], e, z); }
    case Block(ds, ks) =>
      if !Declared(t.decls, z) {
        var k :| 0 <= k < |ks| && Stands(t.kids[k], z);
        StandsFrom(ks[k], t.kids[k], BlockNames(e, ds, t.decls, ks), z);
        if !Old(z) {
          var x :| Old(x) && BlockNames(e, ds, t.decls, ks)(x) == z;
          if Lexical(ds, x) { NamedFirst(e, ds, t.decls, ks, x); }
        }
      }
    case Labelled(_, b) => if z != t.tag { StandsFrom(b, t.stmt, e, z); }
    case Jump(_) =>
    case Named(y, f) => if z != y { StandsFrom(f, t.fn, SelfName(e, y), z); }
    case Fn(own, ps, vs, b) =>
      if z !in own && !IsParam(ps, z) {
        if k :| 0 <= k < |vs| && Stands(t.defaults[k], z) {
          StandsFrom(vs[k], t.defaults[k], OwnNames(e, own, ps), z);
        } else {
          StandsFromBody(b, t.body, BodyNames(OwnNames(e, own, ps), b), z);
        }
      }
  }

  lemma {:induction false} StandsFromBody(b: Node, t: Node, e: Names, z: string)
    requires RenBody(b, t, e) && OldNames(b) && Stands(t, z)
    ensures Old(z) || exists x :: Old(x) && e(x) == z
    decreases b, 1
  {
    if b.Block? {
      if !Declared(t.decls, z) {
        var k :| 0 <= k < |b.kids| && Stands(t.kids[k], z);
        StandsFrom(b.kids[k], t.kids[k], e, z);
      }
    } else {
      StandsFrom(b, t, e, z);
    }
  }

  lemma {:induction false} StandsIsOld(n: Node, z: string)
    requires OldNames(n) && Stands(n, z)
    ensures Old(z)
    decreases n
  {
    match n
    case Id(_) =>
    case Group(_, ks) =>
      var k :| 0 <= k < |ks| && Stands(ks[k], z);
      StandsIsOld(ks[k], z);
    case Block(ds, ks) =>
      if !Declared(ds, z) {
        var k :| 0 <= k < |ks| && Stands(ks[k], z);
        StandsIsOld(ks[k], z);
      }
    case Labelled(l, b) => if z != l { StandsIsOld(b, z); }
    case Jump(_) =>
    case Named(y, f) => if z != y { StandsIsOld(f, z); }
    case Fn(own, ps, vs, b) =>
      if z !in own && !IsParam(ps, z) {
        if k :| 0 <= k < |vs| && Stands(vs[k], z) { StandsIsOld(vs[k], z); } else { StandsIsOld(b, z); }
      }
  }

  /** What the blocks of a tree declare has got its name between two states of the counter. */
  ghost predicate Counted(t: Node, lo: nat, hi: nat) {
    forall z :: BlockDeclares(t, z) && z != PROTO ==> Numbered(z, lo, hi)
  }

  ghost predicate InnerCounted(t: Node, lo: nat, hi: nat) {
    forall z :: InnerDeclares(t, z) && z != PROTO ==> Numbered(z, lo, hi)
  }

  /** f is a function of n that the renaming gets to: it does not enter default values within patterns. */
  predicate Reached(n: Node, f: Node) {
    match n
    case Id(_) => false
    case Group(m, ks) => !m && exists k :: 0 <= k < |ks| && Reached(ks[k], f)
    case Block(_, ks) => exists k :: 0 <= k < |ks| && Reached(ks[k], f)
    case Labelled(_, b) => Reached(b, f)
    case Jump(_) => false
    case Named(_, g) => Reached(g, f)
    case Fn(_, _, vs, b) => f == n || (exists k :: 0 <= k < |vs| && Reached(vs[k], f)) || Reached(b, f)
  }

  /** In every function that is reached, no inner block declares what stands outside it. */
  ghost predicate Separate(t: Node) {
    forall f, x :: Reached(t, f) && f.Fn? && x != PROTO ==> Renamed(f.body, x)
  }

  /** All names of the source stand for themselves or for a name given by now. */
  ghost predicate Given(e: Names, c: nat) {
    e(PROTO) == PROTO && forall x :: Old(x) ==> e(x) == x || Numbered(e(x), 0, c)
  }

  /** A body whose inner blocks got their names later than everything around it. */
  lemma BodyIsSeparate(b: Node, t: Node, e: Names, lo: nat, hi: nat)
    requires RenBody(b, t, e) && OldNames(b) && Given(e, lo) && InnerCounted(t, lo, hi)
    ensures forall x :: x != PROTO ==> Renamed(t, x)
  {
    forall x | x != PROTO && InnerDeclares(t, x) ensures !Stands(t, x) {
      if Stands(t, x) {
        StandsFromBody(b, t, e, x);
        var y, k: nat :| lo < k <= hi && x == NameOf(y, k);
        var w :| Old(w) && e(w) == x;
        NumbersApart(x, 0, lo, hi);
      }
    }
  }

  // ---------- the pass ----------

  type Frame = map<string, string>

  function LookIn(scopes: seq<Frame>, x: string): string {
    if scopes == [] then x
    else
      var top := scopes[|scopes| - 1];
      if x in top then top[x] else LookIn(scopes[..|scopes| - 1], x)
  }

  ghost predicate Stand(scopes: seq<Frame>, e: Names) {
    forall x :: e(x) == LookIn(scopes, x)
  }

  /** Names that keep themselves. */
  ghost predicate Keeps(f: Frame) {
    forall x :: x in f ==> f[x] == x
  }

  /** bsCollectStmtNames: what is declared in the whole function is entered under its own name. */
  method CollectHoisted(n: Node, frame: Frame) returns (out: Frame)
    requires Keeps(frame)
    ensures Keeps(out) && forall x :: x in out <==> x in frame || (x != PROTO && Hoisted(n, x))
    decreases n
  {
    out := frame;
    match n
    case Block(ds, ks) =>
      var k := 0;
      while k < |ds|
        invariant 0 <= k <= |ds| && Keeps(out)
        invariant forall x :: x in out <==>
          x in frame || (x != PROTO && exists j :: 0 <= j < k && ds[j].hoisted && ds[j].name == x)
      {
        if ds[k].hoisted && ds[k].name != PROTO { out := out[ds[k].name := ds[k].name]; }
        k := k + 1;
      }
      ghost var first := out;
      k := 0;
      while k < |ks|
        invariant 0 <= k <= |ks| && Keeps(out)
        invariant forall x :: x in out <==>
          x in first || (x != PROTO && exists j :: 0 <= j < k && Hoisted(ks[j], x))
      {
        out := CollectHoisted(ks[k], out);
        k := k + 1;
      }
    case Labelled(_, b) => out := CollectHoisted(b, out);
    case Named(y, _) => if y != PROTO { out := out[y := y]; }
    case _ =>
  }

  /** At the top of a body the names declared by let and const are entered, too. */
  method CollectBody(b: Node, frame: Frame) returns (out: Frame)
    requires Keeps(frame)
    ensures Keeps(out)
    ensures forall x :: x in out <==>
      x in frame || (x != PROTO && (Hoisted(b, x) || (b.Block? && Lexical(b.decls, x))))
  {
    out := CollectHoisted(b, frame);
    if b.Block? {
      ghost var first := out;
      var k := 0;
      while k < |b.decls|
        invariant 0 <= k <= |b.decls| && Keeps(out)
        invariant forall x :: x in out <==>
          x in first || (x != PROTO && exists j :: 0 <= j < k && !b.decls[j].hoisted && b.decls[j].name == x)
      {
        if !b.decls[k].hoisted && b.decls[k].name != PROTO { out := out[b.decls[k].name := b.decls[k].name]; }
        k := k + 1;
      }
    }
  }

  method CollectParams(own: seq<string>, ps: seq<Param>) returns (out: Frame)
    ensures Keeps(out) && forall x :: x in out <==> x != PROTO && (x in own || IsParam(ps, x))
  {
    out := map[];
    var k := 0;
    while k < |own|
      invariant 0 <= k <= |own| && Keeps(out)
      invariant forall x :: x in out <==> x != PROTO && x in own[..k]
    {
      if own[k] != PROTO { out := out[own[k] := own[k]]; }
      k := k + 1;
    }
    ghost var first := out;
    k := 0;
    while k < |ps|
      invariant 0 <= k <= |ps| && Keeps(out)
      invariant forall x :: x in out <==> x in first || (x != PROTO && exists j :: 0 <= j < k && ps[j].name == x)
    {
      if ps[k].name != PROTO { out := out[ps[k].name := ps[k].name]; }
      k := k + 1;
    }
  }

  /** The frame of the functions declared in a block: they keep their names. */
  method CollectFunctions(ks: seq<Node>) returns (out: Frame)
    ensures Keeps(out) && forall x :: x in out <==> x != PROTO && NamesFunction(ks, x)
  {
    out := map[];
    var k := 0;
    while k < |ks|
      invariant 0 <= k <= |ks| && Keeps(out)
      invariant forall x :: x in out <==>
        x != PROTO && exists j :: 0 <= j < k && ks[j].Named? && ks[j].name == x
    {
      if ks[k].Named? && ks[k].name != PROTO { out := out[ks[k].name := ks[k].name]; }
      k := k + 1;
    }
  }

  ghost predicate NumberedFor(z: string, x: string, lo: nat, hi: nat) {
    exists k: nat :: lo < k <= hi && z == NameOf(x, k)
  }

  /** The frame of a block: its functions under their names, what it declares by let, const or catch under new ones. */
  ghost predicate BlockFrame(f: Frame, ds: seq<Decl>, upTo: nat, ks: seq<Node>, lo: nat, hi: nat)
    requires upTo <= |ds|
  {
    forall x ::
      && (x in f <==>
            x != PROTO && (NamesFunction(ks, x) || exists j :: 0 <= j < upTo && !ds[j].hoisted && ds[j].name == x))
      && (x in f ==> if NamesFunction(ks, x) then f[x] == x else NumberedFor(f[x], x, lo, hi))
  }

  function NewDecl(d: Decl, f: Frame): Decl {
    if !d.hoisted && d.name in f then d.(name := f[d.name]) else d
  }

  lemma GivenIsApart(z: string, x: string, e: Names, lo: nat, hi: nat)
    requires Given(e, lo) && NumberedFor(z, x, lo, hi)
    ensures Fresh(z, e) && Numbered(z, lo, hi)
  {
    var k: nat :| lo < k <= hi && z == NameOf(x, k);
    forall y | Old(y) ensures e(y) != z {
      if e(y) == z { NumbersApart(z, 0, lo, hi); }
    }
  }

  lemma FrameOpens(e: Names, ds: seq<Decl>, named: seq<Decl>, ks: seq<Node>, f: Frame, lo: nat, hi: nat)
    requires Given(e, lo) && BlockFrame(f, ds, |ds|, ks, lo, hi)
    requires |named| == |ds| && forall k :: 0 <= k < |ds| ==> named[k] == NewDecl(ds[k], f)
    ensures Opens(e, ds, named, ks)
    ensures forall k :: 0 <= k < |ds| && !Kept(ds[k], ks) ==> Numbered(named[k].name, lo, hi)
  {
    forall k | 0 <= k < |ds| && !Kept(ds[k], ks)
      ensures Fresh(named[k].name, e) && Numbered(named[k].name, lo, hi)
    {
      GivenIsApart(f[ds[k].name], ds[k].name, e, lo, hi);
    }
    forall j, k | 0 <= j < |ds| && 0 <= k < |ds| && !Kept(ds[j], ks) && !Kept(ds[k], ks)
      ensures named[j].name == named[k].name <==> ds[j].name == ds[k].name
    {
      var x, y := ds[j].name, ds[k].name;
      var m: nat :| lo < m <= hi && f[x] == NameOf(x, m);
      var n: nat :| lo < n <= hi && f[y] == NameOf(y, n);
      if f[x] == f[y] { NewNameReads(x, m, y, n); }
    }
  }

  lemma FrameStands(e: Names, ds: seq<Decl>, named: seq<Decl>, ks: seq<Node>, scopes: seq<Frame>, f: Frame, lo: nat,
      hi: nat)
    requires Stand(scopes, e) && Given(e, lo) && lo <= hi && BlockFrame(f, ds, |ds|, ks, lo, hi)
    requires |named| == |ds| && forall k :: 0 <= k < |ds| ==> named[k] == NewDecl(ds[k], f)
    ensures Stand(scopes + [f], BlockNames(e, ds, named, ks)) && Given(BlockNames(e, ds, named, ks), hi)
  {
    var e' := BlockNames(e, ds, named, ks);
    forall x ensures e'(x) == LookIn(scopes + [f], x) && (Old(x) ==> e'(x) == x || Numbered(e'(x), 0, hi)) {
      assert (scopes + [f])[..|scopes|] == scopes;
      if x in f && !NamesFunction(ks, x) {
        GivenIsApart(f[x], x, e, lo, hi);
      }
    }
  }

  lemma Widened(t: Node, lo: nat, mid: nat, hi: nat, more: nat)
    requires Counted(t, mid, hi) && lo <= mid && hi <= more
    ensures Counted(t, lo, more)
  {
  }

  lemma BlockIsCounted(t: Node, ds: seq<Decl>, ks: seq<Node>, lo: nat, mid: nat, hi: nat)
    requires t.Block? && |t.decls| == |ds| && lo <= mid <= hi
    requires forall x :: !(Lexical(ds, x) && NamesFunction(ks, x))
    requires forall k :: 0 <= k < |ds| ==> t.decls[k].hoisted == ds[k].hoisted
    requires forall k :: 0 <= k < |ds| ==>
      if Kept(ds[k], ks) then t.decls[k].name == ds[k].name else Numbered(t.decls[k].name, lo, mid)
    requires forall k :: 0 <= k < |t.kids| ==> Counted(t.kids[k], mid, hi)
    ensures Counted(t, lo, hi)
  {
    forall z | Lexical(t.decls, z) && z != PROTO ensures Numbered(z, lo, hi) {
      var k :| 0 <= k < |t.decls| && !t.decls[k].hoisted && t.decls[k].name == z;
      if Kept(ds[k], ks) { assert Lexical(ds, ds[k].name); }
    }
  }

  /** A frame of names that keep themselves. */
  lemma FrameKeeps(e: Names, e': Names, scopes: seq<Frame>, f: Frame, c: nat)
    requires Stand(scopes, e) && Given(e, c) && Keeps(f)
    requires forall x :: e'(x) == if x in f then x else e(x)
    ensures Stand(scopes + [f], e') && Given(e', c)
  {
    assert (scopes + [f])[..|scopes|] == scopes;
  }

  lemma FunctionDone(n: Node, t: Node, e: Names, lo: nat, hi: nat)
    requires n.Fn? && t.Fn? && t.own == n.own && t.params == n.params && |t.defaults| == |n.defaults|
    requires forall k :: 0 <= k < |n.defaults| ==>
      Ren(n.defaults[k], t.defaults[k], OwnNames(e, n.own, n.params)) && Separate(t.defaults[k])
    requires RenBody(n.body, t.body, BodyNames(OwnNames(e, n.own, n.params), n.body)) && Separate(t.body)
    requires forall x :: x != PROTO ==> Renamed(t.body, x)
    ensures Ren(n, t, e) && Counted(t, lo, hi) && Separate(t)
  {
    hide Renamed, IsParam, Hoisted, Lexical;
  }

  lemma BodyDone(b: Node, t: Node, e: Names, lo: nat, hi: nat)
    requires OldNames(b) && Given(e, lo)
    requires if b.Block? then
      && t.Block? && t.decls == b.decls && |t.kids| == |b.kids|
      && forall k :: 0 <= k < |b.kids| ==>
           Ren(b.kids[k], t.kids[k], e) && Counted(t.kids[k], lo, hi) && Separate(t.kids[k])
      else Ren(b, t, e) && Counted(t, lo, hi) && Separate(t)
    ensures RenBody(b, t, e) && Separate(t) && forall x :: x != PROTO ==> Renamed(t, x)
  {
    hide OldNames, Given, Ren, Renamed;
    if b.Block? {
      assert forall k, f :: 0 <= k < |t.kids| && Reached(t.kids[k], f) ==> Reached(t, f);
    }
    assert InnerCounted(t, lo, hi);
    BodyIsSeparate(b, t, e, lo, hi);
  }

  /** The state of the pass: the counter of new names, and a frame for every scope it is in. */
  class Renamer {
    var c: nat
    var scopes: seq<Frame>

    constructor ()
      ensures c == 0 && scopes == []
    {
      c, scopes := 0, [];
    }

    method NewName(x: string) returns (z: string)
      modifies this`c
      ensures c == old(c) + 1 && z == NameOf(x, c)
    {
      c := c + 1;
      z := NameOf(x, c);
    }

    method Lookup(x: string) returns (z: string)
      ensures z == LookIn(scopes, x)
    {
      var i := |scopes|;
      assert scopes[..i] == scopes;
      while i > 0 && x !in scopes[i - 1]
        invariant 0 <= i <= |scopes| && LookIn(scopes, x) == LookIn(scopes[..i], x)
      {
        assert scopes[..i][..i - 1] == scopes[..i - 1];
        i := i - 1;
      }
      z := if i > 0 then scopes[i - 1][x] else x;
    }

    /** bsPrescanLets and the declarations it makes new names for. */
    method Prescan(ds: seq<Decl>, ks: seq<Node>) returns (f: Frame, named: seq<Decl>)
      modifies this`c
      ensures c >= old(c) && BlockFrame(f, ds, |ds|, ks, old(c), c)
      ensures |named| == |ds| && forall k :: 0 <= k < |ds| ==> named[k] == NewDecl(ds[k], f)
    {
      f := CollectFunctions(ks);
      var k := 0;
      while k < |ds|
        invariant 0 <= k <= |ds| && c >= old(c) && BlockFrame(f, ds, k, ks, old(c), c)
      {
        var x := ds[k].name;
        if !ds[k].hoisted && x != PROTO && x !in f {
          var z := NewName(x);
          f := f[x := z];
        }
        k := k + 1;
      }
      named := [];
      k := 0;
      while k < |ds|
        invariant 0 <= k <= |ds| && |named| == k && forall j :: 0 <= j < k ==> named[j] == NewDecl(ds[j], f)
      {
        named := named + [NewDecl(ds[k], f)];
        k := k + 1;
      }
    }

    method Walk(n: Node, ghost e: Names) returns (t: Node)
      requires Stand(scopes, e) && Given(e, c) && OldNames(n) && Proper(n)
      modifies this
      ensures scopes == old(scopes) && c >= old(c)
      ensures Ren(n, t, e) && Counted(t, old(c), c) && Separate(t)
      decreases n, 1
    {
      match n
      case Id(y) =>
        var z := Lookup(y);
        t := Id(z);
      case Group(m, ks) =>
        if m {
          t := n;
        } else {
          var ls := WalkAll(ks, e);
          t := Group(false, ls);
        }
      case Block(_, _) => t := WalkBlock(n, e);
      case Labelled(l, b) =>
        var b' := Walk(b, e);
        t := Labelled(l, b');
      case Jump(_) => t := n;
      case Named(y, f) =>
        var frame: Frame := if y == PROTO then map[] else map[y := y];
        FrameKeeps(e, SelfName(e, y), scopes, frame, c);
        var f' := WalkOneUnder(f, frame, SelfName(e, y));
        t := Named(y, f');
      case Fn(_, _, _, _) => t := WalkFunction(n, e);
    }

    method WalkAll(ks: seq<Node>, ghost e: Names) returns (ls: seq<Node>)
      requires Stand(scopes, e) && Given(e, c) && forall k :: 0 <= k < |ks| ==> OldNames(ks[k]) && Proper(ks[k])
      modifies this
      ensures scopes == old(scopes) && c >= old(c) && |ls| == |ks|
      ensures forall k :: 0 <= k < |ks| ==> Ren(ks[k], ls[k], e) && Counted(ls[k], old(c), c) && Separate(ls[k])
      decreases ks, 0
    {
      ls := [];
      var k := 0;
      while k < |ks|
        invariant 0 <= k <= |ks| && |ls| == k && scopes == old(scopes) && c >= old(c)
        invariant forall j :: 0 <= j < k ==> Ren(ks[j], ls[j], e) && Counted(ls[j], old(c), c) && Separate(ls[j])
      {
        var l := Walk(ks[k], e);
        ls := ls + [l];
        k := k + 1;
      }
    }

    /** The same with one more frame. */
    method WalkUnder(ks: seq<Node>, f: Frame, ghost e: Names) returns (ls: seq<Node>)
      requires Stand(scopes + [f], e) && Given(e, c) && forall k :: 0 <= k < |ks| ==> OldNames(ks[k]) && Proper(ks[k])
      modifies this
      ensures scopes == old(scopes) && c >= old(c) && |ls| == |ks|
      ensures forall k :: 0 <= k < |ks| ==> Ren(ks[k], ls[k], e) && Counted(ls[k], old(c), c) && Separate(ls[k])
      decreases ks, 1
    {
      hide Stand, Given, OldNames, Proper, Ren, Counted, Separate;
      scopes := scopes + [f];
      ls := WalkAll(ks, e);
      scopes := scopes[..|scopes| - 1];
    }

    method WalkOneUnder(n: Node, f: Frame, ghost e: Names) returns (t: Node)
      requires Stand(scopes + [f], e) && Given(e, c) && OldNames(n) && Proper(n)
      modifies this
      ensures scopes == old(scopes) && c >= old(c)
      ensures Ren(n, t, e) && Counted(t, old(c), c) && Separate(t)
      decreases n, 2
    {
      hide Stand, Given, OldNames, Proper, Ren, Counted, Separate;
      scopes := scopes + [f];
      t := Walk(n, e);
      scopes := scopes[..|scopes| - 1];
    }

    method WalkBlock(n: Node, ghost e: Names) returns (t: Node)
      requires Stand(scopes, e) && Given(e, c) && OldNames(n) && Proper(n) && n.Block?
      modifies this
      ensures scopes == old(scopes) && c >= old(c)
      ensures Ren(n, t, e) && Counted(t, old(c), c) && Separate(t)
      decreases n, 0
    {
      var f, named := Prescan(n.decls, n.kids);
      ghost var mid := c;
      FrameOpens(e, n.decls, named, n.kids, f, old(c), c);
      FrameStands(e, n.decls, named, n.kids, scopes, f, old(c), c);
      var ls := WalkUnder(n.kids, f, BlockNames(e, n.decls, named, n.kids));
      t := Block(named, ls);
      BlockIsCounted(t, n.decls, n.kids, old(c), mid, c);
    }

    method WalkFunction(n: Node, ghost e: Names) returns (t: Node)
      requires Stand(scopes, e) && Given(e, c) && OldNames(n) && Proper(n) && n.Fn?
      modifies this
      ensures scopes == old(scopes) && c >= old(c)
      ensures Ren(n, t, e) && Counted(t, old(c), c) && Separate(t)
      decreases n, 0
    {
      var f := CollectParams(n.own, n.params);
      FrameKeeps(e, OwnNames(e, n.own, n.params), scopes, f, c);
      assert OldNames(n.body) && Proper(n.body);
      assert forall k :: 0 <= k < |n.defaults| ==> OldNames(n.defaults[k]) && Proper(n.defaults[k]);
      hide OldNames, Proper, Ren, RenBody, Separate, Counted, Renamed, IsParam;
      var vs := WalkUnder(n.defaults, f, OwnNames(e, n.own, n.params));
      var b := WalkBody(n.body, f, e, OwnNames(e, n.own, n.params));
      t := Fn(n.own, n.params, vs, b);
      FunctionDone(n, t, e, old(c), c);
    }

    /** A function's own frame with what its body declares, and the body in it. */
    method WalkBody(b: Node, f: Frame, ghost e: Names, ghost e1: Names) returns (t: Node)
      requires Stand(scopes, e) && Given(e, c) && OldNames(b) && Proper(b) && Keeps(f)
      requires Given(e1, c) && forall x :: e1(x) == if x in f then x else e(x)
      modifies this
      ensures scopes == old(scopes) && c >= old(c)
      ensures RenBody(b, t, BodyNames(e1, b)) && Separate(t) && forall x :: x != PROTO ==> Renamed(t, x)
      decreases b, 3
    {
      var frame := CollectBody(b, f);
      FrameKeeps(e, BodyNames(e1, b), scopes, frame, c);
      assert b.Block? ==> forall k :: 0 <= k < |b.kids| ==> OldNames(b.kids[k]) && Proper(b.kids[k]);
      hide OldNames, Proper, Ren, RenBody, Separate, Counted, InnerCounted, Renamed;
      hide Hoisted, Lexical, Given, Stand, Keeps;
      if b.Block? {
        var ls := WalkUnder(b.kids, frame, BodyNames(e1, b));
        t := Block(b.decls, ls);
      } else {
        t := WalkOneUnder(b, frame, BodyNames(e1, b));
      }
      BodyDone(b, t, BodyNames(e1, b), old(c), c);
    }
  }

  // ---------- whole programs ----------

  /** A program is the body of a function without parameters. */
  function Program(b: Node): Node {
    Fn([], [], [], b)
  }

  ghost predicate Source(b: Node) {
    OldNames(b) && Proper(Program(b))
  }

  const PLAIN: Names := x => x
  const NOTHING: Hidden := x => false
  const OUTSIDE: Env := x => Outside(x)

  /** No default value in a pattern uses a name that a block around it declares, and no var declares one. */
  ghost predicate ClearProgram(b: Node) {
    Clear(Program(b), NOTHING)
  }

  /** renameBlockScopedBindings: at the top of a program nothing is renamed. */
  method RenameBlockScopedBindings(b: Node) returns (t: Node)
    requires Source(b)
    ensures Ren(Program(b), Program(t), PLAIN)
    ensures Separate(Program(t))
  {
    var r := new Renamer();
    ProtoIsOld();
    t := r.WalkBody(b, map[], PLAIN, OwnNames(PLAIN, [], []));
  }

  /** The renaming of block scopes leaves every identifier of a program with its declaration if and only if the program
      is clear. */
  lemma ProgramKeeps(b: Node, t: Node)
    requires Source(b) && Ren(Program(b), Program(t), PLAIN)
    ensures Same(Program(b), Program(t), OUTSIDE, OUTSIDE, []) <==> ClearProgram(b)
  {
    assert OldNames(Program(b));
    RenamingKeeps(Program(b), Program(t), PLAIN, NOTHING, OUTSIDE, OUTSIDE, []);
  }

  /** A closure of the clear program uses a name from outside exactly if one of the renamed program does. */
  lemma UsesKept(b: Node, t: Node, x: string)
    requires Source(b) && Ren(Program(b), Program(t), PLAIN) && ClearProgram(b)
    ensures ClosureUses(t, x) <==> ClosureUses(b, x)
    ensures Free(Program(t), x) <==> Free(Program(b), x)
  {
    ProgramKeeps(b, t);
    assert RenBody(b, t, BodyNames(OwnNames(PLAIN, [], []), b));
    hide Proper, OldNames, Clear, RenBody, Ren, Free, ClosureUses, Hoisted;
    var se, te := InBody(InFunction(OUTSIDE, [], [], []), b, []), InBody(InFunction(OUTSIDE, [], [], []), t, []);
    var p: seq<nat> := [];
    assert p + [0] == [0];
    assert Same(Program(b), Program(t), OUTSIDE, OUTSIDE, p);
    assert Same(b, t, se, te, [0]);
    forall z ensures se(z) == te(z) && (se(z) == se(x) ==> z == x) {
      BodyHoists(b, t, BodyNames(OwnNames(PLAIN, [], []), b), z);
    }
    SameBack(b, t, se, te, [0]);
    if ClosureUses(b, x) { var z := UseGoesAlong(b, t, se, te, [0], x); }
    if ClosureUses(t, x) { var z := UseGoesAlong(t, b, te, se, [0], x); }
    SameBack(Program(b), Program(t), OUTSIDE, OUTSIDE, []);
    if Free(Program(b), x) { var z := FreeGoesAlong(Program(b), Program(t), OUTSIDE, OUTSIDE, [], x); }
    if Free(Program(t), x) { var z := FreeGoesAlong(Program(t), Program(b), OUTSIDE, OUTSIDE, [], x); }
  }

  /** In the functions that are reached a name is overlooked exactly if it is used in default values only: while the
      body declares it, or nowhere but in functions within them. */
  lemma ReachedOnlyInDefaults(t: Node, f: Node, x: string)
    requires Separate(t) && Reached(t, f) && f.Fn? && x != PROTO
    ensures Overlooked(f, x) <==>
      Free(f, x) && DefaultUses(f, x) && !BodyUses(f, x) && (Declares(f.body, x) || !Shows(f, x))
  {
    OnlyInDefaults(f, x);
  }

  // ---------- where it goes wrong ----------

  /** A block or group with a single part. */
  lemma OnePart(m: bool, ds: seq<Decl>, n: Node, x: string)
    requires !n.Named? && forall k :: 0 <= k < |ds| ==> Old(ds[k].name)
    ensures !NamesFunction([n], x)
    ensures Proper(n) ==> Proper(Block(ds, [n]))
    ensures OldNames(n) ==> OldNames(Block(ds, [n])) && OldNames(Group(m, [n]))
    ensures Proper(n) && Expression(n) ==> Proper(Group(m, [n]))
    ensures Hoisted(Block(ds, [n]), x) <==> ByVar(ds, x) || Hoisted(n, x)
    ensures Free(n, x) ==> Free(Group(m, [n]), x)
    ensures ClosureUses(n, x) ==> ClosureUses(Group(m, [n]), x)
    ensures ClosureUses(n, x) && !Lexical(ds, x) ==> ClosureUses(Block(ds, [n]), x)
    ensures (Found(Block(ds, [n]), x) <==> Found(n, x)) && (Found(Group(m, [n]), x) <==> Found(n, x))
  {
    var b, g := Block(ds, [n]), Group(m, [n]);
    assert [n][0] == n;
    assert forall k :: 0 <= k < |b.kids| ==> b.kids[k] == n;
    assert forall k :: 0 <= k < |g.kids| ==> g.kids[k] == n;
    if Found(n, x) { assert Found(b.kids[0], x) && Found(g.kids[0], x); }
    if Free(n, x) { assert Free(g.kids[0], x); }
    if ClosureUses(n, x) { assert ClosureUses(b.kids[0], x) && ClosureUses(g.kids[0], x); }
    if Hoisted(n, x) { assert Hoisted(b.kids[0], x); }
  }

  lemma NotClear(c: Node, x: string)
    requires c.Block? && Lexical(c.decls, x) && x != PROTO && |c.kids| == 1
    requires !c.kids[0].Named?
    requires forall h: Hidden :: h(x) ==> !Clear(c.kids[0], h)
    ensures !ClearProgram(Block([], [c]))
  {
    var b := Block([], [c]);
    var h := HiddenInBody(HiddenInFunction(NOTHING, [], []), b);
    assert forall k :: 0 <= k < |c.kids| ==> c.kids[k] == c.kids[0];
    assert !NamesFunction(c.kids, x);
    assert HiddenInBlock(h, c.decls, c.kids)(x);
    assert !Clear(c, h);
    assert b.kids[0] == c;
    assert !ClearBody(b, h);
  }

  /** `try { } catch (x) { var x = v; }`: the value goes to the variable of the function, not to the caught one. */
  lemma CaughtIsMissed(x: string, t: Node)
    requires Old(x) && x != PROTO
    ensures var b := Block([], [Block([Decl(x, false, true)], [Block([Decl(x, true, true)], [])])]);
      Source(b) && (Ren(Program(b), Program(t), PLAIN) ==> !Same(Program(b), Program(t), OUTSIDE, OUTSIDE, []))
  {
    var ds, d := [Decl(x, true, true)], [Decl(x, false, true)];
    var v := Block(ds, []);
    var c := Block(d, [v]);
    assert d[0].name == x && Lexical(d, x);
    forall h: Hidden | h(x) ensures !Clear(v, h) {
      assert HiddenInBlock(h, ds, [])(ds[0].name);
    }
    NotClear(c, x);
    OnePart(false, d, v, x);
    OnePart(false, [], c, x);
    if Ren(Program(Block([], [c])), Program(t), PLAIN) { ProgramKeeps(Block([], [c]), t); }
  }

  /** `{ let y; let {a = y} = o; }`: the default value keeps a name that nothing has any more. */
  lemma PatternIsMissed(y: string, a: string, t: Node)
    requires Old(y) && Old(a) && y != PROTO
    ensures var b := Block([], [Block([Decl(y, false, true), Decl(a, false, false)], [Group(true, [Id(y)])])]);
      Source(b) && (Ren(Program(b), Program(t), PLAIN) ==> !Same(Program(b), Program(t), OUTSIDE, OUTSIDE, []))
  {
    var d := [Decl(y, false, true), Decl(a, false, false)];
    var g := Group(true, [Id(y)]);
    var c := Block(d, [g]);
    assert d[0].name == y && Lexical(d, y);
    OnePart(true, [], Id(y), y);
    NotClear(c, y);
    OnePart(false, d, g, y);
    OnePart(false, [], c, y);
    if Ren(Program(Block([], [c])), Program(t), PLAIN) { ProgramKeeps(Block([], [c]), t); }
  }

  function Hiding(x: string): Node {
    Fn([], [], [], Block([], [Block([Decl(x, false, true)], []), Id(x)]))
  }

  /** `() => { { let x; } x }`, as it is: x is free in it, and overlooked. */
  lemma BlockHides(x: string)
    ensures var f := Hiding(x);
      && Free(f, x) && !Found(f, x) && Overlooked(f, x)
      && (Old(x) ==> Proper(f) && OldNames(f) && Clear(f, NOTHING))
  {
    var i := Block([Decl(x, false, true)], []);
    var b := Block([], [i, Id(x)]);
    assert i.decls[0].plain && i.decls[0].name == x;
    assert b.kids[0] == i && b.kids[1] == Id(x);
    assert Declares(i, x) && Declares(b, x);
    assert forall k :: 0 <= k < |b.kids| ==> !Hoisted(b.kids[k], x);
    assert Free(b.kids[1], x) && Free(b, x);
    assert Proper(i) && Proper(b);
  }

  function InPattern(a: string, f: Node): Node {
    Block([Decl(a, false, false)], [Group(true, [f])])
  }

  lemma InPatternIsSource(a: string, f: Node)
    requires Old(a) && OldNames(f) && Proper(f) && f.Fn?
    ensures Source(InPattern(a, f))
  {
    hide Old;
    var g, d := Group(true, [f]), [Decl(a, false, false)];
    OnePart(true, [], f, a);
    OnePart(true, d, g, a);
    ProgramIsProper(Block(d, [g]));
  }

  lemma InPatternUses(a: string, f: Node, x: string)
    requires a != x && f.Fn? && Old(a)
    ensures ClosureUses(InPattern(a, f), x) <== Free(f, x)
    ensures Found(InPattern(a, f), x) <==> Found(f, x)
  {
    var g, d := Group(true, [f]), [Decl(a, false, false)];
    assert !Lexical(d, x);
    hide Old, Found, Free;
    OnePart(true, [], f, x);
    OnePart(true, d, g, x);
  }

  /** `let {a = () => { { let x; } x }} = o`: the block in the default value is not renamed, and hides the outer x from
      the walk. */
  lemma PatternHides(a: string, x: string, t: Node)
    requires Old(a) && Old(x) && a != x
    ensures var b := InPattern(a, Hiding(x));
      Source(b) && (Ren(Program(b), Program(t), PLAIN) ==> ClearProgram(b) && ClosureUses(t, x) && !Found(t, x))
  {
    hide Old, Found, Free, ClosureUses, OldNames, Proper, Ren, Clear;
    BlockHides(x);
    InPatternIsSource(a, Hiding(x));
    InPatternUses(a, Hiding(x), x);
    if Ren(Program(InPattern(a, Hiding(x))), Program(t), PLAIN) {
      PatternStays([Decl(a, false, false)], Group(true, [Hiding(x)]), t);
    }
  }

  lemma ProgramIsProper(b: Node)
    requires Proper(b) && b.Block?
    ensures Proper(Program(b))
  {
  }

  lemma PatternStays(d: seq<Decl>, g: Node, t: Node)
    requires g.Group? && g.inPattern && (forall k :: 0 <= k < |d| ==> !d[k].hoisted)
    requires Ren(Program(Block(d, [g])), Program(t), PLAIN)
    ensures t == Block(d, [g]) && ClearProgram(t)
  {
    hide Free, Hoisted, Lexical;
    var b := Block(d, [g]);
    assert RenBody(b, Program(t).body, BodyNames(OwnNames(PLAIN, [], []), b));
    assert t.kids[0] == g;
    var h := HiddenInBody(HiddenInFunction(NOTHING, [], []), b);
    assert Clear(b.kids[0], h);
    assert forall k :: 0 <= k < |b.kids| ==> b.kids[k] == g;
    assert ClearBody(b, h);
    assert b == Program(b).body;
  }
}
