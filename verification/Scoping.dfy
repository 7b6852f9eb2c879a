/** Syntax trees as far as names go, and which names are free in them by the rules of the language. */
module Scoping {
  /** `simple` is a parameter that is a bare identifier: no default value, no pattern, no rest. */
  datatype Param = Param(name: string, simple: bool)

  /** `hoisted` is a declaration by var, whose scope is the whole function; `plain` one that is not by a pattern. */
  datatype Decl = Decl(name: string, hoisted: bool, plain: bool)

  /** `Group` is an expression, or a statement made of expressions, without the keys of members and properties; default
      values that stand within a pattern are marked.  `Block`
      is every statement that contains statements, with what it declares itself: the heads of loops and `catch` are
      blocks, too.  `Named` is a function declaration.  `Fn` has its own name, if it has one, its parameters, what their
      default values are, and its body. */
  datatype Node =
    | Id(name: string)
    | Group(inPattern: bool, kids: seq<Node>)
    | Block(decls: seq<Decl>, kids: seq<Node>)
    | Labelled(tag: string, stmt: Node)
    | Jump(tag: string)
    | Named(name: string, fn: Node)
    | Fn(own: seq<string>, params: seq<Param>, defaults: seq<Node>, body: Node)

  predicate IsParam(ps: seq<Param>, x: string) {
    exists k :: 0 <= k < |ps| && ps[k].name == x
  }

  predicate Lexical(ds: seq<Decl>, x: string) {
    exists k :: 0 <= k < |ds| && !ds[k].hoisted && ds[k].name == x
  }

  predicate ByVar(ds: seq<Decl>, x: string) {
    exists k :: 0 <= k < |ds| && ds[k].hoisted && ds[k].name == x
  }

  predicate Declared(ds: seq<Decl>, x: string) {
    exists k :: 0 <= k < |ds| && ds[k].name == x
  }

  /** A function of that name is declared among these statements. */
  predicate NamesFunction(ks: seq<Node>, x: string) {
    exists k :: 0 <= k < |ks| && ks[k].Named? && ks[k].name == x
  }

  /** Bound by the block itself: by let, const or catch, or by a function declared in it. */
  predicate Binds(ds: seq<Decl>, ks: seq<Node>, x: string) {
    Lexical(ds, x) || NamesFunction(ks, x)
  }

  /** Bound in the whole function, wherever in it the declaration is: by var, or by a function declaration. */
  predicate Hoisted(n: Node, x: string) {
    match n
    case Block(ds, ks) => ByVar(ds, x) || exists k :: 0 <= k < |ks| && Hoisted(ks[k], x)
    case Labelled(_, s) => Hoisted(s, x)
    case Named(y, _) => x == y
    case _ => false
  }

  /** x is used in n, and nothing within n binds it there. */
  predicate Free(n: Node, x: string) {
    match n
    case Id(y) => x == y
    case Group(_, ks) => exists k :: 0 <= k < |ks| && Free(ks[k], x)
    case Block(ds, ks) => !Binds(ds, ks, x) && exists k :: 0 <= k < |ks| && Free(ks[k], x)
    case Labelled(_, s) => Free(s, x)
    case Jump(_) => false
    case Named(_, f) => Free(f, x)
    case Fn(own, ps, vs, b) =>
      && x !in own && !IsParam(ps, x)
      && ((exists k :: 0 <= k < |vs| && Free(vs[k], x)) || (!Hoisted(b, x) && Free(b, x)))
  }

  /** f is a function of n at any depth; those in default values of parameters are left out. */
  predicate In(n: Node, f: Node) {
    match n
    case Id(_) => false
    case Group(_, ks) => exists k :: 0 <= k < |ks| && In(ks[k], f)
    case Block(_, ks) => exists k :: 0 <= k < |ks| && In(ks[k], f)
    case Labelled(_, s) => In(s, f)
    case Jump(_) => false
    case Named(_, g) => In(g, f)
    case Fn(_, _, _, b) => f == n || In(b, f)
  }

  /** f is a function of n that is in no other one. */
  predicate Outermost(n: Node, f: Node) {
    match n
    case Id(_) => false
    case Group(_, ks) => exists k :: 0 <= k < |ks| && Outermost(ks[k], f)
    case Block(_, ks) => exists k :: 0 <= k < |ks| && Outermost(ks[k], f)
    case Labelled(_, s) => Outermost(s, f)
    case Jump(_) => false
    case Named(_, g) => Outermost(g, f)
    case Fn(_, _, _, _) => f == n
  }

  lemma {:induction false} InIsFn(n: Node, f: Node)
    requires In(n, f)
    ensures f.Fn?
    decreases n
  {
    match n
    case Group(_, ks) =>
      var k :| 0 <= k < |ks| && In(ks[k], f);
      InIsFn(ks[k], f);
    case Block(_, ks) =>
      var k :| 0 <= k < |ks| && In(ks[k], f);
      InIsFn(ks[k], f);
    case Labelled(_, s) => InIsFn(s, f);
    case Named(_, g) => InIsFn(g, f);
    case Fn(_, _, _, b) =>
      if f != n { InIsFn(b, f); }
  }

  lemma {:induction false} InIn(n: Node, f: Node, g: Node)
    requires In(n, f) && In(f, g)
    ensures In(n, g)
    decreases n
  {
    match n
    case Group(_, ks) =>
      var k :| 0 <= k < |ks| && In(ks[k], f);
      InIn(ks[k], f, g);
    case Block(_, ks) =>
      var k :| 0 <= k < |ks| && In(ks[k], f);
      InIn(ks[k], f, g);
    case Labelled(_, s) => InIn(s, f, g);
    case Named(_, h) => InIn(h, f, g);
    case Fn(_, _, _, b) =>
      if f != n { InIn(b, f, g); }
  }

  lemma {:induction false} OutermostIsIn(n: Node, f: Node)
    requires Outermost(n, f)
    ensures In(n, f)
    decreases n
  {
    match n
    case Group(_, ks) =>
      var k :| 0 <= k < |ks| && Outermost(ks[k], f);
      OutermostIsIn(ks[k], f);
    case Block(_, ks) =>
      var k :| 0 <= k < |ks| && Outermost(ks[k], f);
      OutermostIsIn(ks[k], f);
    case Labelled(_, s) => OutermostIsIn(s, f);
    case Named(_, g) => OutermostIsIn(g, f);
    case Fn(_, _, _, _) =>
  }

  /** A closure made by n has x free, and no block of n around it binds x. */
  predicate ClosureUses(n: Node, x: string) {
    match n
    case Id(_) => false
    case Group(_, ks) => exists k :: 0 <= k < |ks| && ClosureUses(ks[k], x)
    case Block(ds, ks) => !Binds(ds, ks, x) && exists k :: 0 <= k < |ks| && ClosureUses(ks[k], x)
    case Labelled(_, s) => ClosureUses(s, x)
    case Jump(_) => false
    case Named(_, g) => ClosureUses(g, x)
    case Fn(_, _, _, _) => Free(n, x)
  }

  // ---------- block scopes ----------

  /** Some block of the same function, n itself included, binds x by let, const or catch. */
  predicate BlockDeclares(n: Node, x: string) {
    match n
    case Block(ds, ks) => Lexical(ds, x) || exists k :: 0 <= k < |ks| && BlockDeclares(ks[k], x)
    case Labelled(_, s) => BlockDeclares(s, x)
    case _ => false
  }

  /** The same of the blocks strictly inside a body. */
  predicate InnerDeclares(b: Node, x: string) {
    if b.Block? then exists k :: 0 <= k < |b.kids| && BlockDeclares(b.kids[k], x) else BlockDeclares(b, x)
  }

  /** x stands somewhere in n, as a name of any kind, outside the blocks that declare it by let, const or catch. */
  predicate Stands(n: Node, x: string) {
    match n
    case Id(y) => x == y
    case Group(_, ks) => exists k :: 0 <= k < |ks| && Stands(ks[k], x)
    case Block(ds, ks) => !Lexical(ds, x) && (Declared(ds, x) || exists k :: 0 <= k < |ks| && Stands(ks[k], x))
    case Labelled(l, s) => x == l || Stands(s, x)
    case Jump(l) => x == l
    case Named(y, f) => x == y || Stands(f, x)
    case Fn(own, ps, vs, b) =>
      x in own || IsParam(ps, x) || Stands(b, x) || exists k :: 0 <= k < |vs| && Stands(vs[k], x)
  }

  /** What an inner block declares does not stand outside it: what the renaming of block scopes achieves. */
  predicate Renamed(b: Node, x: string) {
    InnerDeclares(b, x) ==> !Stands(b, x)
  }

  lemma {:induction false} FreeStands(n: Node, x: string)
    requires Free(n, x)
    ensures Stands(n, x)
    decreases n
  {
    match n
    case Id(_) =>
    case Group(_, ks) =>
      var k :| 0 <= k < |ks| && Free(ks[k], x);
      FreeStands(ks[k], x);
    case Block(_, ks) =>
      var k :| 0 <= k < |ks| && Free(ks[k], x);
      FreeStands(ks[k], x);
    case Labelled(_, s) => FreeStands(s, x);
    case Named(_, f) => FreeStands(f, x);
    case Fn(_, _, vs, b) =>
      if k :| 0 <= k < |vs| && Free(vs[k], x) {
        FreeStands(vs[k], x);
      } else {
        FreeStands(b, x);
      }
  }
}
