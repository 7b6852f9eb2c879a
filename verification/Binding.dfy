/** Which declaration each identifier refers to, by the rules of the language, and when two trees agree in that. */
module Binding {
  import opened Scoping

  /** What a name refers to: something outside of the program, or a declaration of the node at a path. */
  datatype Binder =
    | Outside(name: string)
    | OfFunction(path: seq<nat>, name: string)
    | OfBody(path: seq<nat>, name: string)
    | OfBlock(path: seq<nat>, k: nat)
    | BlockFunction(path: seq<nat>, name: string)

  type Env = string -> Binder

  function Depth(b: Binder): nat {
    if b.Outside? then 0 else |b.path| + 1
  }

  /** The place of the first let, const or catch of a name. */
  function First(ds: seq<Decl>, x: string): (k: nat)
    ensures Lexical(ds, x) ==> k < |ds| && !ds[k].hoisted && ds[k].name == x
    ensures forall j :: 0 <= j < k && j < |ds| ==> ds[j].hoisted || ds[j].name != x
  {
    if ds == [] || (!ds[0].hoisted && ds[0].name == x) then 0 else First(ds[1..], x) + 1
  }

  function InBlock(env: Env, ds: seq<Decl>, ks: seq<Node>, p: seq<nat>): Env {
    x =>
      if NamesFunction(ks, x) then BlockFunction(p, x)
      else if Lexical(ds, x) then OfBlock(p, First(ds, x))
      else env(x)
  }

  function InFunction(env: Env, own: seq<string>, ps: seq<Param>, p: seq<nat>): Env {
    x => if x in own || IsParam(ps, x) then OfFunction(p, x) else env(x)
  }

  function InBody(env: Env, b: Node, p: seq<nat>): Env {
    x => if Hoisted(b, x) then OfBody(p, x) else env(x)
  }

  /** The two trees have the same form, and identifiers in the same places refer to the same declarations; the name in a
      declaration by var is taken for an identifier, because it may be assigned there. */
  predicate Same(s: Node, t: Node, se: Env, te: Env, p: seq<nat>) {
    match s
    case Id(y) => t.Id? && se(y) == te(t.name)
    case Group(m, ks) =>
      && t.Group? && t.inPattern == m && |t.kids| == |ks|
      && forall k :: 0 <= k < |ks| ==> Same(ks[k], t.kids[k], se, te, p + [k])
    case Block(ds, ks) =>
      && t.Block? && |t.decls| == |ds| && |t.kids| == |ks|
      && (forall k :: 0 <= k < |ds| ==>
            SameDecl(ds[k], t.decls[k], InBlock(se, ds, ks, p), InBlock(te, t.decls, t.kids, p)))
      && forall k :: 0 <= k < |ks| ==>
           Same(ks[k], t.kids[k], InBlock(se, ds, ks, p), InBlock(te, t.decls, t.kids, p), p + [k])
    case Labelled(l, b) => t.Labelled? && t.tag == l && Same(b, t.stmt, se, te, p + [0])
    case Jump(_) => t == s
    case Named(y, f) => t.Named? && t.name == y && Same(f, t.fn, se, te, p + [0])
    case Fn(own, ps, vs, b) =>
      && t.Fn? && t.own == own && t.params == ps && |t.defaults| == |vs|
      && (forall k :: 0 <= k < |vs| ==>
            Same(vs[k], t.defaults[k], InFunction(se, own, ps, p), InFunction(te, own, ps, p), p + [k]))
      && Same(b, t.body, InBody(InFunction(se, own, ps, p), b, p), InBody(InFunction(te, own, ps, p), t.body, p),
              p + [|vs|])
  }

  predicate SameDecl(d: Decl, e: Decl, se: Env, te: Env) {
    d.hoisted == e.hoisted && d.plain == e.plain && (d.hoisted ==> se(d.name) == te(e.name))
  }

  ghost predicate UpTo(env: Env, d: nat) {
    forall x :: Depth(env(x)) <= d
  }

  lemma {:induction false} SameBack(s: Node, t: Node, se: Env, te: Env, p: seq<nat>)
    requires Same(s, t, se, te, p)
    ensures Same(t, s, te, se, p)
    decreases s
  {
    match s
    case Id(_) =>
    case Group(_, ks) =>
      forall k | 0 <= k < |ks| ensures Same(t.kids[k], ks[k], te, se, p + [k]) {
        SameBack(ks[k], t.kids[k], se, te, p + [k]);
      }
    case Block(ds, ks) =>
      var se', te' := InBlock(se, ds, ks, p), InBlock(te, t.decls, t.kids, p);
      forall k | 0 <= k < |ks| ensures Same(t.kids[k], ks[k], te', se', p + [k]) {
        SameBack(ks[k], t.kids[k], se', te', p + [k]);
      }
    case Labelled(_, b) => SameBack(b, t.stmt, se, te, p + [0]);
    case Jump(_) =>
    case Named(_, f) => SameBack(f, t.fn, se, te, p + [0]);
    case Fn(own, ps, vs, b) =>
      var se', te' := InFunction(se, own, ps, p), InFunction(te, own, ps, p);
      forall k | 0 <= k < |vs| ensures Same(t.defaults[k], vs[k], te', se', p + [k]) {
        SameBack(vs[k], t.defaults[k], se', te', p + [k]);
      }
      SameBack(b, t.body, InBody(se', b, p), InBody(te', t.body, p), p + [|vs|]);
  }

  /** What is free in one tree is free in the other, though maybe under another name. */
  lemma {:induction false} FreeGoesAlong(s: Node, t: Node, se: Env, te: Env, p: seq<nat>, x: string) returns (z: string)
    requires Same(s, t, se, te, p) && Free(s, x) && UpTo(se, |p|) && UpTo(te, |p|)
    ensures Free(t, z) && te(z) == se(x)
    decreases s, 1
  {
    match s
    case Id(_) => z := t.name;
    case Group(_, ks) =>
      var k :| 0 <= k < |ks| && Free(ks[k], x);
      z := FreeGoesAlong(ks[k], t.kids[k], se, te, p + [k], x);
    case Block(ds, ks) =>
      var k :| 0 <= k < |ks| && Free(ks[k], x);
      z := FreeGoesAlong(ks[k], t.kids[k], InBlock(se, ds, ks, p), InBlock(te, t.decls, t.kids, p), p + [k], x);
    case Labelled(_, b) => z := FreeGoesAlong(b, t.stmt, se, te, p + [0], x);
    case Named(_, f) => z := FreeGoesAlong(f, t.fn, se, te, p + [0], x);
    case Fn(_, _, _, _) => z := FreeInFunction(s, t, se, te, p, x);
  }

  lemma {:induction false} FreeInFunction(s: Node, t: Node, se: Env, te: Env, p: seq<nat>, x: string)
      returns (z: string)
    requires Same(s, t, se, te, p) && Free(s, x) && UpTo(se, |p|) && UpTo(te, |p|) && s.Fn?
    ensures Free(t, z) && te(z) == se(x)
    decreases s, 0
  {
    var own, ps, vs, b := s.own, s.params, s.defaults, s.body;
    var se', te' := InFunction(se, own, ps, p), InFunction(te, own, ps, p);
    if k :| 0 <= k < |vs| && Free(vs[k], x) {
      z := FreeGoesAlong(vs[k], t.defaults[k], se', te', p + [k], x);
    } else {
      z := FreeGoesAlong(b, t.body, InBody(se', b, p), InBody(te', t.body, p), p + [|vs|], x);
    }
  }

  /** The same of what its closures use. */
  lemma {:induction false} UseGoesAlong(s: Node, t: Node, se: Env, te: Env, p: seq<nat>, x: string) returns (z: string)
    requires Same(s, t, se, te, p) && ClosureUses(s, x) && UpTo(se, |p|) && UpTo(te, |p|)
    ensures ClosureUses(t, z) && te(z) == se(x)
    decreases s
  {
    match s
    case Group(_, ks) =>
      var k :| 0 <= k < |ks| && ClosureUses(ks[k], x);
      z := UseGoesAlong(ks[k], t.kids[k], se, te, p + [k], x);
    case Block(ds, ks) =>
      var k :| 0 <= k < |ks| && ClosureUses(ks[k], x);
      z := UseGoesAlong(ks[k], t.kids[k], InBlock(se, ds, ks, p), InBlock(te, t.decls, t.kids, p), p + [k], x);
    case Labelled(_, b) => z := UseGoesAlong(b, t.stmt, se, te, p + [0], x);
    case Named(_, f) => z := UseGoesAlong(f, t.fn, se, te, p + [0], x);
    case Fn(_, _, _, _) => z := FreeGoesAlong(s, t, se, te, p, x);
  }

  // ---------- one tree under two environments ----------

  predicate Expression(n: Node) {
    n.Id? || n.Group? || n.Fn?
  }

  /** What the parser makes: expressions hold no statements but in functions, and function declarations stand in blocks;
      and a program without two declarations of one name in one block, one of them a function. */
  ghost predicate Proper(n: Node) {
    match n
    case Id(_) => true
    case Group(_, ks) => forall k :: 0 <= k < |ks| ==> Expression(ks[k]) && Proper(ks[k])
    case Block(ds, ks) =>
      && (forall x :: !(Lexical(ds, x) && NamesFunction(ks, x)))
      && forall k :: 0 <= k < |ks| ==> Proper(ks[k])
    case Labelled(_, b) => !b.Named? && Proper(b)
    case Jump(_) => true
    case Named(_, f) => f.Fn? && Proper(f)
    case Fn(_, _, vs, b) =>
      (forall k :: 0 <= k < |vs| ==> Expression(vs[k]) && Proper(vs[k])) && !b.Named? && Proper(b)
  }

  ghost predicate AgreeOn(n: Node, se: Env, te: Env) {
    forall x :: Free(n, x) ==> se(x) == te(x)
  }

  lemma BlockAgrees(n: Node, se: Env, te: Env, se': Env, te': Env)
    requires n.Block?
    requires forall x :: if Binds(n.decls, n.kids, x) then se'(x) == te'(x) else se'(x) == se(x) && te'(x) == te(x)
    ensures AgreeOn(n, se, te) <==> forall k :: 0 <= k < |n.kids| ==> AgreeOn(n.kids[k], se', te')
  {
    forall k, x | 0 <= k < |n.kids| && Free(n.kids[k], x) ensures Binds(n.decls, n.kids, x) || Free(n, x) {
    }
    forall x | Free(n, x) ensures exists k :: 0 <= k < |n.kids| && Free(n.kids[k], x) && !Binds(n.decls, n.kids, x) {
    }
  }

  lemma FunctionAgrees(n: Node, se: Env, te: Env, p: seq<nat>)
    requires n.Fn?
    ensures
      var se', te' := InFunction(se, n.own, n.params, p), InFunction(te, n.own, n.params, p);
      AgreeOn(n, se, te) <==>
        && (forall k :: 0 <= k < |n.defaults| ==> AgreeOn(n.defaults[k], se', te'))
        && AgreeOn(n.body, InBody(se', n.body, p), InBody(te', n.body, p))
  {
    var se', te' := InFunction(se, n.own, n.params, p), InFunction(te, n.own, n.params, p);
    forall x | x !in n.own && !IsParam(n.params, x)
      ensures Free(n, x) <==>
        ((exists k :: 0 <= k < |n.defaults| && Free(n.defaults[k], x)) || (!Hoisted(n.body, x) && Free(n.body, x)))
    {
    }
    if AgreeOn(n, se, te) {
      forall k | 0 <= k < |n.defaults| ensures AgreeOn(n.defaults[k], se', te') {
      }
    }
  }

  lemma {:induction false} OneTree(n: Node, se: Env, te: Env, p: seq<nat>)
    requires Proper(n) && forall x :: Hoisted(n, x) ==> se(x) == te(x)
    ensures Same(n, n, se, te, p) <==> AgreeOn(n, se, te)
    decreases n
  {
    match n
    case Id(_) =>
    case Group(_, ks) =>
      forall k | 0 <= k < |ks| ensures Same(ks[k], ks[k], se, te, p + [k]) <==> AgreeOn(ks[k], se, te) {
        OneTree(ks[k], se, te, p + [k]);
      }
    case Block(ds, ks) =>
      var se', te' := InBlock(se, ds, ks, p), InBlock(te, ds, ks, p);
      forall k | 0 <= k < |ks| ensures Same(ks[k], ks[k], se', te', p + [k]) <==> AgreeOn(ks[k], se', te') {
        OneTree(ks[k], se', te', p + [k]);
      }
      forall k | 0 <= k < |ds| ensures SameDecl(ds[k], ds[k], se', te') {
        if ds[k].hoisted { assert ByVar(ds, ds[k].name); }
      }
      BlockAgrees(n, se, te, se', te');
    case Labelled(_, b) => OneTree(b, se, te, p + [0]);
    case Jump(_) =>
    case Named(_, f) => OneTree(f, se, te, p + [0]);
    case Fn(own, ps, vs, b) =>
      var se', te' := InFunction(se, own, ps, p), InFunction(te, own, ps, p);
      forall k | 0 <= k < |vs| ensures Same(vs[k], vs[k], se', te', p + [k]) <==> AgreeOn(vs[k], se', te') {
        OneTree(vs[k], se', te', p + [k]);
      }
      OneTree(b, InBody(se', b, p), InBody(te', b, p), p + [|vs|]);
      FunctionAgrees(n, se, te, p);
  }
}
