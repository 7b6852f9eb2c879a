/** Which captured variables the closures of an eval fragment use (engine/compile.js, lang/analysis/closure.js), against
    the scoping of the language. */
module ClosureNames {
  import opened Scoping

  // ---------- what the walk computes ----------

  predicate IsSimple(ps: seq<Param>, x: string) {
    exists k :: 0 <= k < |ps| && ps[k].simple && ps[k].name == x
  }

  predicate Plain(ds: seq<Decl>, x: string) {
    exists k :: 0 <= k < |ds| && ds[k].plain && ds[k].name == x
  }

  /** collectLocalDeclarations: declarations that are not by patterns, in all blocks that no label stands before. */
  predicate Declares(n: Node, x: string) {
    match n
    case Block(ds, ks) => Plain(ds, x) || exists k :: 0 <= k < |ks| && Declares(ks[k], x)
    case _ => false
  }

  /** collectReferencedVariables: identifiers outside functions, declared names and labels among them. */
  predicate Refers(n: Node, x: string) {
    match n
    case Id(y) => x == y
    case Group(_, ks) => exists k :: 0 <= k < |ks| && Refers(ks[k], x)
    case Block(ds, ks) => Declared(ds, x) || exists k :: 0 <= k < |ks| && Refers(ks[k], x)
    case Labelled(l, s) => x == l || Refers(s, x)
    case Jump(l) => x == l
    case Named(_, f) => Refers(f, x)
    case Fn(_, _, _, _) => false
  }

  predicate RefersAny(ks: seq<Node>, x: string) {
    exists k :: 0 <= k < |ks| && Refers(ks[k], x)
  }

  /** collectNestedFunctionReferences: an outermost function in n mentions x and is not seen to declare it.  Of a nested
      function's parameters only simple ones count as declared. */
  predicate Nested(n: Node, x: string) {
    match n
    case Id(_) => false
    case Group(_, ks) => exists k :: 0 <= k < |ks| && Nested(ks[k], x)
    case Block(_, ks) => exists k :: 0 <= k < |ks| && Nested(ks[k], x)
    case Labelled(_, s) => Nested(s, x)
    case Jump(_) => false
    case Named(_, f) => Nested(f, x)
    case Fn(_, ps, vs, b) =>
      && !IsSimple(ps, x) && !Declares(b, x)
      && (Refers(b, x) || Nested(b, x) || IsParam(ps, x) || RefersAny(vs, x))
  }

  /** analyzeCapturedVariables: at an outermost function all parameters count as declared. */
  predicate Captured(f: Node, x: string)
    requires f.Fn?
  {
    && !IsParam(f.params, x) && !Declares(f.body, x)
    && (Refers(f.body, x) || Nested(f.body, x) || RefersAny(f.defaults, x))
  }

  /** capturesBoxedByInnerClosure: some outermost function captures x. */
  predicate Found(n: Node, x: string) {
    match n
    case Id(_) => false
    case Group(_, ks) => exists k :: 0 <= k < |ks| && Found(ks[k], x)
    case Block(_, ks) => exists k :: 0 <= k < |ks| && Found(ks[k], x)
    case Labelled(_, s) => Found(s, x)
    case Jump(_) => false
    case Named(_, f) => Found(f, x)
    case Fn(_, _, _, _) => Captured(n, x)
  }

  // ---------- the walk ----------

  method CollectLocals(n: Node, vars: set<string>) returns (out: set<string>)
    ensures forall x :: x in out <==> x in vars || Declares(n, x)
    decreases n
  {
    out := vars;
    if n.Block? {
      var k := 0;
      while k < |n.decls|
        invariant 0 <= k <= |n.decls|
        invariant forall x :: x in out <==>
          x in vars || exists j :: 0 <= j < k && n.decls[j].plain && n.decls[j].name == x
      {
        if n.decls[k].plain { out := out + {n.decls[k].name}; }
        k := k + 1;
      }
      ghost var first := out;
      k := 0;
      while k < |n.kids|
        invariant 0 <= k <= |n.kids|
        invariant forall x :: x in out <==> x in first || exists j :: 0 <= j < k && Declares(n.kids[j], x)
      {
        out := CollectLocals(n.kids[k], out);
        k := k + 1;
      }
    }
  }

  method DeclaredNames(ds: seq<Decl>) returns (names: set<string>)
    ensures forall x :: x in names <==> Declared(ds, x)
  {
    names := {};
    var k := 0;
    while k < |ds|
      invariant 0 <= k <= |ds|
      invariant forall x :: x in names <==> exists j :: 0 <= j < k && ds[j].name == x
    {
      names := names + {ds[k].name};
      k := k + 1;
    }
  }

  /** The identifiers of a tree; functions are not entered. */
  method CollectReferenced(n: Node, found: set<string>) returns (out: set<string>)
    ensures forall x :: x in out <==> x in found || Refers(n, x)
    decreases n
  {
    out := found;
    match n
    case Id(y) => out := out + {y};
    case Group(_, ks) =>
      var k := 0;
      while k < |ks|
        invariant 0 <= k <= |ks|
        invariant forall x :: x in out <==> x in found || exists j :: 0 <= j < k && Refers(ks[j], x)
      {
        out := CollectReferenced(ks[k], out);
        k := k + 1;
      }
    case Block(ds, ks) =>
      var names := DeclaredNames(ds);
      out := out + names;
      ghost var first := out;
      var k := 0;
      while k < |ks|
        invariant 0 <= k <= |ks|
        invariant forall x :: x in out <==> x in first || exists j :: 0 <= j < k && Refers(ks[j], x)
      {
        out := CollectReferenced(ks[k], out);
        k := k + 1;
      }
    case Labelled(l, s) => out := CollectReferenced(s, out + {l});
    case Jump(l) => out := out + {l};
    case Named(_, f) => out := CollectReferenced(f, out);
    case Fn(_, _, _, _) =>
  }

  method ParamNames(ps: seq<Param>) returns (simple: set<string>, all: set<string>)
    ensures forall x :: x in simple <==> IsSimple(ps, x)
    ensures forall x :: x in all <==> IsParam(ps, x)
  {
    simple, all := {}, {};
    var k := 0;
    while k < |ps|
      invariant 0 <= k <= |ps|
      invariant forall x :: x in simple <==> exists j :: 0 <= j < k && ps[j].simple && ps[j].name == x
      invariant forall x :: x in all <==> exists j :: 0 <= j < k && ps[j].name == x
    {
      all := all + {ps[k].name};
      if ps[k].simple { simple := simple + {ps[k].name}; }
      k := k + 1;
    }
  }

  /** What a function mentions: in its body, in its parameters and their default values. */
  method CollectOwn(f: Node) returns (simple: set<string>, params: set<string>, locals: set<string>, refs: set<string>)
    requires f.Fn?
    ensures forall x :: x in simple <==> IsSimple(f.params, x)
    ensures forall x :: x in params <==> IsParam(f.params, x)
    ensures forall x :: x in locals <==> Declares(f.body, x)
    ensures forall x :: x in refs <==> Refers(f.body, x) || IsParam(f.params, x) || RefersAny(f.defaults, x)
  {
    simple, params := ParamNames(f.params);
    locals := CollectLocals(f.body, {});
    refs := CollectReferenced(f.body, {});
    refs := refs + params;
    ghost var first := refs;
    var k := 0;
    while k < |f.defaults|
      invariant 0 <= k <= |f.defaults|
      invariant forall x :: x in refs <==> x in first || exists j :: 0 <= j < k && Refers(f.defaults[j], x)
    {
      refs := CollectReferenced(f.defaults[k], refs);
      k := k + 1;
    }
  }

  /** What the functions in a tree mention and are not seen to declare; `scope` is left out. */
  method CollectNested(n: Node, found: set<string>, scope: set<string>) returns (out: set<string>)
    ensures forall x :: x in out <==> x in found || (x !in scope && Nested(n, x))
    decreases n
  {
    out := found;
    match n
    case Id(_) =>
    case Group(_, ks) =>
      var k := 0;
      while k < |ks|
        invariant 0 <= k <= |ks|
        invariant forall x :: x in out <==> x in found || (x !in scope && exists j :: 0 <= j < k && Nested(ks[j], x))
      {
        out := CollectNested(ks[k], out, scope);
        k := k + 1;
      }
    case Block(_, ks) =>
      var k := 0;
      while k < |ks|
        invariant 0 <= k <= |ks|
        invariant forall x :: x in out <==> x in found || (x !in scope && exists j :: 0 <= j < k && Nested(ks[j], x))
      {
        out := CollectNested(ks[k], out, scope);
        k := k + 1;
      }
    case Labelled(_, s) => out := CollectNested(s, out, scope);
    case Jump(_) =>
    case Named(_, f) => out := CollectNested(f, out, scope);
    case Fn(_, _, _, b) =>
      var simple, params, locals, refs := CollectOwn(n);
      refs := CollectNested(b, refs, simple + locals);
      out := out + (refs - simple - locals - scope);
  }

  /** Names that are never taken for captured ones (isBuiltinOrGlobal). */
  const BUILTINS: set<string> := {"print", "console", "Promise", "Uint8Array", "Buffer", "Math", "sleep", "Array",
    "Object", "String", "Number", "Boolean", "Date", "RegExp", "JSON", "Error", "undefined", "null", "NaN", "Infinity",
    "globalThis", "queueMicrotask", "__asmjs_setTimeout", "__asmjs_setImmediate", "__asmjs_queueMicrotask",
    "__asmjs_clearTimer"}

  /** `inherited` are the names that every object of the host answers to, such as toString: looked up among parameters
      and locals they count as declared.  A compiler that has compiled itself runs on a host without any. */
  predicate Capturable(outer: set<string>, inherited: set<string>, x: string) {
    x in outer && x !in BUILTINS && x !in inherited
  }

  method AnalyzeCaptured(f: Node, outer: set<string>, inherited: set<string>) returns (captured: set<string>)
    requires f.Fn?
    ensures forall x :: x in captured <==> Capturable(outer, inherited, x) && Captured(f, x)
  {
    var simple, params, locals, refs := CollectOwn(f);
    refs := CollectNested(f.body, refs, params + locals);
    captured := (refs - params - locals - BUILTINS - inherited) * outer;
  }

  /** Outermost functions are analysed, everything else is walked through. */
  method Visit(n: Node, found: set<string>, outer: set<string>, inherited: set<string>) returns (out: set<string>)
    ensures forall x :: x in out <==> x in found || (Capturable(outer, inherited, x) && Found(n, x))
    decreases n
  {
    out := found;
    match n
    case Id(_) =>
    case Group(_, ks) =>
      var k := 0;
      while k < |ks|
        invariant 0 <= k <= |ks|
        invariant forall x :: x in out <==>
          x in found || (Capturable(outer, inherited, x) && exists j :: 0 <= j < k && Found(ks[j], x))
      {
        out := Visit(ks[k], out, outer, inherited);
        k := k + 1;
      }
    case Block(_, ks) =>
      var k := 0;
      while k < |ks|
        invariant 0 <= k <= |ks|
        invariant forall x :: x in out <==>
          x in found || (Capturable(outer, inherited, x) && exists j :: 0 <= j < k && Found(ks[j], x))
      {
        out := Visit(ks[k], out, outer, inherited);
        k := k + 1;
      }
    case Labelled(_, s) => out := Visit(s, out, outer, inherited);
    case Jump(_) =>
    case Named(_, f) => out := Visit(f, out, outer, inherited);
    case Fn(_, _, _, _) =>
      var captured := AnalyzeCaptured(n, outer, inherited);
      out := out + captured;
  }

  // ---------- where the walk goes wrong ----------

  /** A function of n that is in no other one uses x. */
  ghost predicate UsedInside(n: Node, x: string) {
    exists g :: Outermost(n, g) && Free(g, x)
  }

  predicate BodyUses(f: Node, x: string)
    requires f.Fn?
  {
    !Hoisted(f.body, x) && Free(f.body, x)
  }

  predicate DefaultUses(f: Node, x: string)
    requires f.Fn?
  {
    exists k :: 0 <= k < |f.defaults| && Free(f.defaults[k], x)
  }

  /** x stands in f outside the functions in it, or one in its body uses it. */
  ghost predicate Shows(f: Node, x: string)
    requires f.Fn?
  {
    Refers(f.body, x) || UsedInside(f.body, x) || IsParam(f.params, x) || RefersAny(f.defaults, x)
  }

  /** x is used although the body declares it, or nowhere but in functions within default values. */
  ghost predicate Overlooked(f: Node, x: string)
    requires f.Fn?
  {
    Free(f, x) && (Declares(f.body, x) || !Shows(f, x))
  }

  /** x is declared somewhere in n, or a label there; functions in n apart. */
  predicate Marks(n: Node, x: string) {
    match n
    case Group(_, ks) => exists k :: 0 <= k < |ks| && Marks(ks[k], x)
    case Block(ds, ks) => Declared(ds, x) || exists k :: 0 <= k < |ks| && Marks(ks[k], x)
    case Labelled(l, s) => x == l || Marks(s, x)
    case Jump(l) => x == l
    case Named(y, f) => x == y || Marks(f, x)
    case _ => false
  }

  predicate MarkedIn(f: Node, x: string)
    requires f.Fn?
  {
    Marks(f.body, x) || exists k :: 0 <= k < |f.defaults| && Marks(f.defaults[k], x)
  }

  /** x stands in f, and what binds it is out of the walk's sight: a parameter with a default value or in a pattern, the
      function's own name, a declaration behind a label, by a pattern or of a function; or it is nothing but a label. */
  ghost predicate Overreported(f: Node, x: string)
    requires f.Fn?
  {
    && !IsSimple(f.params, x) && !Declares(f.body, x) && Shows(f, x)
    && (IsParam(f.params, x) || x in f.own || (!DefaultUses(f, x) && !BodyUses(f, x) && MarkedIn(f, x)))
  }

  ghost predicate NoneOverlooked(n: Node, x: string) {
    forall f :: In(n, f) && f.Fn? ==> !Overlooked(f, x)
  }

  ghost predicate NoneOverreported(n: Node, x: string) {
    forall f :: In(n, f) && f.Fn? ==> !Overreported(f, x)
  }

  // ---------- functions found one by one ----------

  lemma {:induction false} NestedBy(n: Node, g: Node, x: string)
    requires Outermost(n, g) && Nested(g, x)
    ensures Nested(n, x)
    decreases n
  {
    match n
    case Group(_, ks) =>
      var k :| 0 <= k < |ks| && Outermost(ks[k], g);
      NestedBy(ks[k], g, x);
    case Block(_, ks) =>
      var k :| 0 <= k < |ks| && Outermost(ks[k], g);
      NestedBy(ks[k], g, x);
    case Labelled(_, s) => NestedBy(s, g, x);
    case Named(_, f) => NestedBy(f, g, x);
    case Fn(_, _, _, _) =>
  }

  lemma {:induction false} NestedIn(n: Node, x: string) returns (g: Node)
    requires Nested(n, x)
    ensures Outermost(n, g) && g.Fn? && Nested(g, x)
    decreases n
  {
    match n
    case Group(_, ks) =>
      var k :| 0 <= k < |ks| && Nested(ks[k], x);
      g := NestedIn(ks[k], x);
    case Block(_, ks) =>
      var k :| 0 <= k < |ks| && Nested(ks[k], x);
      g := NestedIn(ks[k], x);
    case Labelled(_, s) => g := NestedIn(s, x);
    case Named(_, f) => g := NestedIn(f, x);
    case Fn(_, _, _, _) => g := n;
  }

  lemma {:induction false} FoundBy(n: Node, g: Node, x: string)
    requires Outermost(n, g) && g.Fn? && Captured(g, x)
    ensures Found(n, x)
    decreases n
  {
    match n
    case Group(_, ks) =>
      var k :| 0 <= k < |ks| && Outermost(ks[k], g);
      FoundBy(ks[k], g, x);
    case Block(_, ks) =>
      var k :| 0 <= k < |ks| && Outermost(ks[k], g);
      FoundBy(ks[k], g, x);
    case Labelled(_, s) => FoundBy(s, g, x);
    case Named(_, f) => FoundBy(f, g, x);
    case Fn(_, _, _, _) =>
  }

  lemma {:induction false} FoundIn(n: Node, x: string) returns (g: Node)
    requires Found(n, x)
    ensures Outermost(n, g) && g.Fn? && Captured(g, x)
    decreases n
  {
    match n
    case Group(_, ks) =>
      var k :| 0 <= k < |ks| && Found(ks[k], x);
      g := FoundIn(ks[k], x);
    case Block(_, ks) =>
      var k :| 0 <= k < |ks| && Found(ks[k], x);
      g := FoundIn(ks[k], x);
    case Labelled(_, s) => g := FoundIn(s, x);
    case Named(_, f) => g := FoundIn(f, x);
    case Fn(_, _, _, _) => g := n;
  }

  // ---------- what is free is mentioned, and the other way round ----------

  lemma {:induction false} FreeIsMentioned(n: Node, x: string)
    requires Free(n, x)
    ensures Refers(n, x) || UsedInside(n, x)
    decreases n
  {
    match n
    case Id(_) =>
    case Group(_, ks) =>
      var k :| 0 <= k < |ks| && Free(ks[k], x);
      FreeIsMentioned(ks[k], x);
      if !Refers(ks[k], x) {
        var g :| Outermost(ks[k], g) && Free(g, x);
        assert Outermost(n, g);
      }
    case Block(_, ks) =>
      var k :| 0 <= k < |ks| && Free(ks[k], x);
      FreeIsMentioned(ks[k], x);
      if !Refers(ks[k], x) {
        var g :| Outermost(ks[k], g) && Free(g, x);
        assert Outermost(n, g);
      }
    case Labelled(_, s) =>
      FreeIsMentioned(s, x);
      if g :| Outermost(s, g) && Free(g, x) { assert Outermost(n, g); }
    case Named(_, f) =>
      FreeIsMentioned(f, x);
      if g :| Outermost(f, g) && Free(g, x) { assert Outermost(n, g); }
    case Fn(_, _, _, _) => assert Outermost(n, n);
  }

  lemma {:induction false} MentionedIsFree(n: Node, x: string)
    requires Refers(n, x) || UsedInside(n, x)
    requires !Marks(n, x)
    ensures Free(n, x)
    decreases n
  {
    match n
    case Id(_) =>
    case Group(_, ks) =>
      var k := MentionedBy(n, ks, x);
      MentionedIsFree(ks[k], x);
    case Block(ds, ks) =>
      var k := MentionedBy(n, ks, x);
      forall j | 0 <= j < |ks| && ks[j].Named? ensures ks[j].name == x ==> Marks(ks[j], x) {}
      MentionedIsFree(ks[k], x);
    case Labelled(_, s) =>
      if g :| Outermost(n, g) && Free(g, x) { assert Outermost(s, g); }
      MentionedIsFree(s, x);
    case Named(_, f) =>
      if g :| Outermost(n, g) && Free(g, x) { assert Outermost(f, g); }
      MentionedIsFree(f, x);
    case Fn(_, _, _, _) =>
  }

  /** One of the parts of n mentions what n does, other than as a name it declares. */
  lemma MentionedBy(n: Node, ks: seq<Node>, x: string) returns (k: nat)
    requires n.Group? || n.Block?
    requires ks == n.kids
    requires Refers(n, x) || UsedInside(n, x)
    requires n.Block? ==> !Declared(n.decls, x)
    ensures k < |ks| && (Refers(ks[k], x) || UsedInside(ks[k], x))
  {
    if Refers(n, x) {
      k :| 0 <= k < |ks| && Refers(ks[k], x);
    } else {
      var g :| Outermost(n, g) && Free(g, x);
      k :| 0 <= k < |ks| && Outermost(ks[k], g);
    }
  }

  lemma {:induction false} DeclaresMarks(n: Node, x: string)
    requires Declares(n, x)
    ensures Hoisted(n, x) || BlockDeclares(n, x)
    decreases n
  {
    match n
    case Block(ds, ks) =>
      if k :| 0 <= k < |ds| && ds[k].plain && ds[k].name == x {
        assert ByVar(ds, x) || Lexical(ds, x);
      } else {
        var k :| 0 <= k < |ks| && Declares(ks[k], x);
        DeclaresMarks(ks[k], x);
      }
    case _ =>
  }

  lemma {:induction false} HoistedMarks(n: Node, x: string)
    requires Hoisted(n, x)
    ensures Marks(n, x)
    decreases n
  {
    match n
    case Block(ds, ks) =>
      if !ByVar(ds, x) {
        var k :| 0 <= k < |ks| && Hoisted(ks[k], x);
        HoistedMarks(ks[k], x);
      }
    case Labelled(_, s) => HoistedMarks(s, x);
    case _ =>
  }

  /** Where the block scopes of a function have been renamed, a name is overlooked exactly if it is used in default
      values only: while the body declares it, or nowhere but in functions within them. */
  lemma OnlyInDefaults(f: Node, x: string)
    requires f.Fn? && Renamed(f.body, x)
    ensures Overlooked(f, x) <==>
      Free(f, x) && DefaultUses(f, x) && !BodyUses(f, x) && (Declares(f.body, x) || !Shows(f, x))
  {
    if BodyUses(f, x) && Overlooked(f, x) {
      FreeIsMentioned(f.body, x);
      FreeStands(f.body, x);
      DeclaresMarks(f.body, x);
    }
  }

  // ---------- exactly where the walk is right ----------

  /** One function, what is in its body being judged right. */
  lemma FunctionBelow(f: Node, x: string)
    requires f.Fn? && (UsedInside(f.body, x) ==> Nested(f.body, x))
    requires Free(f, x) && !Overlooked(f, x)
    ensures Nested(f, x)
  {
    if BodyUses(f, x) { FreeIsMentioned(f.body, x); }
  }

  lemma FunctionAbove(f: Node, x: string)
    requires f.Fn? && (Nested(f.body, x) ==> UsedInside(f.body, x))
    requires Nested(f, x) && !Overreported(f, x)
    ensures Free(f, x)
  {
    assert Shows(f, x);
    if !DefaultUses(f, x) && !BodyUses(f, x) {
      if k :| 0 <= k < |f.defaults| && Refers(f.defaults[k], x) {
        MentionedIsFree(f.defaults[k], x);
      } else {
        MentionedIsFree(f.body, x);
        if Hoisted(f.body, x) { HoistedMarks(f.body, x); }
      }
    }
  }

  /** The conditions on all functions of n hold of what is in a part of n. */
  lemma PartOf(n: Node, part: Node, x: string)
    requires forall f :: In(part, f) ==> In(n, f)
    ensures NoneOverlooked(n, x) ==> NoneOverlooked(part, x)
    ensures NoneOverreported(n, x) ==> NoneOverreported(part, x)
  {
  }

  /** If no function of n is overlooked, the walk finds every name that one of them uses. */
  lemma {:induction false} NothingMissed(n: Node, x: string)
    requires NoneOverlooked(n, x) && UsedInside(n, x)
    ensures Nested(n, x)
    decreases n
  {
    var g :| Outermost(n, g) && Free(g, x);
    match n
    case Group(_, ks) =>
      var k :| 0 <= k < |ks| && Outermost(ks[k], g);
      PartOf(n, ks[k], x);
      NothingMissed(ks[k], x);
    case Block(_, ks) =>
      var k :| 0 <= k < |ks| && Outermost(ks[k], g);
      PartOf(n, ks[k], x);
      NothingMissed(ks[k], x);
    case Labelled(_, s) =>
      assert Outermost(s, g);
      PartOf(n, s, x);
      NothingMissed(s, x);
    case Named(_, f) =>
      assert Outermost(f, g);
      PartOf(n, f, x);
      NothingMissed(f, x);
    case Fn(_, _, _, b) =>
      assert In(n, n);
      PartOf(n, b, x);
      if UsedInside(b, x) { NothingMissed(b, x); }
      FunctionBelow(n, x);
  }

  /** If nothing is over-reported in any function of n, the walk finds only what one of them uses. */
  lemma {:induction false} NothingElse(n: Node, x: string)
    requires NoneOverreported(n, x) && Nested(n, x)
    ensures UsedInside(n, x)
    decreases n
  {
    match n
    case Group(_, ks) =>
      var k :| 0 <= k < |ks| && Nested(ks[k], x);
      PartOf(n, ks[k], x);
      NothingElse(ks[k], x);
      var g :| Outermost(ks[k], g) && Free(g, x);
      assert Outermost(n, g);
    case Block(_, ks) =>
      var k :| 0 <= k < |ks| && Nested(ks[k], x);
      PartOf(n, ks[k], x);
      NothingElse(ks[k], x);
      var g :| Outermost(ks[k], g) && Free(g, x);
      assert Outermost(n, g);
    case Labelled(_, s) =>
      PartOf(n, s, x);
      NothingElse(s, x);
      var g :| Outermost(s, g) && Free(g, x);
      assert Outermost(n, g);
    case Named(_, f) =>
      PartOf(n, f, x);
      NothingElse(f, x);
      var g :| Outermost(f, g) && Free(g, x);
      assert Outermost(n, g);
    case Fn(_, _, _, b) =>
      assert In(n, n) && Outermost(n, n);
      PartOf(n, b, x);
      if Nested(b, x) { NothingElse(b, x); }
      FunctionAbove(n, x);
  }

  /** All functions of n are judged right, and what is free in them. */
  ghost predicate AllRight(n: Node, x: string) {
    forall f :: In(n, f) ==> (Nested(f, x) <==> Free(f, x))
  }

  lemma {:induction false} OneFunction(n: Node, f: Node, x: string)
    requires In(n, f) && f.Fn?
    ensures NoneOverlooked(n, x) && Free(f, x) ==> Nested(f, x)
    ensures NoneOverreported(n, x) && Nested(f, x) ==> Free(f, x)
  {
    forall g | In(f, g) ensures In(n, g) { InIn(n, f, g); }
    PartOf(n, f, x);
    assert Outermost(f, f);
    if NoneOverlooked(n, x) && Free(f, x) { NothingMissed(f, x); }
    if NoneOverreported(n, x) && Nested(f, x) { NothingElse(f, x); }
  }

  /** Where the functions of a body are judged right, the body is. */
  lemma BodyRight(n: Node, f: Node, x: string)
    requires AllRight(n, x) && In(n, f) && f.Fn?
    ensures UsedInside(f.body, x) <==> Nested(f.body, x)
  {
    forall g | Outermost(f.body, g) ensures In(n, g) {
      OutermostIsIn(f.body, g);
      assert In(f, g);
      InIn(n, f, g);
    }
    if UsedInside(f.body, x) {
      var g :| Outermost(f.body, g) && Free(g, x);
      NestedBy(f.body, g, x);
    }
    if Nested(f.body, x) { var g := NestedIn(f.body, x); }
  }

  /** Every function of n is judged right exactly if none is overlooked and nothing is over-reported in any. */
  lemma {:induction false} WalkIsExact(n: Node, x: string)
    ensures AllRight(n, x) <==> NoneOverlooked(n, x) && NoneOverreported(n, x)
  {
    if NoneOverlooked(n, x) && NoneOverreported(n, x) {
      forall f | In(n, f) ensures Nested(f, x) <==> Free(f, x) {
        InIsFn(n, f);
        OneFunction(n, f, x);
      }
    }
    if AllRight(n, x) {
      forall f | In(n, f) && f.Fn? ensures !Overlooked(f, x) && !Overreported(f, x) {
        BodyRight(n, f, x);
      }
    }
  }

  lemma {:induction false} UseIsInside(n: Node, x: string)
    requires ClosureUses(n, x)
    ensures UsedInside(n, x)
    decreases n
  {
    match n
    case Group(_, ks) =>
      var k :| 0 <= k < |ks| && ClosureUses(ks[k], x);
      UseIsInside(ks[k], x);
      var g :| Outermost(ks[k], g) && Free(g, x);
      assert Outermost(n, g);
    case Block(_, ks) =>
      var k :| 0 <= k < |ks| && ClosureUses(ks[k], x);
      UseIsInside(ks[k], x);
      var g :| Outermost(ks[k], g) && Free(g, x);
      assert Outermost(n, g);
    case Labelled(_, s) =>
      UseIsInside(s, x);
      var g :| Outermost(s, g) && Free(g, x);
      assert Outermost(n, g);
    case Named(_, f) =>
      UseIsInside(f, x);
      var g :| Outermost(f, g) && Free(g, x);
      assert Outermost(n, g);
    case Fn(_, _, _, _) => assert Outermost(n, n);
  }

  lemma {:induction false} InsideIsUse(n: Node, x: string)
    requires UsedInside(n, x) && !Marks(n, x)
    ensures ClosureUses(n, x)
    decreases n
  {
    var g :| Outermost(n, g) && Free(g, x);
    match n
    case Group(_, ks) =>
      var k :| 0 <= k < |ks| && Outermost(ks[k], g);
      InsideIsUse(ks[k], x);
    case Block(ds, ks) =>
      var k :| 0 <= k < |ks| && Outermost(ks[k], g);
      InsideIsUse(ks[k], x);
      forall j | 0 <= j < |ks| && ks[j].Named? ensures ks[j].name == x ==> Marks(ks[j], x) {}
    case Labelled(_, s) =>
      assert Outermost(s, g);
      InsideIsUse(s, x);
    case Named(_, f) =>
      assert Outermost(f, g);
      InsideIsUse(f, x);
    case Fn(_, _, _, _) =>
  }

  /** At an outermost function all parameters are in sight. */
  lemma CapturedIsExact(f: Node, x: string)
    requires f.Fn? && (UsedInside(f.body, x) <==> Nested(f.body, x))
    ensures (Captured(f, x) <==> Free(f, x)) <==> !Overlooked(f, x) && (Overreported(f, x) ==> IsParam(f.params, x))
  {
    if Free(f, x) && !Overlooked(f, x) { FunctionBelow(f, x); }
    if Nested(f, x) && !Overreported(f, x) { FunctionAbove(f, x); }
  }

  ghost predicate NothingExtra(n: Node, x: string) {
    forall f :: Outermost(n, f) && f.Fn? ==>
      NoneOverreported(f.body, x) && (Overreported(f, x) ==> IsParam(f.params, x))
  }

  /** What the whole walk finds. */
  lemma ClosuresFound(n: Node, x: string)
    ensures NoneOverlooked(n, x) && UsedInside(n, x) ==> Found(n, x)
    ensures NothingExtra(n, x) && Found(n, x) ==> UsedInside(n, x)
  {
    if NoneOverlooked(n, x) && UsedInside(n, x) {
      var g :| Outermost(n, g) && Free(g, x);
      OutermostIsIn(n, g);
      InIsFn(n, g);
      OneFunction(n, g, x);
      FoundBy(n, g, x);
    }
    if NothingExtra(n, x) && Found(n, x) {
      var g := FoundIn(n, x);
      OutermostIsIn(n, g);
      forall f | In(g.body, f) ensures In(n, f) {
        assert In(g, f);
        InIn(n, g, f);
      }
      PartOf(n, g.body, x);
      if Nested(g.body, x) { NothingElse(g.body, x); }
      FunctionAbove(g, x);
    }
  }

  // ---------- inputs on which it goes wrong ----------

  /** `() => function (x = v) { x }`: the parameter is reported. */
  lemma DefaultedIsReported(x: string, v: Node)
    ensures var g := Fn([], [Param(x, false)], [v], Group(false, [Id(x)]));
      var f := Fn([], [], [], Group(false, [g]));
      Found(f, x) && !Free(f, x) && Overreported(g, x)
  {
    var g := Fn([], [Param(x, false)], [v], Group(false, [Id(x)]));
    var f := Fn([], [], [], Group(false, [g]));
    assert Refers(g.body.kids[0], x);
    assert g.params[0].name == x && IsParam(g.params, x);
    assert Nested(g, x) && !Free(g, x);
    assert f.body.kids[0] == g;
    assert Nested(f.body, x);
    assert Captured(f, x);
  }

  /** `() => { l: { var x; x } }`: so is a variable declared behind a label. */
  lemma LabelHides(l: string, x: string)
    ensures var f := Fn([], [], [], Block([], [Labelled(l, Block([Decl(x, true, true)], [Id(x)]))]));
      Found(f, x) && !Free(f, x) && Overreported(f, x)
  {
    var b := Block([Decl(x, true, true)], [Id(x)]);
    var f := Fn([], [], [], Block([], [Labelled(l, b)]));
    assert b.decls[0].name == x && b.decls[0].hoisted;
    assert Refers(b.kids[0], x) && Refers(b, x) && Hoisted(b, x);
    assert Refers(f.body.kids[0], x) && Hoisted(f.body.kids[0], x);
    assert Refers(f.body, x) && Hoisted(f.body, x);
    HoistedMarks(f.body, x);
  }

  /** `(a = () => x) => 0`: what only a function within a default value uses is overlooked. */
  lemma DefaultHides(a: string, x: string)
    requires a != x
    ensures var f := Fn([], [Param(a, false)], [Fn([], [], [], Id(x))], Group(false, []));
      !Found(f, x) && Free(f, x) && Overlooked(f, x)
  {
    var g := Fn([], [], [], Id(x));
    var f := Fn([], [Param(a, false)], [g], Group(false, []));
    assert Free(f.defaults[0], x);
  }

  /** `(a = x) => { var x; }`: so is what a default value uses and the body declares for itself. */
  lemma BodyHides(a: string, x: string)
    requires a != x
    ensures var f := Fn([], [Param(a, false)], [Id(x)], Block([Decl(x, true, true)], []));
      !Found(f, x) && Free(f, x) && Overlooked(f, x)
  {
    var f := Fn([], [Param(a, false)], [Id(x)], Block([Decl(x, true, true)], []));
    assert Free(f.defaults[0], x);
    assert f.body.decls[0].name == x && f.body.decls[0].hoisted;
    assert Hoisted(f.body, x);
  }
}
