/** The wasm32 assembler's buffer byte by byte (asm/wasm32.js): fields with room for numbers to come, labels and fixups
    at byte offsets, and what the patched bytes read back as. */
module Wasm32Bytes {
  import opened Basics
  import opened WasmCore
  import opened Wasm32Asm
  import Leb128

  /** The bytes of the instructions that have no open number in them. */
  type Coding = Tok -> seq<int>

  function Opcode(t: STok): int {
    match t
    case ToLoop(cond, _) => if cond then 0x0d else 0x0c
    case IndexOf(_) => 0x41
    case AddressOf(_) => 0x42
    case Plain(_) => 0
  }

  /** The bytes kept free for a number. */
  function Width(segSize: nat, t: STok): (w: nat)
    ensures w > 0
  {
    if t.ToLoop? then Leb128.UlebLen(segSize + 2) else 5
  }

  function Open(enc: Coding, segSize: nat, t: STok): (b: seq<int>)
    ensures !t.Plain? ==> |b| == 1 + Width(segSize, t)
  {
    if t.Plain? then enc(t.tok) else [Opcode(t)] + Leb128.Padded(0, Width(segSize, t))
  }

  /** What the patchers make of the number they are given. */
  function Field(names: seq<string>, segSize: nat, li: nat, t: STok): int
    requires segSize > 0 && Defined(names, t)
  {
    match t
    case ToLoop(_, extra) => U32(RawDepth(|names|, segSize, li) + extra)
    case IndexOf(l) => Leb128.I32(LastIndex(names, l))
    case AddressOf(l) => Leb128.Signed(Leb128.Pattern(CODE_BASE + LastIndex(names, l)))
    case Plain(_) => 0
  }

  function Closed(enc: Coding, names: seq<string>, segSize: nat, li: nat, t: STok): (b: seq<int>)
    requires segSize > 0 && Defined(names, t)
    ensures |b| == |Open(enc, segSize, t)|
  {
    if t.Plain? then enc(t.tok) else [Opcode(t)] + Leb128.Padded(Field(names, segSize, li, t), Width(segSize, t))
  }

  function Flat(pieces: seq<seq<int>>): seq<int> {
    if pieces == [] then [] else Flat(pieces[..|pieces| - 1]) + pieces[|pieces| - 1]
  }

  function OpenPieces(enc: Coding, segSize: nat, src: seq<STok>): seq<seq<int>> {
    seq(|src|, p requires 0 <= p < |src| => Open(enc, segSize, src[p]))
  }

  /** The byte offset of a token. */
  function Place(enc: Coding, segSize: nat, src: seq<STok>, p: nat): nat
    requires p <= |src|
  {
    if p == 0 then 0 else Place(enc, segSize, src, p - 1) + |Open(enc, segSize, src[p - 1])|
  }

  /** The fixups, with byte offsets: each points behind its opcode. */
  function ByteFixups(enc: Coding, segSize: nat, src: seq<STok>): seq<Fixup> {
    if src == [] then []
    else
      var n := |src| - 1;
      ByteFixups(enc, segSize, src[..n]) + FixupOf(Place(enc, segSize, src, n) + 1, src[n])
  }

  lemma {:induction false} PlaceStays(enc: Coding, segSize: nat, src: seq<STok>, more: seq<STok>, p: nat)
    requires p <= |src|
    ensures Place(enc, segSize, src + more, p) == Place(enc, segSize, src, p)
    decreases p
  {
    if p > 0 { PlaceStays(enc, segSize, src, more, p - 1); }
  }

  lemma {:induction false} PlaceMono(enc: Coding, segSize: nat, src: seq<STok>, p: nat, q: nat)
    requires p <= q <= |src|
    ensures Place(enc, segSize, src, p) <= Place(enc, segSize, src, q)
    decreases q
  {
    if p < q { PlaceMono(enc, segSize, src, p, q - 1); }
  }

  /** In pieces of the lengths of the open ones each piece starts at its token's offset. */
  lemma {:induction false} PieceAt(enc: Coding, segSize: nat, src: seq<STok>, pieces: seq<seq<int>>, p: nat)
    requires |pieces| == |src| && forall k :: 0 <= k < |src| ==> |pieces[k]| == |Open(enc, segSize, src[k])|
    requires p <= |src|
    ensures |Flat(pieces[..p])| == Place(enc, segSize, src, p)
    decreases p
  {
    if p > 0 {
      PieceAt(enc, segSize, src, pieces, p - 1);
      assert pieces[..p][..p - 1] == pieces[..p - 1];
    }
  }

  lemma {:induction false} FlatCat(a: seq<seq<int>>, b: seq<seq<int>>)
    ensures Flat(a + b) == Flat(a) + Flat(b)
    decreases |b|
  {
    if b == [] {
      assert a + b == a;
    } else {
      var n := |b| - 1;
      assert (a + b)[..|a + b| - 1] == a + b[..n];
      FlatCat(a, b[..n]);
    }
  }

  lemma FlatAround(pieces: seq<seq<int>>, p: nat)
    requires p < |pieces|
    ensures Flat(pieces) == Flat(pieces[..p]) + pieces[p] + Flat(pieces[p + 1..])
  {
    hide Flat;
    var a, b := pieces[..p + 1], pieces[p + 1..];
    assert pieces == a + b;
    FlatCat(a, b);
    assert Flat(a) == Flat(pieces[..p]) + pieces[p] by {
      FlatEnd(a);
      assert a[..p] == pieces[..p];
    }
  }

  lemma FlatEnd(a: seq<seq<int>>)
    requires a != []
    ensures Flat(a) == Flat(a[..|a| - 1]) + a[|a| - 1]
  {
  }

  lemma Splice(a: seq<int>, op: int, rest: seq<int>, b: seq<int>, field: seq<int>)
    requires |field| == |rest|
    ensures var code, at := a + ([op] + rest) + b, |a| + 1;
      code[..at] + field + code[at + |field|..] == a + ([op] + field) + b
  {
  }

  /** Writing a field in place replaces the piece it is in. */
  lemma FieldReplaced(pieces: seq<seq<int>>, p: nat, op: int, rest: seq<int>, field: seq<int>)
    requires p < |pieces| && pieces[p] == [op] + rest && |rest| == |field|
    ensures var code, at := Flat(pieces), |Flat(pieces[..p])|;
      && at + |pieces[p]| <= |code|
      && code[..at + 1] + field + code[at + 1 + |field|..] == Flat(pieces[p := [op] + field])
  {
    hide Flat;
    var now := pieces[p := [op] + field];
    FlatAround(pieces, p);
    FlatAround(now, p);
    assert now[..p] == pieces[..p] && now[p + 1..] == pieces[p + 1..];
    Splice(Flat(pieces[..p]), op, rest, Flat(pieces[p + 1..]), field);
  }

  /** The i-th fixup of the buffer is that of the i-th open token. */
  lemma {:induction false} ByteFixupIs(enc: Coding, segSize: nat, src: seq<STok>, i: nat)
    requires i < |FixupsOf(src)|
    ensures |ByteFixups(enc, segSize, src)| == |FixupsOf(src)|
    ensures var p := FixupsOf(src)[i].offset;
      p < |src| && !src[p].Plain? &&
      FixupOf(Place(enc, segSize, src, p) + 1, src[p]) == [ByteFixups(enc, segSize, src)[i]]
    decreases |src|
  {
    hide Place, Open;
    var n := |src| - 1;
    var head := src[..n];
    SameNumber(enc, segSize, src);
    SameNumber(enc, segSize, head);
    assert FixupsOf(src) == FixupsOf(head) + FixupOf(n, src[n]);
    var at := Place(enc, segSize, src, n) + 1;
    assert ByteFixups(enc, segSize, src) == ByteFixups(enc, segSize, head) + FixupOf(at, src[n]);
    FixupShape(n, src[n]);
    FixupShape(at, src[n]);
    hide FixupOf, FixupsOf, ByteFixups;
    if i < |FixupsOf(head)| {
      ByteFixupIs(enc, segSize, head, i);
      var p := FixupsOf(head)[i].offset;
      assert src == head + [src[n]];
      PlaceStays(enc, segSize, head, [src[n]], p);
      assert FixupsOf(src)[i].offset == p && src[p] == head[p];
    } else {
      assert FixupsOf(src)[i] == FixupOf(n, src[n])[0];
    }
  }

  lemma FixupShape(p: nat, t: STok)
    ensures if t.Plain? then FixupOf(p, t) == [] else |FixupOf(p, t)| == 1 && FixupOf(p, t)[0].offset == p
  {
  }

  lemma {:induction false} SameNumber(enc: Coding, segSize: nat, src: seq<STok>)
    ensures |ByteFixups(enc, segSize, src)| == |FixupsOf(src)|
    decreases |src|
  {
    hide Place, Open;
    if src != [] { SameNumber(enc, segSize, src[..|src| - 1]); }
  }

  /** Labels and their byte offsets. */
  predicate Marked(enc: Coding, segSize: nat, src: seq<STok>, marks: seq<nat>, offs: seq<nat>) {
    && |marks| == |offs| && Sorted(marks)
    && forall i :: 0 <= i < |marks| ==> marks[i] <= |src| && offs[i] == Place(enc, segSize, src, marks[i])
  }

  lemma MarksSorted(enc: Coding, segSize: nat, src: seq<STok>, marks: seq<nat>, offs: seq<nat>)
    requires Marked(enc, segSize, src, marks, offs)
    ensures Sorted(offs)
  {
    forall i, j | 0 <= i <= j < |offs| ensures offs[i] <= offs[j] {
      PlaceMono(enc, segSize, src, marks[i], marks[j]);
    }
  }

  lemma {:induction false} SameLast(offs: seq<nat>, off: nat, marks: seq<nat>, p: nat)
    requires |offs| == |marks| && forall i :: 0 <= i < |offs| ==> (offs[i] <= off <==> marks[i] <= p)
    ensures LastBefore(offs, off) == LastBefore(marks, p)
    decreases |offs|
  {
    if offs != [] { SameLast(offs[..|offs| - 1], off, marks[..|marks| - 1], p); }
  }

  /** The label a field belongs to is that of its token, though the field starts behind the opcode. */
  lemma SameLabel(enc: Coding, segSize: nat, src: seq<STok>, marks: seq<nat>, offs: seq<nat>, p: nat)
    requires Marked(enc, segSize, src, marks, offs) && p < |src| && !src[p].Plain?
    ensures LastBefore(offs, Place(enc, segSize, src, p) + 1) == LastBefore(marks, p)
  {
    hide Open, LastBefore;
    var off := Place(enc, segSize, src, p) + 1;
    assert Place(enc, segSize, src, p + 1) > off;
    hide Place;
    forall i | 0 <= i < |offs| ensures offs[i] <= off <==> marks[i] <= p {
      if marks[i] <= p {
        PlaceMono(enc, segSize, src, marks[i], p);
      } else {
        PlaceMono(enc, segSize, src, p + 1, marks[i]);
      }
    }
    SameLast(offs, off, marks, p);
  }

  lemma AllHaveFixups(src: seq<STok>)
    ensures forall p :: 0 <= p < |src| && !src[p].Plain? ==>
      Turn(src, p) < |FixupsOf(src)| && FixupsOf(src)[Turn(src, p)].offset == p
  {
    forall p | 0 <= p < |src| && !src[p].Plain?
      ensures Turn(src, p) < |FixupsOf(src)| && FixupsOf(src)[Turn(src, p)].offset == p
    {
      HasFixup(src, p);
      FixupNames(p, src[p]);
    }
  }

  /** The first i fixups are done. */
  predicate Half(enc: Coding, names: seq<string>, segSize: nat, marks: seq<nat>, src: seq<STok>,
      pieces: seq<seq<int>>, i: nat)
    requires segSize > 0
  {
    |pieces| == |src| && forall p :: 0 <= p < |src| ==>
      if src[p].Plain? || Turn(src, p) >= i then pieces[p] == Open(enc, segSize, src[p])
      else Defined(names, src[p]) && pieces[p] == Closed(enc, names, segSize, LastBefore(marks, p), src[p])
  }

  function ClosedPieces(enc: Coding, names: seq<string>, segSize: nat, marks: seq<nat>, src: seq<STok>): seq<seq<int>>
    requires segSize > 0 && forall p :: 0 <= p < |src| ==> Defined(names, src[p])
  {
    seq(|src|, p requires 0 <= p < |src| => Closed(enc, names, segSize, LastBefore(marks, p), src[p]))
  }

  lemma HalfIsAll(enc: Coding, names: seq<string>, segSize: nat, marks: seq<nat>, src: seq<STok>,
      pieces: seq<seq<int>>)
    requires segSize > 0 && Half(enc, names, segSize, marks, src, pieces, |FixupsOf(src)|)
    requires forall p :: 0 <= p < |src| && !src[p].Plain? ==> Turn(src, p) < |FixupsOf(src)|
    ensures forall p :: 0 <= p < |src| ==> Defined(names, src[p])
    ensures pieces == ClosedPieces(enc, names, segSize, marks, src)
  {
    hide Turn, FixupsOf, LastBefore, LastIndex;
    forall p | 0 <= p < |src| ensures Defined(names, src[p]) {}
    forall p | 0 <= p < |src| ensures pieces[p] == ClosedPieces(enc, names, segSize, marks, src)[p] {}
  }

  lemma FieldFits(pieces: seq<seq<int>>, p: nat)
    requires p < |pieces|
    ensures |Flat(pieces[..p])| + |pieces[p]| <= |Flat(pieces)|
  {
    FlatAround(pieces, p);
  }

  /** The buffer with the number of one token filled in. */
  lemma PieceDone(enc: Coding, names: seq<string>, segSize: nat, li: nat, t: STok, pieces: seq<seq<int>>, p: nat,
      was: seq<int>, now: seq<int>)
    requires segSize > 0 && Defined(names, t) && !t.Plain?
    requires p < |pieces| && pieces[p] == Open(enc, segSize, t) && was == Flat(pieces)
    requires var at, w := |Flat(pieces[..p])| + 1, Width(segSize, t);
      at + w <= |was| && now == was[..at] + Leb128.Padded(Field(names, segSize, li, t), w) + was[at + w..]
    ensures now == Flat(pieces[p := Closed(enc, names, segSize, li, t)])
  {
    hide Flat, Width, Opcode, Field;
    var w := Width(segSize, t);
    FieldReplaced(pieces, p, Opcode(t), Leb128.Padded(0, w), Leb128.Padded(Field(names, segSize, li, t), w));
  }

  // ---------- the buffer ----------

  class ByteAssembler {
    const enc: Coding
    const segSize: nat
    const buffer: Leb128.CodeBuffer
    var names: seq<string>
    var offs: seq<nat>
    var fixups: seq<Fixup>
    ghost var src: seq<STok>
    ghost var marks: seq<nat>

    /** The buffer is the tokens laid out one behind the other. */
    ghost predicate Lays()
      reads this, buffer
    {
      && segSize > 0 && buffer.code == Flat(OpenPieces(enc, segSize, src))
      && fixups == ByteFixups(enc, segSize, src)
      && |names| == |marks| && Marked(enc, segSize, src, marks, offs)
    }

    constructor (enc: Coding, segSize: nat)
      requires segSize > 0
      ensures Lays() && src == [] && names == [] && this.enc == enc && this.segSize == segSize && fresh(buffer)
    {
      this.enc, this.segSize := enc, segSize;
      buffer := new Leb128.CodeBuffer();
      names, offs, fixups, src, marks := [], [], [], [], [];
    }

    method Emit(t: Tok)
      requires Lays()
      modifies this`src, buffer
      ensures Lays() && src == old(src) + [Plain(t)]
    {
      LaidNext(enc, segSize, src, marks, offs, Plain(t));
      buffer.code := buffer.code + enc(t);
      src := src + [Plain(t)];
    }

    method AddPcFixup(name: string)
      requires Lays()
      modifies this`src, this`fixups, buffer
      ensures Lays() && src == old(src) + [IndexOf(name)]
    {
      AddField(IndexOf(name));
    }

    method AddAbs64Fixup(name: string)
      requires Lays()
      modifies this`src, this`fixups, buffer
      ensures Lays() && src == old(src) + [AddressOf(name)]
    {
      AddField(AddressOf(name));
    }

    method AddBrDepthFixup(cond: bool, extra: nat)
      requires Lays()
      modifies this`src, this`fixups, buffer
      ensures Lays() && src == old(src) + [ToLoop(cond, extra)]
    {
      AddField(ToLoop(cond, extra));
    }

    /** Opcode, a field that reads as 0, and the fixup for it. */
    method AddField(t: STok)
      requires Lays() && !t.Plain?
      modifies this`src, this`fixups, buffer
      ensures Lays() && src == old(src) + [t]
    {
      LaidNext(enc, segSize, src, marks, offs, t);
      var off := EmitField(t);
      fixups := fixups + FixupOf(off, t);
      src := src + [t];
    }

    method EmitField(t: STok) returns (off: nat)
      requires !t.Plain?
      modifies buffer
      ensures off == old(|buffer.code|) + 1 && buffer.code == old(buffer.code) + Open(enc, segSize, t)
    {
      buffer.code := buffer.code + [Opcode(t)];
      off := buffer.EmitPadN(Width(segSize, t));
      Regroup(old(buffer.code), [Opcode(t)], Leb128.Padded(0, Width(segSize, t)), []);
    }

    method Label(name: string)
      requires Lays()
      modifies this`names, this`offs, this`marks
      ensures Lays() && names == old(names) + [name] && marks == old(marks) + [|src|]
    {
      AllPlaced(enc, segSize, src);
      names := names + [name];
      offs := offs + [|buffer.code|];
      marks := marks + [|src|];
    }

    /** One fixup, of the token at position p; what it changes is that token's piece. */
    method PatchFixup(fixup: Fixup, idx: map<string, nat>, arithmetic: bool, ghost p: nat, ghost pieces: seq<seq<int>>)
        returns (ok: bool)
      requires InPieces(pieces) && p < |src| && !src[p].Plain? && pieces[p] == Open(enc, segSize, src[p])
      requires FixupOf(Place(enc, segSize, src, p) + 1, src[p]) == [fixup]
      requires forall l :: l in idx <==> l in names
      requires forall l :: l in idx ==> idx[l] == LastIndex(names, l)
      modifies buffer
      ensures ok <==> Defined(names, src[p])
      ensures ok ==>
        InPieces(pieces[p := Closed(enc, names, segSize, LastBefore(marks, p), src[p])])
    {
      PieceAt(enc, segSize, src, pieces, p);
      FieldFits(pieces, p);
      ghost var was, t := buffer.code, src[p];
      SameLabel(enc, segSize, src, marks, offs, p);
      MarksSorted(enc, segSize, src, marks, offs);
      hide Flat, Place, Marked, LastBefore, LastIndex, Sorted, RawDepth, Open, Closed, Width, Field;
      ok := WriteNumber(fixup, idx, arithmetic, t, LastBefore(marks, p));
      if ok { PieceDone(enc, names, segSize, LastBefore(marks, p), t, pieces, p, was, buffer.code); }
    }

    /** The number of one fixup goes into its field. */
    method WriteNumber(fixup: Fixup, idx: map<string, nat>, arithmetic: bool, ghost t: STok, ghost li: nat)
        returns (ok: bool)
      requires !t.Plain? && segSize > 0 && FixupOf(fixup.offset, t) == [fixup] && Sorted(offs)
      requires fixup.offset + Width(segSize, t) <= |buffer.code| && li == LastBefore(offs, fixup.offset)
      requires forall l :: l in idx <==> l in names
      requires forall l :: l in idx ==> idx[l] == LastIndex(names, l)
      modifies buffer
      ensures ok <==> Defined(names, t)
      ensures ok ==> var at, w := fixup.offset, Width(segSize, t);
        buffer.code ==
          old(buffer.code)[..at] + Leb128.Padded(Field(names, segSize, li, t), w) + old(buffer.code)[at + w..]
    {
      hide LastBefore, LastIndex, Sorted, RawDepth;
      match fixup {
        case BrFixup(off, extra) =>
          var li := SegmentOf(offs, off);
          buffer.PatchUlebN(off, RawDepth(|names|, segSize, li) + extra, Leb128.UlebLen(segSize + 2));
        case PcFixup(off, name) =>
          if name !in idx { return false; }
          buffer.PatchSleb32(off, idx[name]);
        case Abs64Fixup(off, name) =>
          if name !in idx { return false; }
          buffer.PatchSlebW(off, CODE_BASE + idx[name], 5, arithmetic);
      }
      ok := true;
    }

    /** Fails exactly when a label that is asked for has not been defined; otherwise every field holds its number. */
    method FixupAll(arithmetic: bool) returns (ok: bool)
      requires Lays()
      modifies buffer
      ensures ok <==> forall p :: 0 <= p < |src| ==> Defined(names, src[p])
      ensures ok ==> buffer.code == Flat(ClosedPieces(enc, names, segSize, marks, src))
    {
      var idx := LabelIndex(names);
      ghost var pieces := OpenPieces(enc, segSize, src);
      AllHaveFixups(src);
      SameNumber(enc, segSize, src);
      hide Flat, Marked, Open, Closed, Turn, FixupsOf, ByteFixups, FixupOf, Defined, LastIndex, Place;
      var i := 0;
      while i < |fixups|
        invariant i <= |fixups| && InPieces(pieces) && Half(enc, names, segSize, marks, src, pieces, i)
      {
        HasPosition(src, i);
        ByteFixupIs(enc, segSize, src, i);
        ghost var p := FixupsOf(src)[i].offset;
        ok := PatchFixup(fixups[i], idx, arithmetic, p, pieces);
        if !ok { return; }
        pieces := pieces[p := Closed(enc, names, segSize, LastBefore(marks, p), src[p])];
        i := i + 1;
      }
      HalfIsAll(enc, names, segSize, marks, src, pieces);
      ok := true;
    }

    /** The buffer in pieces of the tokens' lengths. */
    ghost predicate InPieces(pieces: seq<seq<int>>)
      reads this, buffer
    {
      && segSize > 0 && |names| == |marks| && Marked(enc, segSize, src, marks, offs)
      && |pieces| == |src| && buffer.code == Flat(pieces)
      && forall k :: 0 <= k < |src| ==> |pieces[k]| == |Open(enc, segSize, src[k])|
    }
  }

  lemma FlatNext(enc: Coding, segSize: nat, src: seq<STok>, t: STok)
    ensures Flat(OpenPieces(enc, segSize, src + [t])) == Flat(OpenPieces(enc, segSize, src)) + Open(enc, segSize, t)
  {
    var was, now := OpenPieces(enc, segSize, src), OpenPieces(enc, segSize, src + [t]);
    hide Open, Flat;
    assert now[..|src|] == was;
    FlatEnd(now);
  }

  lemma MarksStay(enc: Coding, segSize: nat, src: seq<STok>, marks: seq<nat>, offs: seq<nat>, t: STok)
    requires Marked(enc, segSize, src, marks, offs)
    ensures Marked(enc, segSize, src + [t], marks, offs)
  {
    hide Place;
    forall i | 0 <= i < |marks|
      ensures Place(enc, segSize, src + [t], marks[i]) == Place(enc, segSize, src, marks[i])
    {
      PlaceStays(enc, segSize, src, [t], marks[i]);
    }
  }

  lemma LaidNext(enc: Coding, segSize: nat, src: seq<STok>, marks: seq<nat>, offs: seq<nat>, t: STok)
    requires Marked(enc, segSize, src, marks, offs)
    ensures Marked(enc, segSize, src + [t], marks, offs)
    ensures Flat(OpenPieces(enc, segSize, src + [t])) == Flat(OpenPieces(enc, segSize, src)) + Open(enc, segSize, t)
    ensures ByteFixups(enc, segSize, src + [t]) ==
      ByteFixups(enc, segSize, src) + FixupOf(|Flat(OpenPieces(enc, segSize, src))| + 1, t)
  {
    hide Place, Marked, Open, Flat, FixupOf;
    FlatNext(enc, segSize, src, t);
    MarksStay(enc, segSize, src, marks, offs, t);
    AllPlaced(enc, segSize, src);
    PlaceStays(enc, segSize, src, [t], |src|);
    assert (src + [t])[..|src|] == src;
  }

  lemma AllPlaced(enc: Coding, segSize: nat, src: seq<STok>)
    ensures |Flat(OpenPieces(enc, segSize, src))| == Place(enc, segSize, src, |src|)
  {
    var all := OpenPieces(enc, segSize, src);
    hide Place, Open, Flat;
    PieceAt(enc, segSize, src, all, |src|);
    assert all[..|src|] == all;
  }

  // ---------- reading the buffer ----------

  lemma ModIs(n: int, m: int, q: int, r: int)
    requires m > 0 && n == m * q + r && 0 <= r < m
    ensures n % m == r
  {
    var d := n / m - q;
    assert m * d == r - n % m;
    Multiple(m, d);
  }

  lemma Multiple(m: int, d: int)
    requires m > 0
    ensures d >= 1 ==> m * d >= m
    ensures d <= -1 ==> m * d <= -m
  {
  }

  lemma LowGroup(n: nat, p: nat)
    requires p > 0
    ensures n % (128 * p) % 128 == n % 128 && n % (128 * p) / 128 == n / 128 % p
  {
    var a, b := n / 128, n % 128;
    var q, r := a / p, a % p;
    assert a == p * q + r;
    assert 128 * (p * q) == 128 * p * q;
    ModIs(n, 128 * p, q, 128 * r + b);
  }

  /** Only the bits that fit matter. */
  lemma {:induction false} PaddedLow(n: nat, w: nat)
    requires w > 0
    ensures Leb128.Padded(n, w) == Leb128.Padded(n % Pow2(7 * w), w)
    decreases w
  {
    if w == 1 {
      Leb128.PowSplit(0);
      assert Pow2(7) == 128;
    } else {
      Leb128.PowSplit(7 * (w - 1));
      LowGroup(n, Pow2(7 * (w - 1)));
      PaddedLow(n / 128, w - 1);
    }
  }

  /** The bytes from at to next are that instruction, read by the decoder of the WebAssembly specification. */
  predicate Spells(b: seq<int>, at: nat, next: nat, tok: Tok) {
    at < |b| && match tok
      case ConstI(k) => b[at] == 0x41 && Leb128.DecS(32, b, at + 1) == Leb128.Read.Read(k, next)
      case Const64(k) => b[at] == 0x42 && Leb128.DecS(64, b, at + 1) == Leb128.Read.Read(k, next)
      case Br(d) => b[at] == 0x0c && Leb128.DecU(32, b, at + 1) == Leb128.Read.Read(d, next)
      case BrIf(d) => b[at] == 0x0d && Leb128.DecU(32, b, at + 1) == Leb128.Read.Read(d, next)
      case _ => false
  }

  lemma Behind(before: seq<int>, op: int, field: seq<int>, after: seq<int>)
    ensures var b := before + ([op] + field) + after;
      b == before + [op] + field + after && |before| < |b| && b[|before|] == op
  {
  }

  lemma FieldSpells(enc: Coding, names: seq<string>, segSize: nat, li: nat, t: STok, before: seq<int>,
      after: seq<int>)
    requires 0 < segSize && segSize + 2 < 0x8000_0000 && |names| < 0x7000_0000
    requires !t.Plain? && Defined(names, t)
    ensures var piece := Closed(enc, names, segSize, li, t);
      Spells(before + piece + after, |before|, |before| + |piece|, Patch(names, segSize, li, t))
  {
    hide RawDepth, LastIndex, Leb128.DecS, Leb128.DecU, Leb128.Padded, Leb128.UlebLen, Spells, Patch, Closed;
    match t {
      case ToLoop(_, extra) => BranchSpells(enc, names, segSize, li, t, before, after);
      case IndexOf(_) => IndexSpells(enc, names, segSize, li, t, before, after);
      case AddressOf(_) => AddressSpells(enc, names, segSize, li, t, before, after);
    }
  }

  lemma IndexSpells(enc: Coding, names: seq<string>, segSize: nat, li: nat, t: STok, before: seq<int>,
      after: seq<int>)
    requires 0 < segSize && |names| < 0x7000_0000 && t.IndexOf? && Defined(names, t)
    ensures var piece := Closed(enc, names, segSize, li, t);
      Spells(before + piece + after, |before|, |before| + |piece|, Patch(names, segSize, li, t))
  {
    hide LastIndex, Leb128.DecS, Leb128.Padded, Leb128.UlebLen, Flat;
    var k := LastIndex(names, t.name);
    Behind(before, 0x41, Leb128.Padded(Leb128.I32(k), 5), after);
    Leb128.Sleb32ReadsBack(before + [0x41], k, after);
  }

  lemma AddressSpells(enc: Coding, names: seq<string>, segSize: nat, li: nat, t: STok, before: seq<int>,
      after: seq<int>)
    requires 0 < segSize && |names| < 0x7000_0000 && t.AddressOf? && Defined(names, t)
    ensures var piece := Closed(enc, names, segSize, li, t);
      Spells(before + piece + after, |before|, |before| + |piece|, Patch(names, segSize, li, t))
  {
    hide LastIndex, Leb128.DecS, Leb128.Padded, Leb128.UlebLen, Flat;
    var k := CODE_BASE + LastIndex(names, t.name);
    Leb128.CutTo64(k);
    Behind(before, 0x42, Leb128.Padded(k, 5), after);
    Leb128.Sleb64ReadsBack(before + [0x42], k, 5, after);
  }

  lemma BranchSpells(enc: Coding, names: seq<string>, segSize: nat, li: nat, t: STok, before: seq<int>,
      after: seq<int>)
    requires 0 < segSize && segSize + 2 < 0x8000_0000 && t.ToLoop?
    ensures var piece := Closed(enc, names, segSize, li, t);
      Spells(before + piece + after, |before|, |before| + |piece|, Patch(names, segSize, li, t))
  {
    hide RawDepth, Leb128.DecU, Leb128.Padded, Leb128.UlebLen, Flat, Low;
    var d := U32(RawDepth(|names|, segSize, li) + t.extra);
    Behind(before, Opcode(t), Leb128.Padded(d, Width(segSize, t)), after);
    DepthSpells(before + [Opcode(t)], d, segSize, after);
  }

  lemma DepthSpells(before: seq<int>, d: nat, segSize: nat, after: seq<int>)
    requires segSize + 2 < 0x8000_0000 && d < TWO32
    ensures var w := Leb128.UlebLen(segSize + 2);
      Leb128.DecU(32, before + Leb128.Padded(d, w) + after, |before|) ==
        Leb128.Read.Read(Low(d, Pow2(7 * w)), |before| + w)
  {
    var w := Leb128.UlebLen(segSize + 2);
    var low := Low(d, Pow2(7 * w));
    PaddedLow(d, w);
    Leb128.PowThirtyOne();
    Leb128.PowMono(31, 32);
    Leb128.LenOfU32(segSize + 2);
    var b := before + Leb128.Padded(low, w) + after;
    assert Leb128.At(b, |before|, Leb128.Padded(low, w));
    LowIsSmall(d, Pow2(7 * w));
    Leb128.PaddedReadsU(32, low, w, b, |before|);
  }

  lemma LowIsSmall(d: nat, p: nat)
    requires p > 0
    ensures Low(d, p) < p && Low(d, p) <= d
  {
  }

  /** The patched buffer is the assembler's code: token by token, each at its offset and up to that of the next, either
      the bytes it was given or an instruction that reads back with the resolved number. */
  lemma BufferIsCode(enc: Coding, names: seq<string>, segSize: nat, marks: seq<nat>, src: seq<STok>, code: seq<Tok>,
      p: nat)
    requires 0 < segSize && segSize + 2 < 0x8000_0000 && |names| < 0x7000_0000
    requires Patched(names, segSize, marks, src, code) && p < |src|
    ensures var b := Flat(ClosedPieces(enc, names, segSize, marks, src));
      var at, next := Place(enc, segSize, src, p), Place(enc, segSize, src, p + 1);
      && at <= next <= |b| && Place(enc, segSize, src, |src|) == |b|
      && (if src[p].Plain? then b[at..next] == enc(code[p]) else Spells(b, at, next, code[p]))
  {
    hide Flat, LastBefore, Closed, Open, Leb128.DecS, Leb128.DecU, Patch, Defined;
    var pieces := ClosedPieces(enc, names, segSize, marks, src);
    var li := LastBefore(marks, p);
    assert pieces[p] == Closed(enc, names, segSize, li, src[p]);
    assert pieces[..|src|] == pieces;
    PieceAt(enc, segSize, src, pieces, p);
    PieceAt(enc, segSize, src, pieces, |src|);
    FlatAround(pieces, p);
    if src[p].Plain? {
      PlainSpells(enc, names, segSize, li, src[p]);
    } else {
      FieldSpells(enc, names, segSize, li, src[p], Flat(pieces[..p]), Flat(pieces[p + 1..]));
    }
  }

  lemma PlainSpells(enc: Coding, names: seq<string>, segSize: nat, li: nat, t: STok)
    requires segSize > 0 && t.Plain?
    ensures Closed(enc, names, segSize, li, t) == enc(Patch(names, segSize, li, t))
  {
  }
}
