/** LEB128 integers (asm/wasm32.js): the encoders and in-place patchers, and the decoder of section 5.2.2 of WebAssembly
    Core Specification 1.0 that reads them back. */
module Leb128 {
  import opened Basics

  const TWO31: int := 0x8000_0000
  const TWO57: int := 0x200_0000_0000_0000

  /** `n | 0`. */
  function I32(n: int): (r: int)
    ensures -TWO31 <= r < TWO31 && (-TWO31 <= n < TWO31 ==> r == n)
  {
    (n + TWO31) % TWO32 - TWO31
  }

  // ---------- the decoder ----------

  datatype Read = Read(value: int, next: nat) | Malformed

  /** uN. */
  function DecU(bits: nat, b: seq<int>, i: nat): Read
    decreases bits
  {
    if i >= |b| || b[i] < 0 || b[i] >= 256 then Malformed
    else if b[i] < 128 then (if b[i] < Pow2(bits) then Read(b[i], i + 1) else Malformed)
    else if bits <= 7 then Malformed
    else match DecU(bits - 7, b, i + 1)
      case Read(m, next) => Read(128 * m + (b[i] - 128), next)
      case Malformed => Malformed
  }

  /** sN. */
  function DecS(bits: nat, b: seq<int>, i: nat): Read
    requires bits > 0
    decreases bits
  {
    if i >= |b| || b[i] < 0 || b[i] >= 256 then Malformed
    else if b[i] < 64 then (if b[i] < Pow2(bits - 1) then Read(b[i], i + 1) else Malformed)
    else if b[i] < 128 then (if b[i] >= 128 - Pow2(bits - 1) then Read(b[i] - 128, i + 1) else Malformed)
    else if bits <= 7 then Malformed
    else match DecS(bits - 7, b, i + 1)
      case Read(m, next) => Read(128 * m + (b[i] - 128), next)
      case Malformed => Malformed
  }

  // ---------- what is written ----------

  function Uleb(n: nat): (b: seq<int>)
    ensures |b| >= 1
  {
    if n < 128 then [n] else [n % 128 + 128] + Uleb(n / 128)
  }

  function Sleb(n: int): (b: seq<int>)
    ensures |b| >= 1
    decreases if n < 0 then -n else n
  {
    if -64 <= n < 64 then [n % 128] else [n % 128 + 128] + Sleb(n / 128)
  }

  /** Exactly w bytes, of which all but the last carry the continuation bit. */
  function Padded(n: int, w: nat): (b: seq<int>)
    requires w > 0
    ensures |b| == w
    decreases w
  {
    if w == 1 then [n % 128] else [n % 128 + 128] + Padded(n / 128, w - 1)
  }

  /** What `sleb` writes. */
  function Pushed(v: int, number: bool): seq<int> {
    if number && I32(v) == v then Sleb(v) else Padded(Signed(Pattern(v)), 10)
  }

  function UlebLen(n: nat): (len: nat)
    ensures len >= 1
  {
    if n < 128 then 1 else 1 + UlebLen(n / 128)
  }

  // ---------- round trips ----------

  lemma {:induction false} PowSplit(n: nat)
    ensures Pow2(n + 7) == 128 * Pow2(n)
  {
    assert Pow2(n + 7) == 2 * Pow2(n + 6) == 4 * Pow2(n + 5) == 8 * Pow2(n + 4);
    assert Pow2(n + 4) == 2 * Pow2(n + 3) == 4 * Pow2(n + 2) == 8 * Pow2(n + 1);
  }

  /** b starts with piece at position i. */
  predicate At(b: seq<int>, i: nat, piece: seq<int>) {
    i + |piece| <= |b| && b[i..i + |piece|] == piece
  }

  lemma AtTail(b: seq<int>, i: nat, piece: seq<int>)
    requires At(b, i, piece) && piece != []
    ensures b[i] == piece[0] && At(b, i + 1, piece[1..])
  {
    assert b[i..i + |piece|][0] == piece[0];
    assert b[i..i + |piece|][1..] == b[i + 1..i + |piece|];
  }

  lemma {:induction false} UlebReads(bits: nat, n: nat, b: seq<int>, i: nat)
    requires n < Pow2(bits) && At(b, i, Uleb(n))
    ensures DecU(bits, b, i) == Read(n, i + |Uleb(n)|)
    decreases bits
  {
    AtTail(b, i, Uleb(n));
    if n >= 128 {
      PowSplit(0);
      if bits <= 7 { PowMono(bits, 7); }
      PowSplit(bits - 7);
      assert Uleb(n)[1..] == Uleb(n / 128);
      UlebReads(bits - 7, n / 128, b, i + 1);
    }
  }

  lemma {:induction false} PowMono(a: nat, b: nat)
    requires a <= b
    ensures Pow2(a) <= Pow2(b)
    decreases b
  {
    if a < b {
      PowMono(a, b - 1);
    }
  }

  lemma {:induction false} SlebReads(bits: nat, n: int, b: seq<int>, i: nat)
    requires bits > 0 && -Pow2(bits - 1) <= n < Pow2(bits - 1) && At(b, i, Sleb(n))
    ensures DecS(bits, b, i) == Read(n, i + |Sleb(n)|)
    decreases bits
  {
    AtTail(b, i, Sleb(n));
    if !(-64 <= n < 64) {
      PowSix();
      if bits <= 7 { PowMono(bits - 1, 6); }
      PowSplit(bits - 8);
      assert Sleb(n)[1..] == Sleb(n / 128);
      SlebReads(bits - 7, n / 128, b, i + 1);
    }
  }

  lemma PowSix()
    ensures Pow2(6) == 64
  {
    assert Pow2(6) == 2 * Pow2(5) == 4 * Pow2(4) == 8 * Pow2(3) == 16 * Pow2(2) == 32 * Pow2(1);
  }

  /** A padded unsigned field reads back as the value's low 7w bits. */
  lemma {:induction false} PaddedReadsU(bits: nat, n: nat, w: nat, b: seq<int>, i: nat)
    requires w > 0 && bits > 7 * (w - 1) && n < Pow2(bits) && n < Pow2(7 * w) && At(b, i, Padded(n, w))
    ensures DecU(bits, b, i) == Read(n, i + w)
    decreases w
  {
    AtTail(b, i, Padded(n, w));
    if w > 1 {
      PowSplit(bits - 7);
      PowSplit(7 * (w - 1));
      assert Padded(n, w)[1..] == Padded(n / 128, w - 1);
      PaddedReadsU(bits - 7, n / 128, w - 1, b, i + 1);
    } else {
      assert Pow2(7) == 128 by { PowSplit(0); }
    }
  }

  lemma OneGroup(n: int, p: int)
    requires -128 * p <= n < 128 * p
    ensures -p <= n / 128 < p && 128 * (n / 128) + n % 128 == n
  {
  }

  lemma {:induction false} PaddedReadsS(bits: nat, n: int, w: nat, b: seq<int>, i: nat)
    requires w > 0 && bits > 7 * (w - 1) && At(b, i, Padded(n, w))
    requires -Pow2(bits - 1) <= n < Pow2(bits - 1) && -Pow2(7 * w - 1) <= n < Pow2(7 * w - 1)
    ensures DecS(bits, b, i) == Read(n, i + w)
    decreases w
  {
    hide Pow2;
    AtTail(b, i, Padded(n, w));
    if w > 1 {
      PowSplit(bits - 8);
      PowSplit(7 * w - 8);
      OneGroup(n, Pow2(bits - 8));
      OneGroup(n, Pow2(7 * w - 8));
      assert Padded(n, w)[1..] == Padded(n / 128, w - 1);
      PaddedReadsS(bits - 7, n / 128, w - 1, b, i + 1);
    } else {
      PowSix();
    }
  }

  /** No encoding of an integer is shorter than the one `sleb` writes. */
  lemma {:induction false} SlebIsShortest(bits: nat, b: seq<int>, i: nat)
    requires bits > 0 && DecS(bits, b, i).Read?
    ensures i + |Sleb(DecS(bits, b, i).value)| <= DecS(bits, b, i).next
    decreases bits
  {
    if b[i] >= 128 {
      SlebIsShortest(bits - 7, b, i + 1);
      var n, m := DecS(bits, b, i).value, DecS(bits - 7, b, i + 1).value;
      assert n / 128 == m && n % 128 == b[i] - 128;
    }
  }

  /** The number of bytes set aside for a branch depth holds every depth the constructor allows for. */
  lemma {:induction false} WideEnough(n: nat)
    ensures n < Pow2(7 * UlebLen(n))
  {
    if n < 128 {
      assert Pow2(7) == 128 by { PowSplit(0); }
    } else {
      WideEnough(n / 128);
      PowSplit(7 * UlebLen(n / 128));
    }
  }

  lemma {:induction false} LenOfU32(n: nat)
    requires n < Pow2(32)
    ensures UlebLen(n) <= 5
  {
    PowSplit(25); PowSplit(18); PowSplit(11); PowSplit(4);
    assert Pow2(4) == 16 by { assert Pow2(4) == 2 * Pow2(3) == 4 * Pow2(2) == 8 * Pow2(1); }
    var a, b := n / 128, n / 128 / 128;
    var c, d := b / 128, b / 128 / 128;
    assert UlebLen(d) == 1 && UlebLen(c) <= 2 && UlebLen(b) <= 3 && UlebLen(a) <= 4;
  }

  // ---------- the 64-bit pattern ----------

  /** The 64-bit pattern of an integer, and the integer a pattern stands for. */
  function Pattern(n: int): (p: int)
    ensures 0 <= p < TWO64
  {
    n % TWO64
  }

  function Signed(p: int): int
    requires 0 <= p < TWO64
  {
    if p < TWO63 then p else p - TWO64
  }

  /** A 64-bit integer is kept, and every other one reduced to the 64-bit integer it is congruent to. */
  lemma CutTo64(v: int)
    ensures -TWO63 <= Signed(Pattern(v)) < TWO63 && (Signed(Pattern(v)) - v) % TWO64 == 0
    ensures -TWO63 <= v < TWO63 ==> Signed(Pattern(v)) == v
  {
  }

  /** `big >> 7n` on a host whose shift is arithmetic, or logical. */
  function Shift7(p: int, arithmetic: bool): int
    requires 0 <= p < TWO64
  {
    if arithmetic then Pattern(Signed(p) / 128) else p / 128
  }

  /** The top seven bits are masked off and refilled from the sign: the mask is 2^57 - 1, and on what it leaves the `or`
      with 0xfe00000000000000 is an addition. */
  function Refill(p: int, negative: bool): int {
    p % TWO57 + if negative then 127 * TWO57 else 0
  }

  /** Masking and refilling makes either shift the arithmetic one. */
  lemma RefillIsArithmetic(p: int, arithmetic: bool)
    requires 0 <= p < TWO64
    ensures 0 <= Refill(Shift7(p, arithmetic), Signed(p) < 0) < TWO64
    ensures Signed(Refill(Shift7(p, arithmetic), Signed(p) < 0)) == Signed(p) / 128
  {
    var q := Signed(p) / 128;
    assert -TWO57 / 2 <= q < TWO57 / 2;
    if Signed(p) < 0 {
      assert p / 128 == q + TWO57;
    }
  }

  // ---------- the code buffer ----------

  class CodeBuffer {
    var code: seq<int>

    constructor ()
      ensures code == []
    {
      code := [];
    }

    method PushUleb(v: int)
      modifies this
      ensures code == old(code) + Uleb(U32(v))
    {
      var n: nat := U32(v);
      var more := true;
      while more
        invariant more ==> code + Uleb(n) == old(code) + Uleb(U32(v))
        invariant !more ==> code == old(code) + Uleb(U32(v))
        decreases more, n
      {
        var b := n % 128;
        var rest := n / 128;
        if rest != 0 {
          assert code + [b + 128] + Uleb(rest) == code + Uleb(n);
          code := code + [b + 128];
          n := rest;
        } else {
          code := code + [b];
          more := false;
        }
      }
    }

    /** Numbers that are 32-bit integers get the shortest encoding, all other integers a field of ten bytes.  `number`
        tells a number from a BigInt. */
    method PushSleb(v: int, number: bool, arithmetic: bool)
      modifies this
      ensures code == old(code) + Pushed(v, number)
    {
      if !number || I32(v) != v {
        var off := |code|;
        var i := 0;
        while i < 10
          invariant i <= 10 && |code| == off + i && code[..off] == old(code)
        {
          code := code + [0];
          i := i + 1;
        }
        PatchSlebW(off, v, 10, arithmetic);
        return;
      }
      var n := I32(v);
      var more := true;
      while more
        invariant more ==> code + Sleb(n) == old(code) + Sleb(v)
        invariant !more ==> code == old(code) + Sleb(v)
        decreases more, if n < 0 then -n else n
      {
        var b, was := n % 128, n;
        n := n / 128;
        var signBit := b >= 64;
        if (n == 0 && !signBit) || (n == -1 && signBit) {
          more := false;
        } else {
          assert code + [b + 128] + Sleb(n) == code + Sleb(was);
          b := b + 128;
        }
        code := code + [b];
      }
    }

    /** A field to be patched: w bytes that read as 0. */
    method EmitPadN(w: nat) returns (off: nat)
      requires w > 0
      modifies this
      ensures off == old(|code|) && code == old(code) + Padded(0, w)
    {
      off := |code|;
      var i := 0;
      while i < w - 1
        invariant i <= w - 1
        invariant code + Padded(0, w - i) == old(code) + Padded(0, w)
      {
        assert code + [128] + Padded(0, w - i - 1) == code + Padded(0, w - i);
        code := code + [128];
        i := i + 1;
      }
      code := code + [0];
    }

    method PatchUlebN(off: nat, v: int, w: nat)
      requires w > 0 && off + w <= |code|
      modifies this
      ensures code == old(code)[..off] + Padded(U32(v), w) + old(code)[off + w..]
    {
      var n := U32(v);
      n := PatchGroups(off, n, w, U32(v));
      code := code[off + w - 1 := n % 128];
      Joined(old(code), code, off, w, U32(v));
    }

    method PatchSleb32(off: nat, v: int)
      requires off + 5 <= |code|
      modifies this
      ensures code == old(code)[..off] + Padded(I32(v), 5) + old(code)[off + 5..]
    {
      var n := I32(v);
      n := PatchGroups(off, n, 5, I32(v));
      code := code[off + 4 := n % 128];
      Joined(old(code), code, off, 5, I32(v));
    }

    /** The loop the patchers share: all groups but the last, with the continuation bit; what is left of the value. */
    method PatchGroups(off: nat, v: int, w: nat, ghost whole: int) returns (n: int)
      requires w > 0 && off + w <= |code| && whole == v
      modifies this
      ensures n == Rest(v, w - 1) && |code| == old(|code|)
      ensures forall k :: 0 <= k < |code| ==>
        code[k] == if off <= k < off + w - 1 then Rest(v, k - off) % 128 + 128 else old(code)[k]
    {
      n := v;
      var i := 0;
      while i < w - 1
        invariant i <= w - 1 && n == Rest(v, i) && |code| == old(|code|)
        invariant forall k :: 0 <= k < |code| ==>
          code[k] == if off <= k < off + i then Rest(v, k - off) % 128 + 128 else old(code)[k]
      {
        code := code[off + i := n % 128 + 128];
        n := n / 128;
        i := i + 1;
      }
    }

    /** The value is cut to 64 bits first.  `arithmetic` says what the host's shift of negative numbers does; the result
        does not depend on it. */
    method PatchSlebW(off: nat, v: int, w: nat, arithmetic: bool)
      requires w > 0 && off + w <= |code|
      modifies this
      ensures code == old(code)[..off] + Padded(Signed(Pattern(v)), w) + old(code)[off + w..]
    {
      var big := Pattern(v);
      ghost var kept := Signed(big);
      var negative := big >= TWO63;
      var i := 0;
      while i < w - 1
        invariant i <= w - 1 && |code| == old(|code|)
        invariant 0 <= big < TWO64 && Signed(big) == Rest(kept, i) && negative == (Signed(big) < 0)
        invariant forall k :: 0 <= k < |code| ==>
          code[k] == if off <= k < off + i then Rest(kept, k - off) % 128 + 128 else old(code)[k]
      {
        code := code[off + i := big % 128 + 128];
        RefillIsArithmetic(big, arithmetic);
        big := Refill(Shift7(big, arithmetic), negative);
        i := i + 1;
      }
      code := code[off + w - 1 := big % 128];
      Joined(old(code), code, off, w, kept);
    }
  }

  /** What is left after i groups. */
  function Rest(n: int, i: nat): int {
    if i == 0 then n else Rest(n, i - 1) / 128
  }

  lemma {:induction false} RestOfRest(n: int, i: nat)
    ensures Rest(n / 128, i) == Rest(n, i + 1)
  {
    if i > 0 {
      RestOfRest(n, i - 1);
    }
  }

  lemma {:induction false} PaddedGroup(n: int, w: nat, k: nat)
    requires k < w
    ensures Padded(n, w)[k] == Rest(n, k) % 128 + if k < w - 1 then 128 else 0
    decreases w
  {
    if k > 0 {
      PaddedGroup(n / 128, w - 1, k - 1);
      RestOfRest(n, k - 1);
    }
  }

  lemma Joined(was: seq<int>, now: seq<int>, off: nat, w: nat, n: int)
    requires w > 0 && off + w <= |was| == |now|
    requires forall k :: 0 <= k < |was| ==>
      now[k] == if off <= k < off + w then Rest(n, k - off) % 128 + (if k < off + w - 1 then 128 else 0) else was[k]
    ensures now == was[..off] + Padded(n, w) + was[off + w..]
  {
    forall k | off <= k < off + w ensures now[k] == Padded(n, w)[k - off] {
      PaddedGroup(n, w, k - off);
    }
  }

  // ---------- what the patched fields read back as ----------

  /** The 5-byte field of a label index. */
  lemma Sleb32ReadsBack(before: seq<int>, v: int, after: seq<int>)
    ensures DecS(32, before + Padded(I32(v), 5) + after, |before|) == Read(I32(v), |before| + 5)
  {
    PowThirtyOne();
    PowMono(31, 34);
    assert At(before + Padded(I32(v), 5) + after, |before|, Padded(I32(v), 5));
    PaddedReadsS(32, I32(v), 5, before + Padded(I32(v), 5) + after, |before|);
  }

  /** The 10-byte field of any 64-bit integer, and the 5-byte one of an address below 2^32. */
  lemma Sleb64ReadsBack(before: seq<int>, v: int, w: nat, after: seq<int>)
    requires -TWO63 <= v < TWO63 && (w == 10 || (w == 5 && -TWO32 < v < TWO32))
    ensures DecS(64, before + Padded(v, w) + after, |before|) == Read(v, |before| + w)
  {
    PowThirtyOne();
    PowMono(63, 69);
    PowMono(32, 34);
    PowMono(32, 63);
    assert At(before + Padded(v, w) + after, |before|, Padded(v, w));
    PaddedReadsS(64, v, w, before + Padded(v, w) + after, |before|);
  }

  lemma PowThirtyOne()
    ensures Pow2(31) == TWO31 && Pow2(32) == TWO32 && Pow2(63) == TWO63
  {
    assert Pow2(3) == 2 * Pow2(2) == 4 * Pow2(1) == 8 * Pow2(0);
    PowSplit(3); PowSplit(10); PowSplit(17); PowSplit(24);
    assert Pow2(32) == 2 * Pow2(31);
    PowSplit(0); PowSplit(7); PowSplit(14); PowSplit(21); PowSplit(28); PowSplit(35); PowSplit(42); PowSplit(49);
      PowSplit(56);
  }

  /** A branch depth in the width chosen for the segment size. */
  lemma DepthReadsBack(before: seq<int>, depth: nat, segSize: nat, after: seq<int>)
    requires depth <= segSize + 2 < TWO31
    ensures var w := UlebLen(segSize + 2);
      w <= 5 && DecU(32, before + Padded(depth, w) + after, |before|) == Read(depth, |before| + w)
  {
    var w := UlebLen(segSize + 2);
    PowThirtyOne();
    WideEnough(segSize + 2);
    LenOfU32(segSize + 2);
    PowMono(31, 32);
    assert At(before + Padded(depth, w) + after, |before|, Padded(depth, w));
    PaddedReadsU(32, depth, w, before + Padded(depth, w) + after, |before|);
  }

  /** What `uleb` and `sleb` write reads back, over the whole ranges of 32-bit and of 64-bit integers. */
  lemma PushedReadBack(before: seq<int>, v: int, number: bool, after: seq<int>)
    ensures DecU(32, before + Uleb(U32(v)) + after, |before|) == Read(U32(v), |before| + |Uleb(U32(v))|)
    ensures number && I32(v) == v ==>
      DecS(32, before + Pushed(v, number) + after, |before|) == Read(v, |before| + |Pushed(v, number)|)
    ensures -TWO63 <= v < TWO63 ==>
      DecS(64, before + Pushed(v, number) + after, |before|) == Read(v, |before| + |Pushed(v, number)|)
  {
    PowThirtyOne();
    var b := before + Pushed(v, number) + after;
    assert At(before + Uleb(U32(v)) + after, |before|, Uleb(U32(v)));
    UlebReads(32, U32(v), before + Uleb(U32(v)) + after, |before|);
    assert At(b, |before|, Pushed(v, number));
    CutTo64(v);
    if number && I32(v) == v {
      SlebReads(32, v, b, |before|);
      SlebReads(64, v, b, |before|);
    } else if -TWO63 <= v < TWO63 {
      Sleb64ReadsBack(before, v, 10, after);
    }
  }
}
