/** Words, bytes and small helpers that several models share. */
module Basics {
  datatype Option<T> = Some(value: T) | None

  type Byte = x: int | 0 <= x < 256

  type Text = seq<Byte>

  /** A string literal as bytes. */
  function Ascii(s: string): (t: Text)
    ensures |t| == |s|
  {
    seq(|s|, i requires 0 <= i < |s| => s[i] as int % 256)
  }

  const TWO32: int := 0x1_0000_0000
  const TWO63: int := 0x8000_0000_0000_0000
  const TWO64: int := 0x1_0000_0000_0000_0000

  /** `n >>> 0`, and an i32 kept as an unsigned number. */
  function U32(n: int): (u: int)
    ensures 0 <= u < TWO32
    ensures 0 <= n < TWO32 ==> u == n
  {
    n % TWO32
  }

  function Pow2(n: nat): (p: int)
    ensures p >= 1
  {
    if n == 0 then 1 else 2 * Pow2(n - 1)
  }

  /** The low n bytes of a number, least significant first. */
  function LE(v: int, n: nat): (b: seq<Byte>)
    ensures |b| == n
    decreases n
  {
    if n == 0 then [] else [v % 256] + LE(v / 256, n - 1)
  }

  /** Four bytes as a word. */
  function WordOf(buf: seq<Byte>, off: nat): (w: int)
    requires off + 4 <= |buf|
    ensures 0 <= w < TWO32
  {
    var b0: int, b1: int, b2: int, b3: int := buf[off], buf[off + 1], buf[off + 2], buf[off + 3];
    b0 + 256 * b1 + 65536 * b2 + 16777216 * b3
  }

  lemma Regroup<T>(a: seq<T>, b: seq<T>, c: seq<T>, d: seq<T>)
    ensures a + b + (c + d) == a + b + c + d
    ensures a + (b + c) + d == a + (b + (c + d)) && a + (b + c) + d == a + (b + c + d)
    ensures a + [] + b == a + b
  {
  }

  // ---------- numbers in decimal ----------

  predicate IsDigit(b: Byte) { 48 <= b <= 57 }

  function Decimal(n: nat): (s: Text)
    ensures |s| > 0 && forall i :: 0 <= i < |s| ==> IsDigit(s[i])
  {
    if n < 10 then [48 + n] else Decimal(n / 10) + [48 + n % 10]
  }

  /** The digits a text starts with, as a number; `parseInt` after blanks and sign. */
  function Digits(s: Text, acc: nat): nat
    decreases |s|
  {
    if s == [] || !IsDigit(s[0]) then acc else Digits(s[1..], 10 * acc + (s[0] - 48))
  }

  lemma {:induction false} DigitsCat(s: Text, t: Text, acc: nat)
    requires forall i :: 0 <= i < |s| ==> IsDigit(s[i])
    ensures Digits(s + t, acc) == Digits(t, Digits(s, acc))
    decreases |s|
  {
    if s == [] {
      assert s + t == t;
    } else {
      assert (s + t)[1..] == s[1..] + t;
      DigitsCat(s[1..], t, 10 * acc + (s[0] - 48));
    }
  }

  lemma {:induction false} DecimalReads(n: nat)
    ensures Digits(Decimal(n), 0) == n
    decreases n
  {
    if n < 10 {
      assert [48 + n][1..] == [];
    } else {
      DecimalReads(n / 10);
      var d := 48 + n % 10;
      DigitsCat(Decimal(n / 10), [d], 0);
      assert [d][1..] == [];
      assert Digits([d], n / 10) == Digits([], 10 * (n / 10) + n % 10);
    }
  }

  /** The same as a string. */
  function Shown(k: nat): (s: string)
    ensures |s| == |Decimal(k)|
    ensures forall i :: 0 <= i < |s| ==> '0' <= s[i] <= '9'
  {
    seq(|Decimal(k)|, i requires 0 <= i < |Decimal(k)| => Decimal(k)[i] as char)
  }

  lemma ShownReads(j: nat, k: nat)
    requires Shown(j) == Shown(k)
    ensures j == k
  {
    forall i | 0 <= i < |Decimal(j)| ensures Decimal(j)[i] == Decimal(k)[i] {
      assert Shown(j)[i] == Shown(k)[i];
    }
    assert Decimal(j) == Decimal(k);
    DecimalReads(j);
    DecimalReads(k);
  }
}
