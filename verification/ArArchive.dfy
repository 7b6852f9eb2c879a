/** Static libraries: the ar writer (binary/macho_object.js) against the ar reader (binary/static_linker.js). */
module ArArchive {
  import opened Basics

  datatype Member = Member(name: Text, data: seq<Byte>)

  const SPACE: Byte := 32
  const SLASH: Byte := 47
  const HASH_ONE: Text := [35, 49, 47]                              // #1/
  const SYMDEF: Text := [95, 95, 46, 83, 89, 77, 68, 69, 70]        // __.SYMDEF
  const MAGIC: Text := [33, 60, 97, 114, 99, 104, 62, 10]           // !<arch>\n
  const ZERO: Text := [48]
  const MODE: Text := [49, 48, 48, 54, 52, 52]                      // 100644
  const FMAG: Text := [96, 10]

  // ---------- texts ----------

  predicate IsSpace(b: Byte) {
    9 <= b <= 13 || b == 32 || b == 160
  }

  function TrimEnd(s: Text): (r: Text)
    ensures r <= s
  {
    if s != [] && IsSpace(s[|s| - 1]) then TrimEnd(s[..|s| - 1]) else s
  }

  function TrimStart(s: Text): (r: Text)
    ensures |r| <= |s|
  {
    if s != [] && IsSpace(s[0]) then TrimStart(s[1..]) else s
  }

  function Trim(s: Text): (r: Text)
    ensures |r| <= |s|
  {
    TrimEnd(TrimStart(s))
  }

  function Spaces(n: nat): (s: Text)
    ensures |s| == n
  {
    seq(n, _ => SPACE)
  }

  function PadEnd(s: Text, n: nat): (r: Text)
    ensures |r| == if |s| < n then n else |s|
  {
    if |s| < n then s + Spaces(n - |s|) else s
  }

  function ParseInt(text: Text): Option<int> {
    var s := TrimStart(text);
    var negative := s != [] && s[0] == 45;
    var d := if s != [] && (s[0] == 45 || s[0] == 43) then s[1..] else s;
    if d == [] || !IsDigit(d[0]) then None
    else
      var n: int := Digits(d, 0);
      Some(if negative then -n else n)
  }

  function NoNul(s: Text): (r: Text)
    ensures |r| <= |s|
  {
    if s == [] then [] else NoNul(s[..|s| - 1]) + if s[|s| - 1] == 0 then [] else [s[|s| - 1]]
  }

  // ---------- reading bytes ----------

  /** The characters at positions a .. b - 1; outside the buffer they read as NUL. */
  function Str(data: seq<Byte>, a: int, b: int): (s: Text)
    ensures |s| == if a < b then b - a else 0
  {
    if a >= b then [] else seq(b - a, i => if 0 <= a + i < |data| then data[a + i] else 0)
  }

  /** `slice`: negative positions count from the end, and both are kept inside the buffer. */
  function Clamp(n: int, i: int): (r: int)
    requires n >= 0
    ensures 0 <= r <= n
  {
    var j := if i < 0 then i + n else i;
    if j < 0 then 0 else if j > n then n else j
  }

  function Slice(data: seq<Byte>, a: int, b: int): (s: seq<Byte>) {
    var x, y := Clamp(|data|, a), Clamp(|data|, b);
    if x < y then data[x..y] else []
  }

  function Even(n: int): (r: int)
    ensures n <= r <= n + 1 && r % 2 == 0
  {
    n + n % 2
  }

  predicate StartsWith(s: Text, p: Text) {
    p <= s
  }

  predicate EndsWithSlash(s: Text) {
    s != [] && s[|s| - 1] == SLASH
  }

  // ---------- the reader ----------

  function NameEnd(long: Text, i: int): (e: int)
    requires i >= 0
    ensures e >= i
    decreases |long| - i
  {
    if i < |long| && long[i] != SLASH && long[i] != 10 then NameEnd(long, i + 1) else i
  }

  /** A name kept in the GNU table: from the number behind the slash to the next slash or newline. */
  function LongName(long: Text, name: Text): Text
    requires name != []
  {
    match ParseInt(name[1..])
    case None => []
    case Some(at) =>
      var from := if at < 0 then 0 else at;
      Trim(Between(long, from, NameEnd(long, from)))
  }

  function Between(s: Text, a: int, b: int): Text {
    var x, y := if a > |s| then |s| else a, if b > |s| then |s| else b;
    if 0 <= x < y then s[x..y] else []
  }

  /** What is done with a name in the 16-character field, other than the BSD form and the table itself. */
  function PlainName(long: Option<Text>, name: Text): Text {
    if name != [] && name[0] == SLASH && name != [SLASH] then (if long.Some? then LongName(long.value, name) else name)
    else if EndsWithSlash(name) then name[..|name| - 1]
    else name
  }

  /** Symbol tables and nameless members are passed over. */
  function Emit(m: Member): seq<Member> {
    if StartsWith(m.name, SYMDEF) || m.name == [SLASH] || m.name == [] then [] else [m]
  }

  /** What the header at offset says: nothing more to read, a name table, or a member and where the next header is. */
  datatype Item = Stop | Table(long: Text, next: int) | Entry(members: seq<Member>, next: int)

  function ItemAt(data: seq<Byte>, offset: int, long: Option<Text>): (it: Item)
    requires 0 <= offset
    ensures it.Table? ==> it.next > offset
    ensures it.Entry? ==> it.next > offset && |it.members| <= 1
  {
    if offset + 60 > |data| then Stop
    else
      var name := Trim(Str(data, offset, offset + 16));
      match ParseInt(Trim(Str(data, offset + 48, offset + 58)))
      case None => Stop
      case Some(size) => ItemFor(data, offset + 60, name, size, long)
  }

  function ItemFor(data: seq<Byte>, body: int, name: Text, size: int, long: Option<Text>): (it: Item)
    ensures it.Table? ==> it.next > body
    ensures it.Entry? ==> it.next > body && |it.members| <= 1
  {
    if size <= 0 then Stop
    else if StartsWith(name, HASH_ONE) then (
      match ParseInt(name[3..])
      case None => Stop
      case Some(n) => Entry(Emit(Member(Trim(NoNul(Str(data, body, body + n))), Slice(data, body + n, body + size))),
        Even(body + size)))
    else if name == [SLASH, SLASH] then Table(Str(data, body, body + size), Even(body + size))
    else Entry(Emit(Member(PlainName(long, name), Slice(data, body, body + size))), Even(body + size))
  }

  function Parse(data: seq<Byte>, offset: int, long: Option<Text>): seq<Member>
    requires 0 <= offset
    decreases if offset < |data| then |data| - offset else 0
  {
    if offset >= |data| then []
    else match ItemAt(data, offset, long)
      case Stop => []
      case Table(more, next) => Parse(data, next, Some(more))
      case Entry(members, next) => members + Parse(data, next, long)
  }

  lemma ParseUnfolds(data: seq<Byte>, offset: int, long: Option<Text>)
    requires 0 <= offset
    ensures Parse(data, offset, long) ==
      if offset >= |data| then []
      else match ItemAt(data, offset, long)
        case Stop => []
        case Table(more, next) => Parse(data, next, Some(more))
        case Entry(members, next) => members + Parse(data, next, long)
  {
    hide ItemAt;
  }

  /** The reading loop. */
  method ParseArArchive(data: seq<Byte>) returns (members: seq<Member>)
    ensures members == if MAGIC <= data then Parse(data, 8, None) else []
  {
    hide ItemAt, Parse;
    members := [];
    if |data| < 8 || data[..8] != MAGIC {
      assert !(MAGIC <= data);
      return;
    }
    var longNames: Option<Text> := None;
    var offset := 8;
    while offset < |data|
      invariant offset >= 0
      invariant members + Parse(data, offset, longNames) == Parse(data, 8, None)
      decreases if offset < |data| then |data| - offset else 0
    {
      ParseUnfolds(data, offset, longNames);
      match ItemAt(data, offset, longNames) {
        case Stop =>
          assert members + [] == members;
          return;
        case Table(more, next) => longNames, offset := Some(more), next;
        case Entry(found, next) =>
          assert members + (found + Parse(data, next, longNames)) == (members + found) + Parse(data, next, longNames);
          members := members + found;
          offset := next;
      }
    }
    ParseUnfolds(data, offset, longNames);
    assert members + [] == members;
  }

  // ---------- the writer ----------

  /** `mid` are the fields between name and size: date, owner, group and mode. */
  function Header(name: Text, mid: Text, size: nat): seq<Byte> {
    PadEnd(name, 16) + mid + PadEnd(Decimal(size), 10) + FMAG
  }

  function Chunk(name: Text, mid: Text, body: seq<Byte>): seq<Byte> {
    Header(name, mid, |body|) + body + if |body| % 2 != 0 then [10] else []
  }

  function Mid(): Text { PadEnd(ZERO, 12) + PadEnd(ZERO, 6) + PadEnd(ZERO, 6) + PadEnd(MODE, 8) }

  function EntryOf(m: Member): seq<Byte> {
    Chunk(NameField(m), Mid(), m.data)
  }

  function Entries(ms: seq<Member>): seq<Byte> {
    if ms == [] then [] else Entries(ms[..|ms| - 1]) + EntryOf(ms[|ms| - 1])
  }

  class ArArchiveGenerator {
    var members: seq<Member>

    constructor ()
      ensures members == []
    {
      members := [];
    }

    method AddMember(name: Text, data: seq<Byte>)
      modifies this
      ensures members == old(members) + [Member(name, data)]
    {
      members := members + [Member(name, data)];
    }

    method PushEntry(head: seq<Byte>, m: Member) returns (buffer: seq<Byte>)
      ensures buffer == head + EntryOf(m)
    {
      hide Header;
      ghost var entry := Header(NameField(m), Mid(), |m.data|);
      buffer := head + Header(NameField(m), Mid(), |m.data|);
      var j := 0;
      while j < |m.data|
        invariant j <= |m.data| && buffer == head + (entry + m.data[..j])
      {
        assert m.data[..j + 1] == m.data[..j] + [m.data[j]];
        buffer := buffer + [m.data[j]];
        j := j + 1;
      }
      assert m.data[..j] == m.data;
      if |m.data| % 2 != 0 {
        buffer := buffer + [10];
      }
    }

    method Generate() returns (buffer: seq<Byte>)
      ensures buffer == MAGIC + Entries(members)
    {
      hide EntryOf;
      buffer := MAGIC;
      var i := 0;
      while i < |members|
        invariant i <= |members| && buffer == MAGIC + Entries(members[..i])
      {
        assert members[..i + 1][..i] == members[..i];
        buffer := PushEntry(buffer, members[i]);
        i := i + 1;
      }
      assert members[..i] == members;
    }
  }

  // ---------- round trip ----------

  /** A name the reader gives back as it is, read before any name table. */
  predicate Ordinary(name: Text) {
    && 1 <= |name| <= 16 && Trim(name) == name
    && !StartsWith(name, HASH_ONE) && !StartsWith(name, SYMDEF) && name != [SLASH] && name != [SLASH, SLASH]
    && (EndsWithSlash(name) ==> name[0] == SLASH)
  }

  predicate Readable(m: Member) {
    Ordinary(m.name) && m.data != []
  }

  /** The size field has ten digits. */
  predicate Small(m: Member) {
    |m.data| < 10_000_000_000
  }

  lemma {:induction false} DecimalIsShort(n: nat, k: nat, limit: nat)
    requires k > 0 && limit == Pow10(k) && n < limit
    ensures |Decimal(n)| <= k
    decreases k
  {
    if n >= 10 {
      DecimalIsShort(n / 10, k - 1, Pow10(k - 1));
    }
  }

  function Pow10(k: nat): nat { if k == 0 then 1 else 10 * Pow10(k - 1) }

  lemma {:induction false} TrimEndBlanks(s: Text, k: nat)
    ensures TrimEnd(s + Spaces(k)) == TrimEnd(s)
    decreases k
  {
    if k == 0 {
      assert s + Spaces(0) == s;
    } else {
      var t := s + Spaces(k);
      assert t[..|t| - 1] == s + Spaces(k - 1);
      TrimEndBlanks(s, k - 1);
    }
  }

  predicate Blank(s: Text) {
    forall i :: 0 <= i < |s| ==> IsSpace(s[i])
  }

  lemma {:induction false} TrimStartBlanks(s: Text, k: nat)
    ensures !Blank(s) ==> TrimStart(s + Spaces(k)) == TrimStart(s) + Spaces(k)
    ensures Blank(s) ==> TrimStart(s + Spaces(k)) == [] == TrimStart(s)
    decreases |s| + k
  {
    var t := s + Spaces(k);
    if s != [] {
      assert t[1..] == s[1..] + Spaces(k);
      TrimStartBlanks(s[1..], k);
      if IsSpace(s[0]) { assert Blank(s) <==> Blank(s[1..]); }
    } else if k > 0 {
      assert t[1..] == [] + Spaces(k - 1);
      TrimStartBlanks([], k - 1);
    }
  }

  /** Blanks behind a text do not change what trimming leaves. */
  lemma TrimBlanks(s: Text, k: nat)
    ensures Trim(s + Spaces(k)) == Trim(s)
  {
    TrimStartBlanks(s, k);
    if !Blank(s) { TrimEndBlanks(TrimStart(s), k); }
  }

  lemma TrimPadded(s: Text, n: nat)
    ensures Trim(PadEnd(s, n)) == Trim(s)
  {
    if |s| < n { TrimBlanks(s, n - |s|); }
  }

  lemma TenDigits()
    ensures Pow10(10) == 10_000_000_000
  {
    assert Pow10(5) == 100_000 by {
      assert Pow10(5) == 10 * Pow10(4) == 100 * Pow10(3) == 1000 * Pow10(2) == 10000 * Pow10(1);
    }
    assert Pow10(10) == 10 * Pow10(9) == 100 * Pow10(8) == 1000 * Pow10(7) == 10000 * Pow10(6) == 100_000 * Pow10(5);
  }

  /** The size field reads back. */
  lemma SizeReads(n: nat)
    requires n < 10_000_000_000
    ensures |PadEnd(Decimal(n), 10)| == 10 && ParseInt(Trim(PadEnd(Decimal(n), 10))) == Some(n)
  {
    TenDigits();
    DecimalIsShort(n, 10, Pow10(10));
    TrimPadded(Decimal(n), 10);
    DecimalReads(n);
  }

  /** The fields of an entry are where the reader looks for them. */
  lemma PiecesAt(data: seq<Byte>, pre: seq<Byte>, name: Text, mid: Text, size: Text, fmag: Text, d: seq<Byte>,
      pad: seq<Byte>, post: seq<Byte>)
    requires data == pre + (name + mid + size + fmag + d + pad) + post && |name| == 16 && |mid| == 32 && |size| == 10
    requires |fmag| == 2
    ensures |pre| + 60 + |d| <= |data|
    ensures Str(data, |pre|, |pre| + 16) == name && Str(data, |pre| + 48, |pre| + 58) == size
    ensures data[|pre| + 60..|pre| + 60 + |d|] == d
  {
    var entry := name + mid + size + fmag + d + pad;
    assert forall i :: 0 <= i < |entry| ==> data[|pre| + i] == entry[i];
  }

  function NameField(m: Member): Text {
    if |m.name| > 16 then m.name[..16] else m.name
  }

  /** The size field has ten digits. */
  predicate Fits(name: Text, mid: Text, body: seq<Byte>) {
    |name| <= 16 && |mid| == 32 && |body| < 10_000_000_000
  }

  lemma ChunkLength(name: Text, mid: Text, body: seq<Byte>)
    requires Fits(name, mid, body)
    ensures |Chunk(name, mid, body)| == 60 + |body| + |body| % 2 == Even(60 + |body|)
  {
    SizeReads(|body|);
  }

  /** The reader finds name, size and body where the header says. */
  lemma ChunkRead(data: seq<Byte>, pre: seq<Byte>, name: Text, mid: Text, body: seq<Byte>, post: seq<Byte>,
      long: Option<Text>)
    requires Fits(name, mid, body) && data == pre + Chunk(name, mid, body) + post
    ensures |pre| + 60 + |body| <= |data| && data[|pre| + 60..|pre| + 60 + |body|] == body
    ensures ItemAt(data, |pre|, long) == ItemFor(data, |pre| + 60, Trim(name), |body|, long)
  {
    SizeReads(|body|);
    TrimPadded(name, 16);
    hide Decimal, Trim, ParseInt, Str, ItemAt, ItemFor;
    PiecesAt(data, pre, PadEnd(name, 16), mid, PadEnd(Decimal(|body|), 10), FMAG, body,
      if |body| % 2 != 0 then [10] else [], post);
    ItemIs(data, |pre|, long, Trim(name), |body|);
  }

  lemma EntryFits(m: Member)
    requires Small(m)
    ensures Fits(NameField(m), Mid(), m.data)
  {
  }

  /** What an item of one written member m may be: nothing more at all, or the next header right behind; m itself comes
      back, as long as there has been no name table, exactly if it is readable. */
  predicate Fair(it: Item, m: Member, next: int, tableless: bool) {
    && (it.Stop? || it.next == next)
    && (it.Table? ==> !Readable(m))
    && (tableless ==> (it.Entry? && it.members == [m] <==> Readable(m)))
  }

  lemma ItemIs(data: seq<Byte>, offset: int, long: Option<Text>, name: Text, size: nat)
    requires 0 <= offset && offset + 60 <= |data|
    requires Trim(Str(data, offset, offset + 16)) == name
    requires ParseInt(Trim(Str(data, offset + 48, offset + 58))) == Some(size)
    ensures ItemAt(data, offset, long) == ItemFor(data, offset + 60, name, size, long)
  {
    hide Trim, Str, ParseInt, ItemFor;
  }

  lemma ItemRead(data: seq<Byte>, pre: seq<Byte>, m: Member, post: seq<Byte>, long: Option<Text>)
    requires data == pre + EntryOf(m) + post && Small(m) && |pre| % 2 == 0
    ensures Fair(ItemAt(data, |pre|, long), m, |pre| + |EntryOf(m)|, long.None?)
  {
    hide ItemAt, ItemFor, Str, Trim, ParseInt, Readable, Slice, Chunk, Mid, Fair;
    EntryFits(m);
    ChunkRead(data, pre, NameField(m), Mid(), m.data, post, long);
    EntryLength(m);
    hide EntryOf, NameField;
    var name, body, size := Trim(NameField(m)), |pre| + 60, |m.data|;
    assert Even(body + size) == |pre| + |EntryOf(m)|;
    FairFor(data, body, m, name, long);
  }

  lemma FairFor(data: seq<Byte>, body: int, m: Member, name: Text, long: Option<Text>)
    requires 0 <= body && body + |m.data| <= |data| && data[body..body + |m.data|] == m.data
    requires name == Trim(NameField(m))
    ensures Fair(ItemFor(data, body, name, |m.data|, long), m, Even(body + |m.data|), long.None?)
  {
    SliceIs(data, body, |m.data|);
    if m.data == [] {
      assert !Readable(m);
    } else if StartsWith(name, HASH_ONE) {
      BsdRead(data, body, m, name, long);
    } else {
      hide Trim, Str, ParseInt, Slice;
      PlainRead(m, name, long);
    }
  }

  /** A name of the BSD form never comes back: the member's data gets shorter, or the name is empty. */
  lemma BsdRead(data: seq<Byte>, body: int, m: Member, name: Text, long: Option<Text>)
    requires body >= 0 && body + |m.data| <= |data| && m.data != []
    requires name == Trim(NameField(m)) && StartsWith(name, HASH_ONE)
    ensures Fair(ItemFor(data, body, name, |m.data|, long), m, Even(body + |m.data|), long.None?)
  {
    if ParseInt(name[3..]).Some? {
      var n := ParseInt(name[3..]).value;
      if n <= 0 {
        assert Str(data, body, body + n) == [];
      } else {
        Shorter(data, body, n, |m.data|);
      }
    }
    hide Str, ParseInt, Slice, PlainName;
    TrimmedStart(m);
  }

  lemma TrimmedStart(m: Member)
    requires StartsWith(Trim(NameField(m)), HASH_ONE)
    ensures !Readable(m)
  {
  }

  lemma Shorter(data: seq<Byte>, body: int, n: int, size: nat)
    requires n > 0 && 0 <= body && body + size <= |data| && size > 0
    ensures |Slice(data, body + n, body + size)| < size
  {
  }

  /** Any other name, without a table: it comes back if it is ordinary, and otherwise changed or not at all. */
  lemma PlainRead(m: Member, name: Text, long: Option<Text>)
    requires name == Trim(NameField(m)) && m.data != [] && !StartsWith(name, HASH_ONE)
    ensures name == [SLASH, SLASH] ==> !Readable(m)
    ensures long.None? && name != [SLASH, SLASH] ==>
      (Emit(Member(PlainName(long, name), m.data)) == [m] <==> Readable(m))
  {
    hide Trim;
  }

  lemma EntryLength(m: Member)
    requires Small(m)
    ensures |EntryOf(m)| == 60 + |m.data| + |m.data| % 2
  {
    SizeReads(|m.data|);
  }

  lemma SliceIs(data: seq<Byte>, a: nat, n: nat)
    requires a + n <= |data|
    ensures Slice(data, a, a + n) == data[a..a + n]
  {
  }

  // ---------- the whole archive ----------

  lemma {:induction false} AtMostOneEach(data: seq<Byte>, pre: seq<Byte>, ms: seq<Member>, long: Option<Text>)
    requires data == pre + EntriesFrom(ms) && |pre| % 2 == 0 && forall i :: 0 <= i < |ms| ==> Small(ms[i])
    ensures |Parse(data, |pre|, long)| <= |ms|
    decreases |ms|
  {
    hide EntryOf, ItemAt;
    if ms != [] {
      var m, rest := ms[0], EntriesFrom(ms[1..]);
      assert data == pre + EntryOf(m) + rest;
      ItemRead(data, pre, m, rest, long);
      EntryLength(m);
      match ItemAt(data, |pre|, long)
      case Stop =>
      case Table(more, _) => AtMostOneEach(data, pre + EntryOf(m), ms[1..], Some(more));
      case Entry(_, _) => AtMostOneEach(data, pre + EntryOf(m), ms[1..], long);
    }
  }

  function EntriesFrom(ms: seq<Member>): seq<Byte> {
    if ms == [] then [] else EntryOf(ms[0]) + EntriesFrom(ms[1..])
  }

  lemma {:induction false} ReadsAll(data: seq<Byte>, pre: seq<Byte>, ms: seq<Member>)
    requires data == pre + EntriesFrom(ms) && |pre| % 2 == 0 && forall i :: 0 <= i < |ms| ==> Small(ms[i])
    ensures Parse(data, |pre|, None) == ms <==> forall i :: 0 <= i < |ms| ==> Readable(ms[i])
    decreases |ms|
  {
    hide EntryOf, Readable, ItemAt;
    if ms != [] {
      var m, rest := ms[0], ms[1..];
      assert data == pre + EntryOf(m) + EntriesFrom(rest);
      ItemRead(data, pre, m, EntriesFrom(rest), None);
      EntryLength(m);
      var next := pre + EntryOf(m);
      AllReadable(ms);
      match ItemAt(data, |pre|, None)
      case Stop =>
      case Table(more, _) => AtMostOneEach(data, next, rest, Some(more));
      case Entry(found, _) =>
        ReadsAll(data, next, rest);
        AtMostOneEach(data, next, rest, None);
        FirstAndRest(found, Parse(data, |next|, None), ms);
    }
  }

  lemma AllReadable(ms: seq<Member>)
    requires ms != []
    ensures (forall i :: 0 <= i < |ms| ==> Readable(ms[i])) <==> Readable(ms[0]) && forall i :: 0 <= i < |ms[1..]| ==>
      Readable(ms[1..][i])
  {
    hide Readable;
    assert forall i :: 0 <= i < |ms[1..]| ==> ms[1..][i] == ms[i + 1];
    assert forall i :: 1 <= i < |ms| ==> ms[i] == ms[1..][i - 1];
  }

  lemma FirstAndRest(found: seq<Member>, more: seq<Member>, ms: seq<Member>)
    requires ms != [] && |found| <= 1 && |more| <= |ms| - 1
    ensures found + more == ms <==> found == [ms[0]] && more == ms[1..]
  {
    assert ms == [ms[0]] + ms[1..];
    if found + more == ms {
      assert found == [(found + more)[0]];
      assert more == (found + more)[1..];
    }
  }

  lemma {:induction false} SameEntries(ms: seq<Member>)
    ensures Entries(ms) == EntriesFrom(ms)
    decreases |ms|
  {
    hide EntryOf;
    if |ms| == 1 {
      assert ms[..0] == [] && ms[1..] == [];
    } else if |ms| > 1 {
      var n := |ms| - 1;
      SameEntries(ms[..n]);
      SameEntries(ms[1..]);
      SameEntries(ms[1..][..n - 1]);
      assert ms[..n][1..] == ms[1..][..n - 1];
    }
  }

  /** An archive reads back as the members written into it if and only if every member has some data and an ordinary
      name. */
  lemma ArchiveReadsBack(ms: seq<Member>)
    requires forall i :: 0 <= i < |ms| ==> Small(ms[i])
    ensures MAGIC <= MAGIC + Entries(ms)
    ensures Parse(MAGIC + Entries(ms), 8, None) == ms <==> forall i :: 0 <= i < |ms| ==> Readable(ms[i])
  {
    SameEntries(ms);
    hide Parse, Entries, EntriesFrom, Readable, EntryOf;
    var head: seq<Byte> := MAGIC;
    assert |head| == 8;
    ReadsAll(head + Entries(ms), head, ms);
  }
}
