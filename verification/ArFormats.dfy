/** The archives that the ar tools of GNU and BSD systems write, and what the reader (binary/static_linker.js) makes of
    them: symbol tables, the GNU table of long names, and BSD names in front of the data. */
module ArFormats {
  import opened Basics
  import opened ArArchive

  // ---------- any sequence of stored members ----------

  /** What an archive has for a member: the name in its header, the other fields of the header, and the bytes behind. */
  datatype Stored = Stored(name: Text, mid: Text, body: seq<Byte>)

  function Bytes(sts: seq<Stored>): seq<Byte> {
    if sts == [] then [] else Chunk(sts[0].name, sts[0].mid, sts[0].body) + Bytes(sts[1..])
  }

  predicate IsBsd(st: Stored) {
    StartsWith(Trim(st.name), HASH_ONE)
  }

  /** Not the table of long names, and a BSD name does not reach behind the member. */
  predicate Regular(st: Stored) {
    && Fits(st.name, st.mid, st.body) && Trim(st.name) != [SLASH, SLASH]
    && (IsBsd(st) ==> match ParseInt(Trim(st.name)[3..]) case None => true case Some(n) => 0 <= n <= |st.body|)
  }

  /** What the reader finds in a stored member, wherever it stands; nothing if it stops there. */
  function Says(long: Option<Text>, st: Stored): Option<seq<Member>>
    requires Regular(st)
  {
    var name := Trim(st.name);
    if st.body == [] then None
    else if IsBsd(st) then (
      match ParseInt(name[3..])
      case None => None
      case Some(n) => Some(Emit(Member(Trim(NoNul(st.body[..n])), st.body[n..]))))
    else Some(Emit(Member(PlainName(long, name), st.body)))
  }

  function Gathered(long: Option<Text>, sts: seq<Stored>): seq<Member>
    requires forall k :: 0 <= k < |sts| ==> Regular(sts[k])
  {
    if sts == [] then []
    else match Says(long, sts[0])
      case None => []
      case Some(found) => found + Gathered(long, sts[1..])
  }

  lemma PartOfBody(data: seq<Byte>, at: nat, body: seq<Byte>, n: int)
    requires at + |body| <= |data| && data[at..at + |body|] == body && 0 <= n <= |body|
    ensures Str(data, at, at + n) == body[..n] && Slice(data, at + n, at + |body|) == body[n..]
  {
    assert data[at..at + n] == body[..n];
    assert data[at + n..at + |body|] == body[n..];
  }

  lemma SaysIs(data: seq<Byte>, at: nat, st: Stored, long: Option<Text>)
    requires Regular(st) && at + |st.body| <= |data| && data[at..at + |st.body|] == st.body
    ensures ItemFor(data, at, Trim(st.name), |st.body|, long) == match Says(long, st)
      case None => Stop
      case Some(found) => Entry(found, Even(at + |st.body|))
  {
    hide Trim, ParseInt, Str, Slice, Emit, PlainName, NoNul;
    var body := st.body;
    PartOfBody(data, at, body, 0);
    if IsBsd(st) && ParseInt(Trim(st.name)[3..]).Some? {
      PartOfBody(data, at, body, ParseInt(Trim(st.name)[3..]).value);
    }
  }

  lemma ItemSays(data: seq<Byte>, pre: seq<Byte>, st: Stored, post: seq<Byte>, long: Option<Text>)
    requires Regular(st) && data == pre + Chunk(st.name, st.mid, st.body) + post
    ensures ItemAt(data, |pre|, long) == match Says(long, st)
      case None => Stop
      case Some(found) => Entry(found, Even(|pre| + 60 + |st.body|))
  {
    RegularFits(st);
    hide *;
    ChunkRead(data, pre, st.name, st.mid, st.body, post, long);
    SaysIs(data, |pre| + 60, st, long);
  }

  lemma StoredRead(data: seq<Byte>, pre: seq<Byte>, st: Stored, post: seq<Byte>, long: Option<Text>)
    requires Regular(st) && data == pre + Chunk(st.name, st.mid, st.body) + post && |pre| % 2 == 0
    ensures ItemAt(data, |pre|, long) == match Says(long, st)
      case None => Stop
      case Some(found) => Entry(found, |pre| + |Chunk(st.name, st.mid, st.body)|)
  {
    hide Regular, Trim, ItemAt, Chunk, Says, Even;
    var n := |Chunk(st.name, st.mid, st.body)|;
    NextEven(|pre|, st, n);
    ItemSays(data, pre, st, post, long);
  }

  lemma NextEven(at: nat, st: Stored, n: nat)
    requires at % 2 == 0 && Regular(st) && n == |Chunk(st.name, st.mid, st.body)|
    ensures Even(at + 60 + |st.body|) == at + n
  {
    RegularFits(st);
    ChunkLength(st.name, st.mid, st.body);
    EvenAdds(at, 60 + |st.body|);
  }

  lemma EvenAdds(a: nat, b: nat)
    requires a % 2 == 0
    ensures Even(a + b) == a + Even(b)
  {
  }

  /** The reading loop over stored members. */
  lemma {:induction false} Gathers(data: seq<Byte>, pre: seq<Byte>, sts: seq<Stored>, long: Option<Text>)
    requires data == pre + Bytes(sts) && |pre| % 2 == 0 && forall k :: 0 <= k < |sts| ==> Regular(sts[k])
    ensures Parse(data, |pre|, long) == Gathered(long, sts)
    decreases |sts|
  {
    hide Regular, Says, ItemAt, Chunk;
    if sts == [] {
      assert data == pre;
    } else {
      var st, rest := sts[0], Bytes(sts[1..]);
      var chunk := Chunk(st.name, st.mid, st.body);
      assert data == pre + chunk + rest;
      StoredRead(data, pre, st, rest, long);
      RegularFits(st);
      ChunkLength(st.name, st.mid, st.body);
      if Says(long, st).Some? { Gathers(data, pre + chunk, sts[1..], long); }
    }
  }

  lemma RegularFits(st: Stored)
    requires Regular(st)
    ensures Fits(st.name, st.mid, st.body)
  {
  }

  lemma SaysFew(long: Option<Text>, st: Stored)
    requires Regular(st)
    ensures Says(long, st).Some? ==> |Says(long, st).value| <= 1
  {
  }

  lemma {:induction false} GatherFew(long: Option<Text>, sts: seq<Stored>)
    requires forall k :: 0 <= k < |sts| ==> Regular(sts[k])
    ensures |Gathered(long, sts)| <= |sts|
    decreases |sts|
  {
    hide Says, Regular;
    if sts != [] {
      SaysFew(long, sts[0]);
      GatherFew(long, sts[1..]);
    }
  }

  /** What is gathered is one member for each stored one exactly if each says its own. */
  lemma {:induction false} GatheredAre(long: Option<Text>, sts: seq<Stored>, ms: seq<Member>)
    requires |sts| == |ms| && forall k :: 0 <= k < |sts| ==> Regular(sts[k])
    ensures Gathered(long, sts) == ms <==> forall k :: 0 <= k < |ms| ==> Says(long, sts[k]) == Some([ms[k]])
    decreases |sts|
  {
    hide Says, Regular;
    if sts != [] {
      SaysFew(long, sts[0]);
      GatherFew(long, sts[1..]);
      GatheredAre(long, sts[1..], ms[1..]);
      if Says(long, sts[0]).Some? { FirstAndRest(Says(long, sts[0]).value, Gathered(long, sts[1..]), ms); }
      assert forall k :: 0 <= k < |ms[1..]| ==> ms[1..][k] == ms[k + 1] && sts[1..][k] == sts[k + 1];
      assert forall k :: 1 <= k < |ms| ==> ms[k] == ms[1..][k - 1] && sts[k] == sts[1..][k - 1];
    }
  }

  // ---------- GNU: short names end in a slash, long ones are in a table ----------

  /** The name of a file is not longer than 15 characters. */
  predicate Short(name: Text) { |name| <= 15 }

  /** What the table of long names has of the first k members. */
  function TableTo(ms: seq<Member>, k: nat): Text
    requires k <= |ms|
  {
    if k == 0 then [] else TableTo(ms, k - 1) + if Short(ms[k - 1].name) then [] else ms[k - 1].name + [SLASH, 10]
  }

  function NameTable(ms: seq<Member>): Text {
    var table := TableTo(ms, |ms|);
    table + if |table| % 2 != 0 then [10] else []
  }

  function GnuName(ms: seq<Member>, k: nat): Text
    requires k < |ms|
  {
    if Short(ms[k].name) then ms[k].name + [SLASH] else [SLASH] + Decimal(|TableTo(ms, k)|)
  }

  function GnuStored(ms: seq<Member>, mids: seq<Text>): seq<Stored>
    requires |mids| == |ms|
  {
    seq(|ms|, k requires 0 <= k < |ms| => Stored(GnuName(ms, k), mids[k], ms[k].data))
  }

  function Blanks(): Text { Spaces(32) }

  const NAME_TABLE: Text := [47, 47]   // //

  /** The symbol table has the name `/`, and is there if the archive has symbols. */
  function SymbolPart(symbols: seq<Byte>, mid: Text): seq<Byte> {
    if symbols == [] then [] else Chunk([SLASH], mid, symbols)
  }

  /** The table of long names is there if there are any. */
  function TablePart(ms: seq<Member>): seq<Byte> {
    if TableTo(ms, |ms|) == [] then [] else Chunk(NAME_TABLE, Blanks(), NameTable(ms))
  }

  function GnuArchive(symbols: seq<Byte>, mid: Text, ms: seq<Member>, mids: seq<Text>): seq<Byte>
    requires |mids| == |ms|
  {
    MAGIC + SymbolPart(symbols, mid) + TablePart(ms) + Bytes(GnuStored(ms, mids))
  }

  function TableOf(ms: seq<Member>): Option<Text> {
    if TableTo(ms, |ms|) == [] then None else Some(NameTable(ms))
  }

  /** Names are those of files, without their directories; sizes have ten digits. */
  predicate GnuFiles(symbols: seq<Byte>, mid: Text, ms: seq<Member>, mids: seq<Text>) {
    && |mids| == |ms| && |mid| == 32 && |symbols| < 10_000_000_000 && |NameTable(ms)| < 10_000_000_000
    && forall k :: 0 <= k < |ms| ==> |mids[k]| == 32 && |ms[k].data| < 10_000_000_000 && SLASH !in ms[k].name
  }

  /** The names that come back: without blanks that would be trimmed, not that of a symbol table, and no short one is
      taken for the BSD form. */
  predicate GnuKept(name: Text) {
    && name != [] && !StartsWith(name, SYMDEF)
    && if Short(name) then TrimStart(name) == name && name != HASH_ONE[..2] else Trim(name) == name && 10 !in name
  }

  // -- short names --

  lemma {:induction false} TrimStartKeeps(s: Text, b: Byte)
    requires !IsSpace(b)
    ensures TrimStart(s + [b]) == TrimStart(s) + [b]
    decreases s
  {
    if s == [] {
      assert [] + [b] == [b];
    } else {
      assert (s + [b])[1..] == s[1..] + [b];
      if IsSpace(s[0]) { TrimStartKeeps(s[1..], b); }
    }
  }

  lemma TrimSlash(name: Text)
    ensures Trim(name + [SLASH]) == TrimStart(name) + [SLASH]
  {
    TrimStartKeeps(name, SLASH);
  }

  lemma {:induction false} TrimStartIn(s: Text)
    ensures forall b :: b in TrimStart(s) ==> b in s
    decreases s
  {
    if s != [] && IsSpace(s[0]) { TrimStartIn(s[1..]); }
  }

  lemma ShortSays(long: Option<Text>, m: Member, mid: Text)
    requires Short(m.name) && SLASH !in m.name && |mid| == 32 && |m.data| < 10_000_000_000
    ensures var st := Stored(m.name + [SLASH], mid, m.data);
      Regular(st) && (Says(long, st) == Some([m]) <==> GnuKept(m.name) && m.data != [])
  {
    var st, t := Stored(m.name + [SLASH], mid, m.data), TrimStart(m.name);
    TrimSlash(m.name);
    TrimStartIn(m.name);
    assert t != [] ==> t[0] in t && (t + [SLASH])[0] == t[0];
    if IsBsd(st) {
      assert (t + [SLASH])[..3] == HASH_ONE;
      assert (t + [SLASH])[2] == SLASH;
      assert t == HASH_ONE[..2] && (t + [SLASH])[3..] == [];
    } else {
      assert (t + [SLASH])[..|t|] == t;
      assert t != [] ==> (t + [SLASH])[0] != SLASH;
      assert PlainName(long, t + [SLASH]) == t;
    }
  }

  // -- long names --

  /** Digits are no blanks. */
  lemma {:induction false} DigitsStay(s: Text)
    requires forall k :: 0 <= k < |s| ==> IsDigit(s[k])
    ensures Trim([SLASH] + s) == [SLASH] + s
  {
    var t := [SLASH] + s;
    assert t[|t| - 1] == if s == [] then SLASH else s[|s| - 1];
  }

  lemma ParseDecimal(n: nat)
    ensures ParseInt(Decimal(n)) == Some(n)
  {
    DecimalReads(n);
  }

  /** The name ends at its slash, or at a newline in it. */
  lemma {:induction false} NameEnds(long: Text, name: Text, at: nat, i: nat)
    requires i <= |name| && at + |name| < |long| && long[at..at + |name|] == name && long[at + |name|] == SLASH
    requires SLASH !in name && 10 !in name[..i]
    ensures NameEnd(long, at + i) <= at + |name| && (NameEnd(long, at + i) == at + |name| <==> 10 !in name)
    decreases |name| - i
  {
    if i < |name| {
      assert long[at + i] == long[at..at + |name|][i] == name[i];
      assert name[..i + 1] == name[..i] + [name[i]];
      if name[i] != 10 { NameEnds(long, name, at, i + 1); }
    } else {
      assert name[..i] == name;
    }
  }

  /** A name in the table reads back if it needs no trimming and has no newline; otherwise it comes out shorter. */
  lemma LongReads(long: Text, name: Text, at: nat)
    requires at + |name| < |long| && long[at..at + |name|] == name && long[at + |name|] == SLASH && SLASH !in name
    ensures LongName(long, [SLASH] + Decimal(at)) == name <==> Trim(name) == name && 10 !in name
  {
    ParseDecimal(at);
    assert ([SLASH] + Decimal(at))[1..] == Decimal(at);
    NameEnds(long, name, at, 0);
    var e := NameEnd(long, at);
    assert LongName(long, [SLASH] + Decimal(at)) == Trim(long[at..e]);
    if e == at + |name| { assert long[at..e] == name; }
  }

  lemma {:induction false} TableHas(ms: seq<Member>, k: nat, n: nat)
    requires k < n <= |ms| && !Short(ms[k].name)
    ensures var t, at := TableTo(ms, n), |TableTo(ms, k)|;
      at + |ms[k].name| < |t| && t[at..at + |ms[k].name|] == ms[k].name && t[at + |ms[k].name|] == SLASH
    decreases n
  {
    var t, at, name := TableTo(ms, n), |TableTo(ms, k)|, ms[k].name;
    if n == k + 1 {
      assert t[at..at + |name|] == name;
    } else {
      TableHas(ms, k, n - 1);
      assert TableTo(ms, n - 1) <= t;
      assert t[at..at + |name|] == TableTo(ms, n - 1)[at..at + |name|];
    }
  }

  lemma {:induction false} TableGrows(ms: seq<Member>, k: nat, n: nat)
    requires k <= n <= |ms|
    ensures TableTo(ms, k) <= TableTo(ms, n)
    decreases n
  {
    if k < n { TableGrows(ms, k, n - 1); }
  }

  lemma LongFits(ms: seq<Member>, k: nat)
    requires k < |ms| && |NameTable(ms)| < 10_000_000_000
    ensures |[SLASH] + Decimal(|TableTo(ms, k)|)| <= 11
  {
    TableGrows(ms, k, |ms|);
    TenDigits();
    DecimalIsShort(|TableTo(ms, k)|, 10, Pow10(10));
  }

  lemma LongSays(ms: seq<Member>, k: nat, mid: Text)
    requires k < |ms| && !Short(ms[k].name) && SLASH !in ms[k].name && |mid| == 32 && |ms[k].data| < 10_000_000_000
    requires |NameTable(ms)| < 10_000_000_000
    ensures var st := Stored(GnuName(ms, k), mid, ms[k].data);
      Regular(st) && (Says(Some(NameTable(ms)), st) == Some([ms[k]]) <==> GnuKept(ms[k].name) && ms[k].data != [])
  {
    var at, name, long := |TableTo(ms, k)|, ms[k].name, NameTable(ms);
    var field := [SLASH] + Decimal(at);
    LongFits(ms, k);
    DigitsStay(Decimal(at));
    TableHas(ms, k, |ms|);
    assert long[at..at + |name|] == TableTo(ms, |ms|)[at..at + |name|];
    LongReads(long, name, at);
    assert field[1] == Decimal(at)[0];
    hide Trim, ParseInt, LongName, NameTable, TableTo, Decimal;
  }

  // -- the whole archive --

  /** A symbol table is passed over. */
  lemma SymbolsSay(symbols: seq<Byte>, mid: Text)
    requires symbols != [] && |mid| == 32 && |symbols| < 10_000_000_000
    ensures Regular(Stored([SLASH], mid, symbols)) && Says(None, Stored([SLASH], mid, symbols)) == Some([])
  {
    assert Trim([SLASH]) == [SLASH];
  }

  lemma TableIs(data: seq<Byte>, at: nat, table: Text)
    requires 0 < |table| && at + |table| <= |data| && data[at..at + |table|] == table
    ensures ItemFor(data, at, Trim(NAME_TABLE), |table|, None) == Table(table, Even(at + |table|))
  {
    assert Trim(NAME_TABLE) == NAME_TABLE;
    PartOfBody(data, at, table, |table|);
    assert table[..|table|] == table;
    hide Str, Even, Trim;
  }

  /** The table of long names is kept for what follows. */
  lemma TableRead(data: seq<Byte>, pre: seq<Byte>, table: Text, post: seq<Byte>)
    requires data == pre + Chunk(NAME_TABLE, Blanks(), table) + post && |pre| % 2 == 0
    requires 0 < |table| < 10_000_000_000
    ensures ItemAt(data, |pre|, None) == Table(table, |pre| + |Chunk(NAME_TABLE, Blanks(), table)|)
    ensures |Chunk(NAME_TABLE, Blanks(), table)| % 2 == 0
  {
    hide ItemAt, ItemFor, Chunk, Even, Trim;
    var n := |Chunk(NAME_TABLE, Blanks(), table)|;
    BehindChunk(|pre|, NAME_TABLE, Blanks(), table, n);
    ChunkRead(data, pre, NAME_TABLE, Blanks(), table, post, None);
    TableIs(data, |pre| + 60, table);
  }

  lemma BehindChunk(at: nat, name: Text, mid: Text, body: seq<Byte>, n: nat)
    requires at % 2 == 0 && Fits(name, mid, body) && n == |Chunk(name, mid, body)|
    ensures Even(at + 60 + |body|) == at + n && n % 2 == 0
  {
    ChunkLength(name, mid, body);
    EvenAdds(at, 60 + |body|);
  }

  /** A step of the reading loop that finds no member. */
  lemma StepOver(data: seq<Byte>, pre: seq<Byte>, chunk: seq<Byte>, post: seq<Byte>, more: Option<Text>)
    requires data == pre + chunk + post && chunk != []
    requires var it := ItemAt(data, |pre|, None);
      it == match more case None => Entry([], |pre| + |chunk|) case Some(table) => Table(table, |pre| + |chunk|)
    ensures Parse(data, |pre|, None) == Parse(data, |pre + chunk|, more)
  {
    hide ItemAt;
  }

  lemma AfterSymbols(data: seq<Byte>, pre: seq<Byte>, symbols: seq<Byte>, mid: Text, post: seq<Byte>)
    requires |mid| == 32 && |symbols| < 10_000_000_000 && |pre| % 2 == 0
    requires data == pre + SymbolPart(symbols, mid) + post
    ensures Parse(data, |pre|, None) == Parse(data, |pre + SymbolPart(symbols, mid)|, None)
    ensures |SymbolPart(symbols, mid)| % 2 == 0
  {
    if symbols != [] {
      var st, chunk := Stored([SLASH], mid, symbols), Chunk([SLASH], mid, symbols);
      SymbolsSay(symbols, mid);
      hide Regular, Says, Chunk, ItemAt, Parse;
      StoredRead(data, pre, st, post, None);
      BehindChunk(|pre|, [SLASH], mid, symbols, |chunk|);
      assert |chunk| > 0 by { ChunkLength([SLASH], mid, symbols); }
      StepOver(data, pre, chunk, post, None);
    } else {
      assert pre + [] == pre;
    }
  }

  lemma AfterTable(data: seq<Byte>, pre: seq<Byte>, ms: seq<Member>, post: seq<Byte>)
    requires |NameTable(ms)| < 10_000_000_000 && |pre| % 2 == 0 && data == pre + TablePart(ms) + post
    ensures Parse(data, |pre|, None) == Parse(data, |pre + TablePart(ms)|, TableOf(ms)) && |TablePart(ms)| % 2 == 0
  {
    if TableTo(ms, |ms|) == [] {
      assert pre + [] == pre;
    } else {
      var table, part := NameTable(ms), TablePart(ms);
      assert part == Chunk(NAME_TABLE, Blanks(), table) && TableOf(ms) == Some(table) && table != [];
      hide Chunk, ItemAt, Parse, NameTable, TableTo, TablePart, TableOf, Even;
      assert part != [] by { ChunkLength(NAME_TABLE, Blanks(), table); }
      TableRead(data, pre, table, post);
      StepOver(data, pre, part, post, Some(table));
    }
  }

  lemma MembersSay(ms: seq<Member>, mids: seq<Text>, long: Option<Text>)
    requires GnuFiles([], Blanks(), ms, mids)
    requires long == TableOf(ms)
    ensures forall k :: 0 <= k < |ms| ==> Regular(GnuStored(ms, mids)[k])
    ensures Gathered(long, GnuStored(ms, mids)) == ms <==>
      forall k :: 0 <= k < |ms| ==> GnuKept(ms[k].name) && ms[k].data != []
  {
    hide Says, Regular, GnuKept, NameTable;
    var sts := GnuStored(ms, mids);
    forall k | 0 <= k < |ms|
      ensures Regular(sts[k]) && (Says(long, sts[k]) == Some([ms[k]]) <==> GnuKept(ms[k].name) && ms[k].data != [])
    {
      if Short(ms[k].name) {
        ShortSays(long, ms[k], mids[k]);
      } else {
        TableHas(ms, k, |ms|);
        LongSays(ms, k, mids[k]);
      }
    }
    GatheredAre(long, sts, ms);
  }

  /** What a GNU ar has written reads back as its files, in order, if and only if every file has some data and a name
      that comes back. */
  lemma GnuReadsBack(symbols: seq<Byte>, mid: Text, ms: seq<Member>, mids: seq<Text>)
    requires GnuFiles(symbols, mid, ms, mids)
    ensures MAGIC <= GnuArchive(symbols, mid, ms, mids)
    ensures Parse(GnuArchive(symbols, mid, ms, mids), 8, None) == ms <==>
      forall k :: 0 <= k < |ms| ==> GnuKept(ms[k].name) && ms[k].data != []
  {
    var sts, head: seq<Byte> := GnuStored(ms, mids), MAGIC;
    assert |head| == 8;
    MembersSay(ms, mids, TableOf(ms));
    hide Parse, Gathered, Regular, GnuStored, NameTable, GnuKept, SymbolPart, TablePart, TableOf, Bytes, Chunk;
    GnuGathers(head, symbols, mid, ms, sts);
  }

  lemma GnuGathers(pre: seq<Byte>, symbols: seq<Byte>, mid: Text, ms: seq<Member>, sts: seq<Stored>)
    requires |mid| == 32 && |symbols| < 10_000_000_000 && |NameTable(ms)| < 10_000_000_000 && |pre| % 2 == 0
    requires forall k :: 0 <= k < |sts| ==> Regular(sts[k])
    ensures Parse(pre + SymbolPart(symbols, mid) + TablePart(ms) + Bytes(sts), |pre|, None) ==
      Gathered(TableOf(ms), sts)
  {
    hide Parse, Gathered, Regular, NameTable, SymbolPart, TablePart, TableOf, Bytes, Chunk;
    var first, second, rest := SymbolPart(symbols, mid), TablePart(ms), Bytes(sts);
    var data := pre + first + second + rest;
    assert data == pre + first + (second + rest);
    AfterSymbols(data, pre, symbols, mid, second + rest);
    AfterTable(data, pre + first, ms, rest);
    Gathers(data, pre + first + second, sts, TableOf(ms));
  }

  // ---------- BSD: a name stands in the header, or in front of the data ----------

  /** `Ahead(n)`: the name is in the first n bytes of the body, filled up with NULs. */
  datatype Form = InHeader | Ahead(n: nat)

  function Nuls(n: nat): (s: Text)
    ensures |s| == n
  {
    seq(n, _ => 0)
  }

  predicate FormFits(m: Member, form: Form) {
    match form
    case InHeader => |m.name| <= 16 && |m.data| < 10_000_000_000
    case Ahead(n) => |m.name| <= n && n + |m.data| < 10_000_000_000
  }

  function BsdStored(m: Member, form: Form, mid: Text): Stored
    requires FormFits(m, form)
  {
    match form
    case InHeader => Stored(m.name, mid, m.data)
    case Ahead(n) => Stored(HASH_ONE + Decimal(n), mid, m.name + Nuls(n - |m.name|) + m.data)
  }

  const SYMDEF_SORTED: Text := SYMDEF + [32, 83, 79, 82, 84, 69, 68]   // __.SYMDEF SORTED

  /** The symbol table is a member of one of two names. */
  predicate IsSymbolTable(m: Member, form: Form) {
    m.name in {SYMDEF, SYMDEF_SORTED} && m.data != [] && FormFits(m, form)
  }

  /** Names are those of files, without their directories. */
  predicate BsdFile(m: Member, form: Form, mid: Text) {
    FormFits(m, form) && |mid| == 32 && SLASH !in m.name
  }

  predicate BsdFiles(ms: seq<Member>, forms: seq<Form>, mids: seq<Text>) {
    |forms| == |mids| == |ms| && forall k :: 0 <= k < |ms| ==> BsdFile(ms[k], forms[k], mids[k])
  }

  /** The names, and members, that come back. */
  predicate BsdKept(m: Member, form: Form) {
    && m.name != [] && Trim(m.name) == m.name && !StartsWith(m.name, SYMDEF)
    && (if form.InHeader? then m.data != [] else 0 !in m.name)
  }

  lemma {:induction false} NoNulKeeps(s: Text)
    ensures |NoNul(s)| <= |s| && (|NoNul(s)| == |s| <==> 0 !in s) && (0 !in s ==> NoNul(s) == s)
    decreases |s|
  {
    if s != [] {
      var n := |s| - 1;
      assert s == s[..n] + [s[n]];
      NoNulKeeps(s[..n]);
    }
  }

  lemma {:induction false} NulsGo(s: Text, n: nat)
    ensures NoNul(s + Nuls(n)) == NoNul(s)
    decreases n
  {
    var t := s + Nuls(n);
    if n > 0 {
      assert t[..|t| - 1] == s + Nuls(n - 1);
      NulsGo(s, n - 1);
    } else {
      assert t == s;
    }
  }

  lemma HashName(n: nat)
    requires n < 10_000_000_000
    ensures |HASH_ONE + Decimal(n)| <= 13 && Trim(HASH_ONE + Decimal(n)) == HASH_ONE + Decimal(n)
    ensures StartsWith(HASH_ONE + Decimal(n), HASH_ONE) && (HASH_ONE + Decimal(n))[3..] == Decimal(n)
  {
    TenDigits();
    DecimalIsShort(n, 10, Pow10(10));
    var t := HASH_ONE + Decimal(n);
    assert t[|t| - 1] == Decimal(n)[|Decimal(n)| - 1];
  }

  /** What the reader finds in a member whose name stands in front of the data. */
  lemma AheadSays(m: Member, n: nat, mid: Text, long: Option<Text>)
    requires FormFits(m, Ahead(n)) && |mid| == 32
    ensures var st := BsdStored(m, Ahead(n), mid);
      && Regular(st)
      && Says(long, st) == if n + |m.data| == 0 then None else Some(Emit(Member(Trim(NoNul(m.name)), m.data)))
  {
    hide Trim, ParseInt, NoNul, Decimal, Emit, Nuls, Fits;
    var st := BsdStored(m, Ahead(n), mid);
    HashName(n);
    ParseDecimal(n);
    NulsGo(m.name, n - |m.name|);
    assert st.body[..n] == m.name + Nuls(n - |m.name|) && st.body[n..] == m.data;
    AheadRegular(st, n);
  }

  lemma AheadRegular(st: Stored, n: nat)
    requires st.name == HASH_ONE + Decimal(n) && |st.name| <= 16 && |st.mid| == 32 && n <= |st.body| < 10_000_000_000
    requires Trim(st.name) == st.name && ParseInt(Decimal(n)) == Some(n) && StartsWith(st.name, HASH_ONE)
    requires st.name[3..] == Decimal(n)
    ensures Regular(st)
  {
    hide Trim, ParseInt, Decimal;
    assert st.name[0] == 35;
  }

  lemma AheadKept(m: Member, n: nat, mid: Text, long: Option<Text>)
    requires FormFits(m, Ahead(n)) && |mid| == 32 && SLASH !in m.name
    ensures Regular(BsdStored(m, Ahead(n), mid))
    ensures Says(long, BsdStored(m, Ahead(n), mid)) == Some([m]) <==> BsdKept(m, Ahead(n))
  {
    AheadSays(m, n, mid, long);
    NoNulKeeps(m.name);
    hide NoNul, Says, Regular, BsdStored;
  }

  lemma InHeaderKept(m: Member, mid: Text)
    requires FormFits(m, InHeader) && |mid| == 32 && SLASH !in m.name
    ensures Regular(BsdStored(m, InHeader, mid))
    ensures Says(None, BsdStored(m, InHeader, mid)) == Some([m]) <==> BsdKept(m, InHeader)
  {
    var t := Trim(m.name);
    TrimStartIn(m.name);
    assert forall b :: b in t ==> b in m.name;
    assert |t| > 2 ==> t[2] in t;
    hide Trim, ParseInt;
  }

  lemma SymdefIs(name: Text)
    requires name in {SYMDEF, SYMDEF_SORTED}
    ensures Trim(name) == name && 0 !in name && StartsWith(name, SYMDEF) && !StartsWith(name, HASH_ONE)
    ensures name != [] && name[0] != SLASH && !EndsWithSlash(name) && |name| <= 16
  {
  }

  lemma SymbolTableSays(m: Member, form: Form, mid: Text)
    requires IsSymbolTable(m, form) && |mid| == 32
    ensures Regular(BsdStored(m, form, mid)) && Says(None, BsdStored(m, form, mid)) == Some([])
  {
    hide Trim, NoNul, ParseInt, StartsWith, EndsWithSlash;
    SymdefIs(m.name);
    NoNulKeeps(m.name);
    if form.Ahead? { AheadSays(m, form.n, mid, None); }
  }

  function BsdMembers(ms: seq<Member>, forms: seq<Form>, mids: seq<Text>): (sts: seq<Stored>)
    requires BsdFiles(ms, forms, mids)
    ensures |sts| == |ms|
  {
    seq(|ms|, k requires 0 <= k < |ms| => BsdStored(ms[k], forms[k], mids[k]))
  }

  lemma BsdMembersSay(ms: seq<Member>, forms: seq<Form>, mids: seq<Text>)
    requires BsdFiles(ms, forms, mids)
    ensures forall k :: 0 <= k < |ms| ==> Regular(BsdMembers(ms, forms, mids)[k])
    ensures Gathered(None, BsdMembers(ms, forms, mids)) == ms <==>
      forall k :: 0 <= k < |ms| ==> BsdKept(ms[k], forms[k])
  {
    hide Says, Regular, BsdKept, BsdStored, Gathered;
    var sts := BsdMembers(ms, forms, mids);
    forall k | 0 <= k < |ms|
      ensures Regular(sts[k]) && (Says(None, sts[k]) == Some([ms[k]]) <==> BsdKept(ms[k], forms[k]))
    {
      match forms[k]
      case InHeader => InHeaderKept(ms[k], mids[k]);
      case Ahead(n) => AheadKept(ms[k], n, mids[k], None);
    }
    GatheredAre(None, sts, ms);
  }

  /** What a BSD ar has written, with a symbol table in front, reads back as its files, in order, if and only if every
      name comes back, and with a name in the header there is some data. */
  lemma BsdReadsBack(table: Member, form: Form, mid: Text, ms: seq<Member>, forms: seq<Form>, mids: seq<Text>)
    requires BsdFiles(ms, forms, mids)
    requires IsSymbolTable(table, form) && |mid| == 32
    ensures var data := MAGIC + Bytes([BsdStored(table, form, mid)] + BsdMembers(ms, forms, mids));
      MAGIC <= data && (Parse(data, 8, None) == ms <==> forall k :: 0 <= k < |ms| ==> BsdKept(ms[k], forms[k]))
  {
    hide Parse, Bytes, Regular, Says, BsdKept, BsdStored, BsdMembers, BsdFiles, Gathered, MAGIC;
    var st, sts, head: seq<Byte> := BsdStored(table, form, mid), BsdMembers(ms, forms, mids), MAGIC;
    MagicLength();
    SymbolTableSays(table, form, mid);
    BsdMembersSay(ms, forms, mids);
    FirstIsRegular(st, sts);
    Gathers(head + Bytes([st] + sts), head, [st] + sts, None);
  }

  lemma MagicLength()
    ensures |MAGIC| == 8
  {
  }

  lemma FirstIsRegular(st: Stored, sts: seq<Stored>)
    requires Regular(st) && Says(None, st) == Some([]) && forall k :: 0 <= k < |sts| ==> Regular(sts[k])
    ensures forall k :: 0 <= k < |[st] + sts| ==> Regular(([st] + sts)[k])
    ensures Gathered(None, [st] + sts) == Gathered(None, sts)
  {
    hide Regular, Says;
    var all := [st] + sts;
    assert all[0] == st && all[1..] == sts;
    assert Gathered(None, all) == [] + Gathered(None, sts);
  }

  /** The same without a symbol table. */
  lemma BsdReadsBackPlain(ms: seq<Member>, forms: seq<Form>, mids: seq<Text>)
    requires BsdFiles(ms, forms, mids)
    ensures var data := MAGIC + Bytes(BsdMembers(ms, forms, mids));
      MAGIC <= data && (Parse(data, 8, None) == ms <==> forall k :: 0 <= k < |ms| ==> BsdKept(ms[k], forms[k]))
  {
    var sts, head: seq<Byte> := BsdMembers(ms, forms, mids), MAGIC;
    assert |head| == 8;
    BsdMembersSay(ms, forms, mids);
    hide Parse, Bytes, Regular, Gathered, BsdKept, BsdMembers;
    Gathers(head + Bytes(sts), head, sts, None);
  }

  /** The names and marks in these archives, in characters. */
  lemma Spelled()
    ensures MAGIC == Ascii("!<arch>\n") && FMAG == Ascii("`\n") && NAME_TABLE == Ascii("//") && HASH_ONE == Ascii("#1/")
    ensures SYMDEF == Ascii("__.SYMDEF") && SYMDEF_SORTED == Ascii("__.SYMDEF SORTED") && [SLASH, 10] == Ascii("/\n")
  {
  }
}
