/** The relocation of an eval fragment on arm64 and x64 (engine/compile.js): calls through trampolines, local branches,
    data and code references and references to the host's variables are patched into a buffer that only grows at its
    end. */
module FragmentLinker {
  import opened Basics
  import opened A64
  import X64Code

  /** On arm64 an offset is an instruction's; `FRel` and `FRip` are x64's rel32 and rip32, whose offset is that of the
      displacement at the end of the instruction. */
  datatype Fixup =
    | FBl(off: nat, name: string)
    | FB(off: nat, name: string)
    | FBCond(off: nat, name: string, cond: nat)
    | FCbz(off: nat, name: string, nonzero: bool)
    | FAdrp(off: nat, name: string, rd: nat)
    | FRel(off: nat, name: string)
    | FRip(off: nat, name: string)
    | FOther(off: nat, name: string)

  datatype Reloc = Reloc(slot: nat, sym: nat)

  /** The compiled fragment and the tables it is linked with: the ids of the host's symbols, those of its variables,
      labels of the constant data, values of the singletons, contents of the strings, and labels of the fragment's own
      code. */
  datatype Input = Input(
    x64: bool, code: seq<Byte>, fixups: seq<Fixup>, symIds: map<string, nat>, hostData: set<string>,
    data: seq<Byte>, dataLabels: map<string, nat>, singletons: map<string, int>, strings: map<string, seq<Byte>>,
    labels: map<string, nat>)

  // ---------- bytes and words ----------

  function FromLE(b: seq<Byte>): (v: nat) {
    if b == [] then 0 else b[0] + 256 * FromLE(b[1..])
  }

  lemma {:induction false} LEReads(v: nat, n: nat, limit: nat)
    requires v < limit && limit == Pow256(n)
    ensures FromLE(LE(v, n)) == v
    decreases n
  {
    if n > 0 {
      LEReads(v / 256, n - 1, Pow256(n - 1));
      assert LE(v, n)[1..] == LE(v / 256, n - 1);
    }
  }

  function Pow256(n: nat): nat { if n == 0 then 1 else 256 * Pow256(n - 1) }

  predicate WordAt(buf: seq<Byte>, off: nat, w: Bits) {
    off + 4 <= |buf| && buf[off..off + 4] == LE(w, 4)
  }

  function Put(buf: seq<Byte>, off: nat, w: Bits): (r: seq<Byte>)
    requires off + 4 <= |buf|
    ensures |r| == |buf| && WordAt(r, off, w)
    ensures forall p :: 0 <= p < |buf| && !(off <= p < off + 4) ==> r[p] == buf[p]
  {
    buf[..off] + LE(w, 4) + buf[off + 4..]
  }

  lemma PutTwice(buf: seq<Byte>, off: nat, w: Bits, v: Bits)
    requires off + 8 <= |buf|
    ensures var r := Put(Put(buf, off, w), off + 4, v);
      WordAt(r, off, w) && WordAt(r, off + 4, v) && forall p :: 0 <= p < |buf| && !(off <= p < off + 8) ==>
        r[p] == buf[p]
  {
    var mid := Put(buf, off, w);
    assert Put(mid, off + 4, v)[off..off + 4] == mid[off..off + 4];
  }

  lemma WordReads(buf: seq<Byte>, off: nat, w: Bits)
    requires WordAt(buf, off, w)
    ensures WordOf(buf, off) == w
  {
    var b := LE(w, 4);
    assert b == [w % 256] + LE(w / 256, 3) && LE(w / 256, 3) == [w / 256 % 256] + LE(w / 256 / 256, 2);
    assert LE(w / 256 / 256, 2) == [w / 256 / 256 % 256] + LE(w / 256 / 256 / 256, 1);
    assert LE(w / 256 / 256 / 256, 1) == [w / 256 / 256 / 256 % 256] + [];
    assert buf[off..off + 4][0] == b[0] && buf[off..off + 4][1] == b[1] && buf[off..off + 4][2] == b[2]
      && buf[off..off + 4][3] == b[3];
  }

  // ---------- what the assembler provides ----------

  /** The site of a rip32 is the whole instruction, as its opcode may be patched. */
  function Start(f: Fixup): int { if f.FRip? then f.off - 3 else f.off }

  function End(f: Fixup): nat { if f.FAdrp? then f.off + 8 else f.off + 4 }

  predicate Apart(f: Fixup, g: Fixup) {
    End(f) <= Start(g) || End(g) <= Start(f)
  }

  /** The assembler of each target has its own kinds of fixups. */
  predicate Suits(x64: bool, f: Fixup) {
    f.FOther? || (x64 <==> f.FRel? || f.FRip?)
  }

  /** Sites are inside the code, no two overlap; on arm64 sites and labels are instructions, on x64 a rip32 is that of a
      lea. */
  predicate Sound(inp: Input) {
    && (forall i :: 0 <= i < |inp.fixups| ==>
         && 0 <= Start(inp.fixups[i]) && End(inp.fixups[i]) <= |inp.code| && Suits(inp.x64, inp.fixups[i])
         && (!inp.x64 ==> inp.fixups[i].off % 4 == 0)
         && (inp.fixups[i].FRip? ==> X64Code.IsLea(inp.code, inp.fixups[i].off)))
    && (forall i, j :: 0 <= i < j < |inp.fixups| ==> Apart(inp.fixups[i], inp.fixups[j]))
    && (forall i :: 0 <= i < |inp.fixups| && inp.fixups[i].FAdrp? ==> inp.fixups[i].rd < 32)
    && (forall l :: l in inp.labels ==> inp.labels[l] <= |inp.code| && (!inp.x64 ==> inp.labels[l] % 4 == 0))
    && (forall l :: l in inp.dataLabels ==> inp.dataLabels[l] <= |inp.data|)
    && (forall l :: l in inp.hostData ==> l in inp.symIds)
    && (forall l :: l in inp.singletons ==> 0 <= inp.singletons[l] < TWO64)
  }

  /** rel32 is used for calls of the host and for branches: the latter go to labels of the fragment that are no symbols
      of the host. */
  predicate IsLocal(inp: Input, f: Fixup) {
    f.FB? || f.FBCond? || f.FCbz? || (f.FRel? && f.name !in inp.symIds && f.name in inp.labels)
  }

  predicate IsCall(inp: Input, f: Fixup) {
    f.FBl? || (f.FRel? && !IsLocal(inp, f))
  }

  predicate IsData(f: Fixup) {
    f.FAdrp? || f.FRip?
  }

  // ---------- what a linked fragment is ----------

  /** `bytes` are at t, behind the code and away from every slot. */
  predicate Holds(inp: Input, buf: seq<Byte>, relocs: seq<Reloc>, t: nat, bytes: seq<Byte>) {
    |inp.code| <= t && t + |bytes| <= |buf| && buf[t..t + |bytes|] == bytes && Clear(relocs, t, |bytes|)
  }

  predicate Clear(relocs: seq<Reloc>, t: nat, n: nat) {
    forall r :: 0 <= r < |relocs| ==> relocs[r].slot + 8 <= t || t + n <= relocs[r].slot
  }

  /** mov rax, [rip + 2]; jmp rax. */
  const JUMP_RAX: seq<Byte> := [0x48, 0x8b, 0x05, 0x02, 0x00, 0x00, 0x00, 0xff, 0xe0]

  /** On arm64 ldr x16, #8; br x16. */
  function TrampBytes(x64: bool): seq<Byte> {
    if x64 then JUMP_RAX else LE(LDR_X16, 4) + LE(BR_X16, 4)
  }

  function SlotOf(x64: bool, t: nat): nat {
    if x64 then t + 9 else t + 8
  }

  /** A trampoline, and its slot, which is the symbol's. */
  predicate IsTramp(inp: Input, buf: seq<Byte>, relocs: seq<Reloc>, t: nat, sym: nat) {
    && t % 4 == 0 && Holds(inp, buf, relocs, t, TrampBytes(inp.x64))
    && Reloc(SlotOf(inp.x64, t), sym) in relocs
  }

  /** A displacement counts from its end. */
  function Rel32(off: nat, t: nat): Bits {
    (t - (off + 4)) % 0x1_0000_0000
  }

  function SingletonBytes(inp: Input, l: string): seq<Byte>
    requires l in inp.singletons
  {
    LE(inp.singletons[l], 8)
  }

  /** What a reference to label l must point at. */
  predicate Refers(inp: Input, buf: seq<Byte>, relocs: seq<Reloc>, dataOff: nat, t: nat, l: string) {
    if l in inp.dataLabels then t == dataOff + inp.dataLabels[l] && Holds(inp, buf, relocs, dataOff, inp.data)
    else if l in inp.singletons then Holds(inp, buf, relocs, t, SingletonBytes(inp, l))
    else if "_str_" <= l then l in inp.strings && Holds(inp, buf, relocs, t, inp.strings[l] + [0])
    else l in inp.labels && t == inp.labels[l]
  }

  /** The site of fixup f has been patched to lead to t. */
  predicate Done(inp: Input, buf: seq<Byte>, relocs: seq<Reloc>, tramps: map<nat, nat>, dataOff: nat, f: Fixup,
      t: nat) {
    match f
    case FBl(off, l) =>
      l in inp.symIds && inp.symIds[l] in tramps && t == tramps[inp.symIds[l]]
        && IsTramp(inp, buf, relocs, t, inp.symIds[l])
      && WordAt(buf, off, BlWord(off, t))
    case FB(off, l) => l in inp.labels && t == inp.labels[l] && WordAt(buf, off, BWord(off, t))
    case FBCond(off, l, cond) => l in inp.labels && t == inp.labels[l] && WordAt(buf, off, BCondWord(off, t, cond))
    case FCbz(off, l, nonzero) =>
      l in inp.labels && t == inp.labels[l] && off < |inp.code|
        && WordAt(buf, off, CbzWord(off, t, nonzero, inp.code[off] % 32))
    case FAdrp(off, l, rd) => rd < 32 && (
      if l in inp.hostData then
        l in inp.symIds && t % 8 == 0 && Reloc(t, inp.symIds[l]) in relocs && WordAt(buf, off, LdrWord(off, t, rd))
          && WordAt(buf, off + 4, NOP_WORD)
      else
        Refers(inp, buf, relocs, dataOff, t, l) && WordAt(buf, off, AdrpWord(off, t, rd))
          && WordAt(buf, off + 4, AddWord(t, rd)))
    case FRel(off, l) =>
      WordAt(buf, off, Rel32(off, t)) && if IsLocal(inp, f) then t == inp.labels[l] else
        l in inp.symIds && inp.symIds[l] in tramps && t == tramps[inp.symIds[l]]
        && IsTramp(inp, buf, relocs, t, inp.symIds[l])
    case FRip(off, l) =>
      3 <= off <= |inp.code| && WordAt(buf, off, Rel32(off, t)) && OpcodeIs(inp, buf, off, l in inp.hostData) && (
        if l in inp.hostData then l in inp.symIds && Reloc(t, inp.symIds[l]) in relocs
        else Refers(inp, buf, relocs, dataOff, t, l))
    case FOther(_, _) => false
  }

  /** The opcode that makes a load of an address computation. */
  const MOV: Byte := 0x8b

  /** The three bytes before a rip32, of which only the opcode may have changed. */
  predicate OpcodeIs(inp: Input, buf: seq<Byte>, off: nat, host: bool)
    requires 3 <= off <= |inp.code|
  {
    && off <= |buf| && buf[off - 3] == inp.code[off - 3] && buf[off - 1] == inp.code[off - 1]
    && buf[off - 2] == if host then MOV else inp.code[off - 2]
  }

  /** Slots are in order and inside the buffer, behind the code, and on arm64 aligned. */
  predicate SlotsOk(inp: Input, buf: seq<Byte>, relocs: seq<Reloc>) {
    && (forall r :: 0 <= r < |relocs| ==>
         |inp.code| <= relocs[r].slot && (!inp.x64 ==> relocs[r].slot % 8 == 0) && relocs[r].slot + 8 <= |buf|)
    && (forall r, q :: 0 <= r < q < |relocs| ==> relocs[r].slot + 8 <= relocs[q].slot)
  }

  predicate InSite(f: Fixup, p: nat) {
    Start(f) <= p < End(f)
  }

  /** From one buffer to a later one: it has grown, and of the old bytes at most those of site f differ. */
  predicate Grown(inp: Input, f: Fixup, buf: seq<Byte>, now: seq<Byte>, relocs: seq<Reloc>, later: seq<Reloc>) {
    && |inp.code| <= |buf| <= |now| && relocs <= later
    && (forall p :: 0 <= p < |buf| && !(InSite(f, p) && p < |inp.code|) ==> now[p] == buf[p])
    && (forall r :: |relocs| <= r < |later| ==> |buf| <= later[r].slot)
  }

  lemma HoldsOn(inp: Input, f: Fixup, buf: seq<Byte>, now: seq<Byte>, relocs: seq<Reloc>, later: seq<Reloc>, t: nat,
      bytes: seq<Byte>)
    requires Grown(inp, f, buf, now, relocs, later) && Holds(inp, buf, relocs, t, bytes)
    ensures Holds(inp, now, later, t, bytes)
  {
    assert now[t..t + |bytes|] == buf[t..t + |bytes|];
    forall r | 0 <= r < |later| ensures later[r].slot + 8 <= t || t + |bytes| <= later[r].slot {
      if r < |relocs| { assert later[r] == relocs[r]; }
    }
  }

  lemma WordStays(inp: Input, f: Fixup, g: Fixup, buf: seq<Byte>, now: seq<Byte>, relocs: seq<Reloc>,
      later: seq<Reloc>, off: nat, w: Bits)
    requires Grown(inp, f, buf, now, relocs, later) && Apart(f, g) && Start(g) <= off && off + 4 <= End(g)
    requires WordAt(buf, off, w)
    ensures WordAt(now, off, w)
  {
    assert now[off..off + 4] == buf[off..off + 4];
  }

  /** What has been patched stays patched while other sites are and the buffer grows. */
  lemma DoneStays(inp: Input, f: Fixup, buf: seq<Byte>, now: seq<Byte>, relocs: seq<Reloc>, later: seq<Reloc>,
      tramps: map<nat, nat>, more: map<nat, nat>, dataOff: nat, g: Fixup, t: nat)
    requires Grown(inp, f, buf, now, relocs, later) && Apart(f, g) && Done(inp, buf, relocs, tramps, dataOff, g, t)
    requires forall s :: s in tramps ==> s in more && more[s] == tramps[s]
    ensures Done(inp, now, later, more, dataOff, g, t)
  {
    hide LE, BlWord, BWord, BCondWord, CbzWord, LdrWord, AdrpWord, AddWord, Rel32, TrampBytes, Grown, Holds, WordAt;
    assert forall r :: r in relocs ==> r in later by { InLater(inp, f, buf, now, relocs, later); }
    match g
    case FBl(off, l) =>
      WordStays(inp, f, g, buf, now, relocs, later, off, BlWord(off, t));
      HoldsOn(inp, f, buf, now, relocs, later, t, TrampBytes(inp.x64));
    case FB(off, l) => WordStays(inp, f, g, buf, now, relocs, later, off, BWord(off, t));
    case FBCond(off, l, cond) => WordStays(inp, f, g, buf, now, relocs, later, off, BCondWord(off, t, cond));
    case FCbz(off, l, nonzero) => WordStays(inp, f, g, buf, now, relocs, later, off,
      CbzWord(off, t, nonzero, inp.code[off] % 32));
    case FAdrp(off, l, rd) =>
      if l in inp.hostData {
        WordStays(inp, f, g, buf, now, relocs, later, off, LdrWord(off, t, rd));
        WordStays(inp, f, g, buf, now, relocs, later, off + 4, NOP_WORD);
      } else {
        WordStays(inp, f, g, buf, now, relocs, later, off, AdrpWord(off, t, rd));
        WordStays(inp, f, g, buf, now, relocs, later, off + 4, AddWord(t, rd));
        RefersOn(inp, f, buf, now, relocs, later, dataOff, t, l);
      }
    case FRel(off, l) =>
      WordStays(inp, f, g, buf, now, relocs, later, off, Rel32(off, t));
      if !IsLocal(inp, g) { HoldsOn(inp, f, buf, now, relocs, later, t, TrampBytes(inp.x64)); }
    case FRip(off, l) =>
      WordStays(inp, f, g, buf, now, relocs, later, off, Rel32(off, t));
      ByteStays(inp, f, g, buf, now, relocs, later, off - 3);
      ByteStays(inp, f, g, buf, now, relocs, later, off - 2);
      ByteStays(inp, f, g, buf, now, relocs, later, off - 1);
      if l !in inp.hostData { RefersOn(inp, f, buf, now, relocs, later, dataOff, t, l); }
  }

  lemma ByteStays(inp: Input, f: Fixup, g: Fixup, buf: seq<Byte>, now: seq<Byte>, relocs: seq<Reloc>,
      later: seq<Reloc>, p: nat)
    requires Grown(inp, f, buf, now, relocs, later) && Apart(f, g) && InSite(g, p) && p < |inp.code|
    ensures p < |buf| <= |now| && now[p] == buf[p]
  {
  }

  lemma InLater(inp: Input, f: Fixup, buf: seq<Byte>, now: seq<Byte>, relocs: seq<Reloc>, later: seq<Reloc>)
    requires Grown(inp, f, buf, now, relocs, later)
    ensures forall r :: r in relocs ==> r in later
  {
    assert later[..|relocs|] == relocs;
  }

  lemma RefersOn(inp: Input, f: Fixup, buf: seq<Byte>, now: seq<Byte>, relocs: seq<Reloc>, later: seq<Reloc>,
      dataOff: nat, t: nat, l: string)
    requires Grown(inp, f, buf, now, relocs, later) && Refers(inp, buf, relocs, dataOff, t, l)
    ensures Refers(inp, now, later, dataOff, t, l)
  {
    hide Grown, Holds, LE;
    if l in inp.dataLabels { HoldsOn(inp, f, buf, now, relocs, later, dataOff, inp.data); }
    else if l in inp.singletons { HoldsOn(inp, f, buf, now, relocs, later, t, SingletonBytes(inp, l)); }
    else if "_str_" <= l { HoldsOn(inp, f, buf, now, relocs, later, t, inp.strings[l] + [0]); }
  }

  // ---------- the linker's state ----------

  predicate TrampsOk(inp: Input, buf: seq<Byte>, relocs: seq<Reloc>, tramps: map<nat, nat>) {
    forall s :: s in tramps ==> IsTramp(inp, buf, relocs, tramps[s], s)
  }

  predicate AllDone(inp: Input, buf: seq<Byte>, relocs: seq<Reloc>, tramps: map<nat, nat>, dataOff: nat,
      targets: map<nat, nat>) {
    forall i :: i in targets ==> i < |inp.fixups| && Done(inp, buf, relocs, tramps, dataOff, inp.fixups[i], targets[i])
  }

  /** Code bytes outside the sites dealt with are as they were. */
  predicate Untouched(inp: Input, buf: seq<Byte>, targets: map<nat, nat>) {
    |inp.code| <= |buf| && forall p :: 0 <= p < |inp.code| ==>
      buf[p] == inp.code[p] || exists i :: i in targets && i < |inp.fixups| && InSite(inp.fixups[i], p)
  }

  predicate CachesOk(inp: Input, buf: seq<Byte>, relocs: seq<Reloc>, strAt: map<string, nat>, singleAt: map<string,
      nat>, placed: bool, dataOff: nat) {
    && (placed ==> Holds(inp, buf, relocs, dataOff, inp.data))
    && (forall l :: l in strAt ==> l in inp.strings && Holds(inp, buf, relocs, strAt[l], inp.strings[l] + [0]))
    && (forall l :: l in singleAt ==>
         l in inp.singletons && Holds(inp, buf, relocs, singleAt[l], SingletonBytes(inp, l)))
  }

  /** All that is kept while site f is patched and the buffer grows. */
  lemma AllStays(inp: Input, f: Fixup, buf: seq<Byte>, now: seq<Byte>, relocs: seq<Reloc>, later: seq<Reloc>,
      tramps: map<nat, nat>, more: map<nat, nat>, dataOff: nat, targets: map<nat, nat>, strAt: map<string, nat>,
        singleAt: map<string, nat>, placed: bool)
    requires Grown(inp, f, buf, now, relocs, later) && AllDone(inp, buf, relocs, tramps, dataOff, targets)
    requires forall i :: i in targets ==> i < |inp.fixups| && Apart(f, inp.fixups[i])
    requires forall s :: s in tramps ==> s in more && more[s] == tramps[s]
    requires CachesOk(inp, buf, relocs, strAt, singleAt, placed, dataOff) && TrampsOk(inp, buf, relocs, tramps)
    ensures AllDone(inp, now, later, more, dataOff, targets)
    ensures CachesOk(inp, now, later, strAt, singleAt, placed, dataOff)
    ensures TrampsOk(inp, now, later, tramps)
  {
    hide Grown, Done, Holds, Apart, LE;
    forall i | i in targets ensures Done(inp, now, later, more, dataOff, inp.fixups[i], targets[i]) {
      DoneStays(inp, f, buf, now, relocs, later, tramps, more, dataOff, inp.fixups[i], targets[i]);
    }
    if placed { HoldsOn(inp, f, buf, now, relocs, later, dataOff, inp.data); }
    forall l | l in strAt ensures Holds(inp, now, later, strAt[l], inp.strings[l] + [0]) {
      HoldsOn(inp, f, buf, now, relocs, later, strAt[l], inp.strings[l] + [0]);
    }
    forall l | l in singleAt ensures Holds(inp, now, later, singleAt[l], SingletonBytes(inp, l)) {
      HoldsOn(inp, f, buf, now, relocs, later, singleAt[l], SingletonBytes(inp, l));
    }
    InLater(inp, f, buf, now, relocs, later);
    forall s | s in tramps ensures IsTramp(inp, now, later, tramps[s], s) {
      HoldsOn(inp, f, buf, now, relocs, later, tramps[s], TrampBytes(inp.x64));
    }
  }

  /** The site of nothing: appending touches no code. */
  function NoSite(inp: Input): Fixup { FOther(|inp.code|, "") }

  lemma NoSiteApart(inp: Input)
    requires Sound(inp)
    ensures forall i :: 0 <= i < |inp.fixups| ==> Apart(NoSite(inp), inp.fixups[i])
  {
  }

  lemma NextMod8(n: nat)
    requires n % 8 != 0
    ensures (8 - (n + 1) % 8) % 8 < (8 - n % 8) % 8
  {
  }

  class Linker {
    const inp: Input
    var buf: seq<Byte>
    var relocs: seq<Reloc>
    var trampFor: map<nat, nat>
    var strBufOff: map<string, nat>
    var singletonBufOff: map<string, nat>
    var dataOff: nat
    /** Where the fixups dealt with lead. */
    ghost var targets: map<nat, nat>
    /** The constant data has been appended, at dataOff. */
    ghost var placed: bool

    ghost predicate Valid()
      reads this
    {
      && Sound(inp) && |inp.code| <= |buf| && SlotsOk(inp, buf, relocs) && TrampsOk(inp, buf, relocs, trampFor)
      && AllDone(inp, buf, relocs, trampFor, dataOff, targets) && Untouched(inp, buf, targets)
      && CachesOk(inp, buf, relocs, strBufOff, singletonBufOff, placed, dataOff)
    }

    constructor (inp: Input)
      requires Sound(inp)
      ensures Valid() && this.inp == inp && targets == map[] && buf == inp.code && relocs == [] && !placed
    {
      this.inp := inp;
      buf, relocs, trampFor, strBufOff, singletonBufOff, dataOff := inp.code, [], map[], map[], map[], 0;
      targets, placed := map[], false;
    }

    /** Bytes are appended, and a slot made if asked for. */
    method Append(bytes: seq<Byte>)
      requires Valid()
      modifies this`buf
      ensures Valid() && buf == old(buf) + bytes
    {
      ghost var was := buf;
      buf := buf + bytes;
      NoSiteApart(inp);
      AllStays(inp, NoSite(inp), was, buf, relocs, relocs, trampFor, trampFor, dataOff, targets, strBufOff,
        singletonBufOff, placed);
    }

    method Pad8()
      requires Valid()
      modifies this`buf
      ensures Valid() && |buf| % 8 == 0 && old(buf) <= buf
    {
      hide Valid;
      while |buf| % 8 != 0
        invariant Valid() && old(buf) <= buf
        decreases (8 - |buf| % 8) % 8
      {
        ghost var n := |buf|;
        Append([0]);
        NextMod8(n);
      }
    }

    method NewSlot(sym: nat) returns (slot: nat)
      requires Valid() && (inp.x64 || |buf| % 8 == 0)
      modifies this`buf, this`relocs
      ensures Valid() && slot == old(|buf|) && buf == old(buf) + LE(0, 8) && relocs == old(relocs) + [Reloc(slot, sym)]
      ensures Grown(inp, NoSite(inp), old(buf), buf, old(relocs), relocs)
    {
      slot := |buf|;
      ghost var was, had := buf, relocs;
      buf := buf + LE(0, 8);
      relocs := relocs + [Reloc(slot, sym)];
      NoSiteApart(inp);
      AllStays(inp, NoSite(inp), was, buf, had, relocs, trampFor, trampFor, dataOff, targets, strBufOff,
        singletonBufOff, placed);
    }

    /** Bytes at the next aligned position. */
    method PushAligned(bytes: seq<Byte>) returns (t: nat)
      requires Valid()
      modifies this`buf
      ensures Valid() && old(buf) <= buf && t % 8 == 0 && |buf| == t + |bytes| && Holds(inp, buf, relocs, t, bytes)
    {
      Pad8();
      t := |buf|;
      Append(bytes);
    }

    /** The code of a trampoline and its slot. */
    method EmitTrampoline(sym: nat) returns (t: nat)
      requires Valid()
      modifies this`buf, this`relocs
      ensures Valid() && IsTramp(inp, buf, relocs, t, sym) && old(buf) <= buf && old(relocs) <= relocs
    {
      hide Valid, LE, Grown, Holds;
      hide TrampBytes;
      var code := TrampBytes(inp.x64);
      assert |code| == (if inp.x64 then 9 else 8) by { TrampLength(inp.x64); }
      t := PushAligned(code);
      ghost var was, had := buf, relocs;
      var slot := NewSlot(sym);
      HoldsOn(inp, NoSite(inp), was, buf, had, relocs, t, code);
    }

    lemma TrampLength(x64: bool)
      ensures |TrampBytes(x64)| == if x64 then 9 else 8
    {
    }

    /** Every symbol has one trampoline. */
    method Trampoline(sym: nat) returns (t: nat)
      requires Valid()
      modifies this`buf, this`relocs, this`trampFor
      ensures Valid() && sym in trampFor && t == trampFor[sym] && old(buf) <= buf && old(relocs) <= relocs
      ensures forall s :: s in old(trampFor) ==> s in trampFor && trampFor[s] == old(trampFor)[s]
    {
      if sym in trampFor { return trampFor[sym]; }
      t := EmitTrampoline(sym);
      ghost var had := trampFor;
      trampFor := trampFor[sym := t];
      NoSiteApart(inp);
      hide IsTramp, Done, Holds, CachesOk, Untouched, SlotsOk, LE, Sound;
      AllStays(inp, NoSite(inp), buf, buf, relocs, relocs, had, trampFor, dataOff, targets, strBufOff, singletonBufOff,
        placed);
    }

    /** `w32` on the site of fixup i. */
    method W32(i: nat, w: Bits, ghost t: nat)
      requires Valid() && i < |inp.fixups| && i !in targets && !IsData(inp.fixups[i])
      requires Leads(inp, buf, relocs, trampFor, inp.fixups[i], t, w)
      modifies this`buf, this`targets
      ensures Valid() && targets == old(targets)[i := t] && |buf| == old(|buf|)
    {
      ghost var f, was := inp.fixups[i], buf;
      SiteInside(inp, i);
      buf := Put(buf, inp.fixups[i].off, w);
      PutGrows(inp, f, was, buf, relocs);
      PutDone(inp, was, buf, relocs, trampFor, dataOff, f, t, w);
      Finish(i, t, was);
    }

    /** Site i has been patched: what else was done still is, and i is done. */
    ghost method Finish(i: nat, t: nat, was: seq<Byte>)
      requires Sound(inp) && |inp.code| <= |was| == |buf| && SlotsOk(inp, was, relocs)
      requires TrampsOk(inp, was, relocs, trampFor)
      requires AllDone(inp, was, relocs, trampFor, dataOff, targets) && Untouched(inp, was, targets)
      requires CachesOk(inp, was, relocs, strBufOff, singletonBufOff, placed, dataOff)
      requires i < |inp.fixups| && i !in targets && Grown(inp, inp.fixups[i], was, buf, relocs, relocs)
      requires Done(inp, buf, relocs, trampFor, dataOff, inp.fixups[i], t)
      modifies this`targets
      ensures Valid() && targets == old(targets)[i := t]
    {
      OthersApart(inp, targets, i);
      hide Done, IsTramp, Holds, LE, Untouched, Sound, SlotsOk, CachesOk, Grown, Apart, AllDone, TrampsOk;
      AllStays(inp, inp.fixups[i], was, buf, relocs, relocs, trampFor, trampFor, dataOff, targets, strBufOff,
        singletonBufOff, placed);
      TouchedOnce(inp, was, buf, relocs, targets, i, t);
      SlotsStay(inp, was, buf, relocs);
      DoneToo(inp, buf, relocs, trampFor, dataOff, targets, i, t);
      targets := targets[i := t];
    }

    /** The two words of an address site. */
    method W32Pair(i: nat, w: Bits, v: Bits, ghost t: nat)
      requires Valid() && i < |inp.fixups| && i !in targets && inp.fixups[i].FAdrp?
      requires Addresses(inp, buf, relocs, dataOff, inp.fixups[i], t, w, v)
      modifies this`buf, this`targets
      ensures Valid() && targets == old(targets)[i := t] && |buf| == old(|buf|)
    {
      ghost var f, was := inp.fixups[i], buf;
      SiteInside(inp, i);
      var off := inp.fixups[i].off;
      buf := Put(buf, off, w);
      buf := Put(buf, off + 4, v);
      PutTwice(was, off, w, v);
      hide Put, WordAt, Grown, Addresses, Done, Sound, AllDone, TrampsOk, SlotsOk, Untouched, CachesOk, LE;
      PutGrows(inp, f, was, buf, relocs);
      PairDone(inp, was, buf, relocs, trampFor, dataOff, f, t, w, v);
      Finish(i, t, was);
    }

    /** A rip32 site: the displacement, and for a host variable the opcode. */
    method W32Rip(i: nat, t: nat)
      requires Valid() && i < |inp.fixups| && i !in targets && inp.fixups[i].FRip?
      requires RipLeads(inp, buf, relocs, dataOff, inp.fixups[i], t)
      modifies this`buf, this`targets
      ensures Valid() && targets == old(targets)[i := t] && |buf| == old(|buf|)
    {
      ghost var f, was := inp.fixups[i], buf;
      SiteInside(inp, i);
      var off := inp.fixups[i].off;
      OpcodeStands(i);
      RipPut(was, off, f.name in inp.hostData, Rel32(off, t));
      if inp.fixups[i].name in inp.hostData { buf := buf[off - 2 := MOV]; }
      buf := Put(buf, off, Rel32(off, t));
      hide Put, WordAt, Grown, RipLeads, Done, Sound, AllDone, TrampsOk, SlotsOk, Untouched, CachesOk, LE, Rel32;
      PutGrows(inp, f, was, buf, relocs);
      RipDone(inp, was, buf, relocs, trampFor, dataOff, f, t);
      Finish(i, t, was);
    }

    lemma RipPut(was: seq<Byte>, off: nat, host: bool, w: Bits)
      requires 3 <= off && off + 4 <= |was|
      ensures var now := Put(if host then was[off - 2 := MOV] else was, off, w);
        && |now| == |was| && WordAt(now, off, w) && now[off - 2] == (if host then MOV else was[off - 2])
        && now[off - 3] == was[off - 3] && now[off - 1] == was[off - 1]
        && forall p :: 0 <= p < |was| && !(off - 3 <= p < off + 4) ==> now[p] == was[p]
    {
      hide LE, WordAt;
    }

    /** Nothing has touched the opcode of a site not yet dealt with. */
    lemma OpcodeStands(i: nat)
      requires Valid() && i < |inp.fixups| && i !in targets && inp.fixups[i].FRip?
      ensures 3 <= inp.fixups[i].off <= |inp.code| <= |buf| && OpcodeIs(inp, buf, inp.fixups[i].off, false)
    {
      OthersApart(inp, targets, i);
      hide Done, Holds;
    }

    /** Calls of the host's symbols go through trampolines. */
    method PatchCalls() returns (ok: bool)
      requires Valid() && targets == map[] && !placed
      modifies this
      ensures Valid() && !placed
      ensures ok ==> forall j :: j in targets <==> 0 <= j < |inp.fixups| && IsCall(inp, inp.fixups[j])
      ensures ok ==> forall j :: 0 <= j < |inp.fixups| ==> !inp.fixups[j].FOther?
      ensures !ok ==> exists j :: 0 <= j < |inp.fixups| && !Resolvable(inp, inp.fixups[j])
    {
      hide Valid;
      var i := 0;
      while i < |inp.fixups|
        invariant i <= |inp.fixups| && Valid() && !placed
        invariant forall j :: j in targets <==> 0 <= j < i && IsCall(inp, inp.fixups[j])
        invariant forall j :: 0 <= j < i ==> !inp.fixups[j].FOther?
      {
        var fx := inp.fixups[i];
        if !IsData(fx) && !IsLocal(inp, fx) {
          if !IsCall(inp, fx) || fx.name !in inp.symIds { return false; }
          var t := Trampoline(inp.symIds[fx.name]);
          CallLeads(i, t);
          W32(i, if fx.FRel? then Rel32(fx.off, t) else BlWord(fx.off, t), t);
        }
        i := i + 1;
      }
      ok := true;
    }

    lemma CallLeads(i: nat, t: nat)
      requires Valid() && i < |inp.fixups| && IsCall(inp, inp.fixups[i]) && inp.fixups[i].name in inp.symIds
      requires inp.symIds[inp.fixups[i].name] in trampFor && t == trampFor[inp.symIds[inp.fixups[i].name]]
      ensures var f := inp.fixups[i];
        Leads(inp, buf, relocs, trampFor, f, t, if f.FRel? then Rel32(f.off, t) else BlWord(f.off, t))
    {
      hide IsTramp;
    }

    /** Branches inside the fragment. */
    method PatchBranches() returns (ok: bool)
      requires Valid() && !placed && forall j :: j in targets <==> 0 <= j < |inp.fixups| && IsCall(inp, inp.fixups[j])
      modifies this
      ensures Valid() && !placed
      ensures ok ==> forall j :: j in targets <==>
        0 <= j < |inp.fixups| && (IsCall(inp, inp.fixups[j]) || IsLocal(inp, inp.fixups[j]))
      ensures !ok ==> exists j :: 0 <= j < |inp.fixups| && !Resolvable(inp, inp.fixups[j])
    {
      hide Valid;
      var i := 0;
      while i < |inp.fixups|
        invariant i <= |inp.fixups| && Valid() && !placed
        invariant forall j :: j in targets <==>
          0 <= j < |inp.fixups| && (IsCall(inp, inp.fixups[j]) || (j < i && IsLocal(inp, inp.fixups[j])))
      {
        var fx := inp.fixups[i];
        if IsLocal(inp, fx) {
          if fx.name !in inp.labels { return false; }
          PatchBranch(i);
        }
        i := i + 1;
      }
      ok := true;
    }

    method PatchBranch(i: nat)
      requires Valid() && i < |inp.fixups| && i !in targets && IsLocal(inp, inp.fixups[i])
      requires inp.fixups[i].name in inp.labels
      modifies this`buf, this`targets
      ensures Valid() && targets == old(targets)[i := inp.labels[inp.fixups[i].name]]
    {
      var t := inp.labels[inp.fixups[i].name];
      match inp.fixups[i]
      case FRel(off, _) => W32(i, Rel32(off, t), t);
      case FB(off, _) => W32(i, BWord(off, t), t);
      case FBCond(off, _, cond) => W32(i, BCondWord(off, t, cond), t);
      case FCbz(off, _, nonzero) =>
        SiteInside(inp, i);
        StillAsAssembled(i);
        W32(i, CbzWord(off, t, nonzero, buf[off] % 32), t);
    }

    /** The register of a cbz is read from its placeholder, which nothing has touched. */
    lemma StillAsAssembled(i: nat)
      requires Valid() && i < |inp.fixups| && i !in targets && inp.fixups[i].off < |inp.code|
      ensures inp.fixups[i].off < |buf| && buf[inp.fixups[i].off] == inp.code[inp.fixups[i].off]
    {
      OthersApart(inp, targets, i);
      hide Done, Holds;
    }

    /** The constant data goes behind code and trampolines. */
    method PlaceData()
      requires Valid() && !placed && forall j :: j in targets ==> j < |inp.fixups| && !IsData(inp.fixups[j])
      modifies this
      ensures Valid() && placed && targets == old(targets)
    {
      hide Done;
      var at := PushAligned(inp.data);
      DataOffFree(inp, buf, relocs, trampFor, dataOff, at, targets);
      dataOff := at;
      placed := true;
    }

    method SingletonAt(l: string) returns (t: nat)
      requires Valid() && l in inp.singletons
      modifies this`buf, this`singletonBufOff
      ensures Valid() && Holds(inp, buf, relocs, t, SingletonBytes(inp, l))
    {
      if l in singletonBufOff { return singletonBufOff[l]; }
      t := PushAligned(SingletonBytes(inp, l));
      singletonBufOff := singletonBufOff[l := t];
    }

    method StringAt(l: string) returns (t: nat)
      requires Valid() && l in inp.strings
      modifies this`buf, this`strBufOff
      ensures Valid() && Holds(inp, buf, relocs, t, inp.strings[l] + [0])
    {
      if l in strBufOff { return strBufOff[l]; }
      t := |buf|;
      Append(inp.strings[l] + [0]);
      strBufOff := strBufOff[l := t];
    }

    /** The place in the buffer a label stands for, made if need be. */
    method AddressOf(l: string) returns (ok: bool, t: nat)
      requires Valid() && placed
      modifies this`buf, this`strBufOff, this`singletonBufOff
      ensures Valid() && (ok ==> Refers(inp, buf, relocs, dataOff, t, l))
      ensures ok <==> l in inp.dataLabels || l in inp.singletons || (if "_str_" <= l then l in inp.strings
        else l in inp.labels)
    {
      ok, t := true, 0;
      if l in inp.dataLabels {
        t := dataOff + inp.dataLabels[l];
      } else if l in inp.singletons {
        t := SingletonAt(l);
      } else if "_str_" <= l {
        if l !in inp.strings { return false, 0; }
        t := StringAt(l);
      } else if l in inp.labels {
        t := inp.labels[l];
      } else {
        ok := false;
      }
    }

    /** A host variable gets a slot at each reference, which the patched load reads its address from. */
    method PatchHost(i: nat)
      requires Valid() && i < |inp.fixups| && i !in targets && IsData(inp.fixups[i])
      requires inp.fixups[i].name in inp.hostData
      modifies this`buf, this`relocs, this`targets
      ensures Valid() && targets.Keys == old(targets).Keys + {i}
    {
      Pad8();
      var fx := inp.fixups[i];
      assert (fx.FAdrp? ==> fx.rd < 32) && fx.name in inp.symIds;
      hide Valid;
      var slot := NewSlot(inp.symIds[fx.name]);
      if fx.FRip? {
        W32Rip(i, slot);
      } else {
        W32Pair(i, LdrWord(fx.off, slot, fx.rd), NOP_WORD, slot);
      }
    }

    method PatchAddress(i: nat) returns (ok: bool)
      requires Valid() && placed && i < |inp.fixups| && i !in targets && IsData(inp.fixups[i])
      requires inp.fixups[i].name !in inp.hostData
      modifies this`buf, this`strBufOff, this`singletonBufOff, this`targets
      ensures Valid() && (ok ==> targets.Keys == old(targets).Keys + {i})
      ensures !ok ==> targets == old(targets) && !Resolvable(inp, inp.fixups[i])
    {
      var fx := inp.fixups[i];
      assert fx.FAdrp? ==> fx.rd < 32;
      hide Valid, Refers;
      var t;
      ok, t := AddressOf(fx.name);
      if ok {
        if fx.FRip? {
          W32Rip(i, t);
        } else {
          W32Pair(i, AdrpWord(fx.off, t, fx.rd), AddWord(t, fx.rd), t);
        }
      }
    }

    /** References to data, strings, code and the host's variables. */
    method PatchData() returns (ok: bool)
      requires Valid() && placed && forall j :: j in targets <==>
        0 <= j < |inp.fixups| && (IsCall(inp, inp.fixups[j]) || IsLocal(inp, inp.fixups[j]))
      modifies this
      ensures Valid()
      ensures ok ==> forall j :: j in targets <==> 0 <= j < |inp.fixups| && !inp.fixups[j].FOther?
      ensures !ok ==> exists j :: 0 <= j < |inp.fixups| && !Resolvable(inp, inp.fixups[j])
    {
      hide Valid;
      var i := 0;
      while i < |inp.fixups|
        invariant i <= |inp.fixups| && Valid() && placed
        invariant forall j :: j in targets <==>
          0 <= j < |inp.fixups|
            && (IsCall(inp, inp.fixups[j]) || IsLocal(inp, inp.fixups[j]) || (j < i && IsData(inp.fixups[j])))
      {
        var fx := inp.fixups[i];
        if IsData(fx) {
          if fx.name in inp.hostData {
            PatchHost(i);
          } else {
            ok := PatchAddress(i);
            if !ok { return; }
          }
        }
        i := i + 1;
      }
      ok := true;
    }

    /** The whole linking.  It fails if a label cannot be resolved or, on arm64, the fragment has grown beyond 256 KB,
        and otherwise every fixup has been dealt with. */
    method Link() returns (ok: bool)
      requires Valid() && targets == map[] && !placed
      modifies this
      ensures Valid()
      ensures ok ==> !TooLong(inp, buf) && forall j :: j in targets <==> 0 <= j < |inp.fixups|
      ensures !ok ==> TooLong(inp, buf) || exists j :: 0 <= j < |inp.fixups| && !Resolvable(inp, inp.fixups[j])
    {
      hide Valid;
      ok := PatchCalls();
      if !ok { return; }
      ok := PatchBranches();
      if !ok { return; }
      PlaceData();
      ok := PatchData();
      if !ok { return; }
      ok := !TooLong(inp, buf);
    }
  }

  predicate TooLong(inp: Input, buf: seq<Byte>) {
    !inp.x64 && |buf| > 0x4_0000
  }

  /** What the linker can resolve. */
  predicate Resolvable(inp: Input, f: Fixup) {
    if f.FOther? then false
    else if IsData(f) then
      f.name in inp.hostData || f.name in inp.dataLabels || f.name in inp.singletons
        || (if "_str_" <= f.name then f.name in inp.strings else f.name in inp.labels)
    else if IsCall(inp, f) then f.name in inp.symIds
    else f.name in inp.labels
  }

  lemma DoneIsResolvable(inp: Input, buf: seq<Byte>, relocs: seq<Reloc>, tramps: map<nat, nat>, dataOff: nat, f: Fixup,
      t: nat)
    requires Done(inp, buf, relocs, tramps, dataOff, f, t)
    ensures Resolvable(inp, f)
  {
    hide LE, WordAt, Holds, IsTramp, OpcodeIs;
  }

  lemma DataOffFree(inp: Input, buf: seq<Byte>, relocs: seq<Reloc>, tramps: map<nat, nat>, was: nat, now: nat,
      targets: map<nat, nat>)
    requires AllDone(inp, buf, relocs, tramps, was, targets) && forall j :: j in targets ==>
      j < |inp.fixups| && !IsData(inp.fixups[j])
    ensures AllDone(inp, buf, relocs, tramps, now, targets)
  {
    forall j | j in targets ensures Done(inp, buf, relocs, tramps, now, inp.fixups[j], targets[j]) {
      assert Done(inp, buf, relocs, tramps, was, inp.fixups[j], targets[j]);
    }
  }

  lemma OthersApart(inp: Input, targets: map<nat, nat>, i: nat)
    requires Sound(inp) && i < |inp.fixups| && i !in targets && forall j :: j in targets ==> j < |inp.fixups|
    ensures forall j :: j in targets ==> Apart(inp.fixups[i], inp.fixups[j])
  {
    forall j | j in targets ensures Apart(inp.fixups[i], inp.fixups[j]) {
      if j < i { assert Apart(inp.fixups[j], inp.fixups[i]); }
    }
  }

  lemma DoneToo(inp: Input, buf: seq<Byte>, relocs: seq<Reloc>, tramps: map<nat, nat>, dataOff: nat, targets: map<nat,
      nat>, i: nat, t: nat)
    requires AllDone(inp, buf, relocs, tramps, dataOff, targets) && i < |inp.fixups|
    requires Done(inp, buf, relocs, tramps, dataOff, inp.fixups[i], t)
    ensures AllDone(inp, buf, relocs, tramps, dataOff, targets[i := t])
  {
    hide Done;
  }

  lemma SlotsStay(inp: Input, was: seq<Byte>, buf: seq<Byte>, relocs: seq<Reloc>)
    requires SlotsOk(inp, was, relocs) && |was| == |buf|
    ensures SlotsOk(inp, buf, relocs)
  {
  }

  /** The two words lead an address site to t, which is where it should: a slot of the host's variable, or what is
      referred to. */
  predicate Addresses(inp: Input, buf: seq<Byte>, relocs: seq<Reloc>, dataOff: nat, f: Fixup, t: nat, w: Bits, v: Bits)
    requires f.FAdrp?
  {
    var FAdrp(off, l, rd) := f;
    rd < 32 &&
    if l in inp.hostData then
      l in inp.symIds && t % 8 == 0 && Reloc(t, inp.symIds[l]) in relocs && w == LdrWord(off, t, rd) && v == NOP_WORD
    else Refers(inp, buf, relocs, dataOff, t, l) && w == AdrpWord(off, t, rd) && v == AddWord(t, rd)
  }

  /** Where a rip32 should lead. */
  predicate RipLeads(inp: Input, buf: seq<Byte>, relocs: seq<Reloc>, dataOff: nat, f: Fixup, t: nat)
    requires f.FRip?
  {
    if f.name in inp.hostData then f.name in inp.symIds && Reloc(t, inp.symIds[f.name]) in relocs
    else Refers(inp, buf, relocs, dataOff, t, f.name)
  }

  lemma RipDone(inp: Input, buf: seq<Byte>, now: seq<Byte>, relocs: seq<Reloc>, tramps: map<nat, nat>, dataOff: nat,
      f: Fixup, t: nat)
    requires f.FRip? && Grown(inp, f, buf, now, relocs, relocs) && RipLeads(inp, buf, relocs, dataOff, f, t)
    requires 3 <= f.off <= |inp.code| <= |now| && WordAt(now, f.off, Rel32(f.off, t))
    requires OpcodeIs(inp, now, f.off, f.name in inp.hostData)
    ensures Done(inp, now, relocs, tramps, dataOff, f, t)
  {
    hide Grown, Holds, WordAt, LE, Rel32, Refers;
    if f.name !in inp.hostData { RefersOn(inp, f, buf, now, relocs, relocs, dataOff, t, f.name); }
  }

  lemma PairDone(inp: Input, buf: seq<Byte>, now: seq<Byte>, relocs: seq<Reloc>, tramps: map<nat, nat>, dataOff: nat,
      f: Fixup, t: nat, w: Bits, v: Bits)
    requires f.FAdrp? && Grown(inp, f, buf, now, relocs, relocs) && Addresses(inp, buf, relocs, dataOff, f, t, w, v)
    requires WordAt(now, f.off, w) && WordAt(now, f.off + 4, v)
    ensures Done(inp, now, relocs, tramps, dataOff, f, t)
  {
    hide Grown, Holds, WordAt, LE, LdrWord, AdrpWord, AddWord, Refers;
    if f.name !in inp.hostData { RefersOn(inp, f, buf, now, relocs, relocs, dataOff, t, f.name); }
  }

  lemma SiteInside(inp: Input, i: nat)
    requires Sound(inp) && i < |inp.fixups|
    ensures 0 <= Start(inp.fixups[i]) && End(inp.fixups[i]) <= |inp.code|
  {
  }

  lemma TouchedOnce(inp: Input, was: seq<Byte>, buf: seq<Byte>, relocs: seq<Reloc>, targets: map<nat, nat>, i: nat,
      t: nat)
    requires Untouched(inp, was, targets) && i < |inp.fixups| && Grown(inp, inp.fixups[i], was, buf, relocs, relocs)
    requires |buf| == |was|
    ensures Untouched(inp, buf, targets[i := t])
  {
    var more := targets[i := t];
    forall p | 0 <= p < |inp.code|
      ensures buf[p] == inp.code[p] || exists j :: j in more && j < |inp.fixups| && InSite(inp.fixups[j], p) {
      if InSite(inp.fixups[i], p) {
        assert i in more;
      } else if was[p] != inp.code[p] {
        var j :| j in targets && j < |inp.fixups| && InSite(inp.fixups[j], p);
        assert j in more;
      }
    }
  }

  /** w is the word that leads fixup f to t, which is where it should. */
  predicate Leads(inp: Input, buf: seq<Byte>, relocs: seq<Reloc>, tramps: map<nat, nat>, f: Fixup, t: nat, w: Bits) {
    match f
    case FBl(off, l) =>
      l in inp.symIds && inp.symIds[l] in tramps && t == tramps[inp.symIds[l]]
        && IsTramp(inp, buf, relocs, t, inp.symIds[l]) && w == BlWord(off, t)
    case FB(off, l) => l in inp.labels && t == inp.labels[l] && w == BWord(off, t)
    case FBCond(off, l, cond) => l in inp.labels && t == inp.labels[l] && w == BCondWord(off, t, cond)
    case FCbz(off, l, nonzero) =>
      l in inp.labels && t == inp.labels[l] && off < |inp.code| && w == CbzWord(off, t, nonzero, inp.code[off] % 32)
    case FRel(off, l) =>
      w == Rel32(off, t) && if IsLocal(inp, f) then t == inp.labels[l] else
        l in inp.symIds && inp.symIds[l] in tramps && t == tramps[inp.symIds[l]]
        && IsTramp(inp, buf, relocs, t, inp.symIds[l])
    case _ => false
  }

  lemma PutGrows(inp: Input, f: Fixup, buf: seq<Byte>, now: seq<Byte>, relocs: seq<Reloc>)
    requires |inp.code| <= |buf| == |now| && End(f) <= |inp.code|
    requires forall p :: 0 <= p < |buf| && !InSite(f, p) ==> now[p] == buf[p]
    ensures Grown(inp, f, buf, now, relocs, relocs)
  {
  }

  lemma PutDone(inp: Input, buf: seq<Byte>, now: seq<Byte>, relocs: seq<Reloc>, tramps: map<nat, nat>, dataOff: nat,
      f: Fixup, t: nat, w: Bits)
    requires Grown(inp, f, buf, now, relocs, relocs) && Leads(inp, buf, relocs, tramps, f, t, w)
    requires WordAt(now, f.off, w)
    ensures Done(inp, now, relocs, tramps, dataOff, f, t)
  {
    hide Grown, Holds, WordAt, LE, BlWord, BWord, BCondWord, CbzWord, Rel32, TrampBytes;
    if IsCall(inp, f) { HoldsOn(inp, f, buf, now, relocs, relocs, t, TrampBytes(inp.x64)); }
  }

  // ---------- the fragment where it runs ----------

  /** The runtime fills each slot with its symbol's address. */
  function Fill(buf: seq<Byte>, relocs: seq<Reloc>, addr: nat -> nat): (image: seq<Byte>)
    requires forall r :: 0 <= r < |relocs| ==> relocs[r].slot + 8 <= |buf|
    ensures |image| == |buf|
  {
    if relocs == [] then buf
    else
      var last := relocs[|relocs| - 1];
      var before := Fill(buf, relocs[..|relocs| - 1], addr);
      before[..last.slot] + LE(addr(last.sym), 8) + before[last.slot + 8..]
  }

  lemma {:induction false} FillKeeps(buf: seq<Byte>, relocs: seq<Reloc>, addr: nat -> nat, t: nat, n: nat)
    requires forall r :: 0 <= r < |relocs| ==> relocs[r].slot + 8 <= |buf|
    requires Clear(relocs, t, n) && t + n <= |buf|
    ensures Fill(buf, relocs, addr)[t..t + n] == buf[t..t + n]
    decreases |relocs|
  {
    hide LE;
    if relocs != [] {
      var k := |relocs| - 1;
      assert relocs[k].slot + 8 <= t || t + n <= relocs[k].slot;
      assert Clear(relocs[..k], t, n);
      FillKeeps(buf, relocs[..k], addr, t, n);
      Outside(Fill(buf, relocs[..k], addr), relocs[k].slot, LE(addr(relocs[k].sym), 8), t, n);
    }
  }

  lemma Outside(before: seq<Byte>, slot: nat, word: seq<Byte>, t: nat, n: nat)
    requires |word| == 8 && slot + 8 <= |before| && t + n <= |before| && (slot + 8 <= t || t + n <= slot)
    ensures (before[..slot] + word + before[slot + 8..])[t..t + n] == before[t..t + n]
  {
  }

  lemma {:induction false} FillFills(buf: seq<Byte>, relocs: seq<Reloc>, addr: nat -> nat, r: nat)
    requires forall i :: 0 <= i < |relocs| ==> relocs[i].slot + 8 <= |buf|
    requires forall i, j :: 0 <= i < j < |relocs| ==> relocs[i].slot + 8 <= relocs[j].slot
    requires r < |relocs|
    ensures Fill(buf, relocs, addr)[relocs[r].slot..relocs[r].slot + 8] == LE(addr(relocs[r].sym), 8)
    decreases |relocs|
  {
    hide LE;
    var k, s := |relocs| - 1, relocs[r].slot;
    var before, image := Fill(buf, relocs[..k], addr), Fill(buf, relocs, addr);
    assert image == before[..relocs[k].slot] + LE(addr(relocs[k].sym), 8) + before[relocs[k].slot + 8..];
    if r < k {
      FillFills(buf, relocs[..k], addr, r);
      assert image[s..s + 8] == before[s..s + 8];
    } else {
      assert image[s..s + 8] == LE(addr(relocs[k].sym), 8);
    }
  }

  function Load64(image: seq<Byte>, off: nat): nat
    requires off + 8 <= |image|
  {
    FromLE(image[off..off + 8])
  }

  /** What the site of f does when the image starts at `base`: where control goes, or what address the register gets. */
  predicate Means(inp: Input, image: seq<Byte>, base: int, addr: nat -> nat, dataOff: nat, f: Fixup, t: nat)
    requires End(f) <= |image|
  {
    var here := Decode(WordOf(image, f.off), base + f.off);
    match f
    case FBl(off, l) => l in inp.symIds && Calls(image, base, off, t, addr(inp.symIds[l]))
    case FB(off, l) => l in inp.labels && here == B(base + inp.labels[l])
    case FBCond(off, l, cond) => l in inp.labels && here == BCond(cond % 16, base + inp.labels[l])
    case FCbz(off, l, nonzero) => l in inp.labels && off < |inp.code|
      && here == Cbz(nonzero, inp.code[off] % 32, base + inp.labels[l])
    case FAdrp(off, l, rd) =>
      var next := Decode(WordOf(image, off + 4), base + off + 4);
      if l in inp.hostData then
        l in inp.symIds && t + 8 <= |image| && here == LdrLit(rd, base + t) && Load64(image, t) == addr(inp.symIds[l])
          && next == Nop
      else
        && here.Adrp? && here.rd == rd && next.AddImm? && next.rd == rd && next.rn == rd
        && here.page + next.imm == base + t
        && Points(inp, image, dataOff, t, l)
    case FRel(off, l) =>
      if l in inp.symIds then Leads64(image, base, off) == base + t && Jumps64(image, base, t, addr(inp.symIds[l]))
      else l in inp.labels && Leads64(image, base, off) == base + inp.labels[l]
    case FRip(off, l) =>
      var here := X64Code.Decode(image, if off < 3 then 0 else off - 3, base);
      X64Code.IsLea(inp.code, off) && here.next == off + 4 &&
      if l in inp.hostData then
        && here.insn == X64Code.Load(X64Code.LeaReg(inp.code, off), base + t)
        && l in inp.symIds && t + 8 <= |image| && Load64(image, t) == addr(inp.symIds[l])
      else here.insn == X64Code.Lea(X64Code.LeaReg(inp.code, off), base + t) && Points(inp, image, dataOff, t, l)
    case FOther(_, _) => false
  }

  /** Where the displacement at off leads, in an image at `base`. */
  function Leads64(image: seq<Byte>, base: int, off: nat): int
    requires off + 4 <= |image|
  {
    base + off + 4 + Sext(WordOf(image, off), 0x1_0000_0000)
  }

  /** The first instruction at t loads a register from the slot behind the second, which jumps through it. */
  predicate Jumps64(image: seq<Byte>, base: int, t: nat, to: int) {
    var first := X64Code.Decode(image, t, base);
    var second := X64Code.Decode(image, first.next, base);
    && t + 17 <= |image| && first.insn.Load? && first.insn.from == base + t + 9 && Load64(image, t + 9) == to
    && second == X64Code.Read(X64Code.Jump(first.insn.rd), t + 9)
  }

  /** At t is what label l stands for: its place in the constant data, the singleton, the string, or the code. */
  predicate Points(inp: Input, image: seq<Byte>, dataOff: nat, t: nat, l: string) {
    if l in inp.dataLabels then
      t == dataOff + inp.dataLabels[l] && dataOff + |inp.data| <= |image|
        && image[dataOff..dataOff + |inp.data|] == inp.data
    else if l in inp.singletons then t + 8 <= |image| && Load64(image, t) == inp.singletons[l]
    else if "_str_" <= l then
      l in inp.strings && t + |inp.strings[l]| < |image| && image[t..t + |inp.strings[l]|] == inp.strings[l]
        && image[t + |inp.strings[l]|] == 0
    else l in inp.labels && t == inp.labels[l]
  }

  /** A call at off reaches `to` by way of a trampoline at t. */
  predicate Calls(image: seq<Byte>, base: int, off: nat, t: nat, to: nat)
    requires off + 4 <= |image|
  {
    && t + 16 <= |image| && Decode(WordOf(image, off), base + off) == Bl(base + t)
    && Decode(WordOf(image, t), base + t) == LdrLit(16, base + t + 8) && Load64(image, t + 8) == to
    && Decode(WordOf(image, t + 4), base + t + 4) == Br(16)
  }

  lemma SiteReads(inp: Input, buf: seq<Byte>, relocs: seq<Reloc>, addr: nat -> nat, off: nat, w: Bits)
    requires SlotsOk(inp, buf, relocs) && off + 4 <= |inp.code| <= |buf| && WordAt(buf, off, w)
    ensures WordOf(Fill(buf, relocs, addr), off) == w
  {
    var image := Fill(buf, relocs, addr);
    assert Clear(relocs, off, 4);
    hide LE, Fill, WordOf;
    FillKeeps(buf, relocs, addr, off, 4);
    WordReads(image, off, w);
  }

  lemma SlotReads(inp: Input, buf: seq<Byte>, relocs: seq<Reloc>, addr: nat -> nat, slot: nat, sym: nat)
    requires SlotsOk(inp, buf, relocs) && Reloc(slot, sym) in relocs && addr(sym) < 0x1_0000_0000_0000_0000
    ensures slot + 8 <= |buf| && Load64(Fill(buf, relocs, addr), slot) == addr(sym)
  {
    SlotFilled(inp, buf, relocs, addr, slot, sym);
    PowEight();
    hide Fill, LE, FromLE, Pow256, SlotsOk;
    LEReads(addr(sym), 8, Pow256(8));
  }

  lemma SlotFilled(inp: Input, buf: seq<Byte>, relocs: seq<Reloc>, addr: nat -> nat, slot: nat, sym: nat)
    requires SlotsOk(inp, buf, relocs) && Reloc(slot, sym) in relocs
    ensures slot + 8 <= |buf| && Fill(buf, relocs, addr)[slot..slot + 8] == LE(addr(sym), 8)
  {
    hide Fill, LE;
    var r :| 0 <= r < |relocs| && relocs[r] == Reloc(slot, sym);
    FillFills(buf, relocs, addr, r);
  }

  lemma PowEight()
    ensures Pow256(8) == 0x1_0000_0000_0000_0000
  {
    assert Pow256(8) == 256 * Pow256(7) == 65536 * Pow256(6) == 16777216 * Pow256(5) == 0x1_0000_0000 * Pow256(4);
    assert Pow256(4) == 256 * Pow256(3) == 65536 * Pow256(2) == 16777216 * Pow256(1) == 0x1_0000_0000 * Pow256(0);
  }

  lemma HeldReads(inp: Input, buf: seq<Byte>, relocs: seq<Reloc>, addr: nat -> nat, t: nat, bytes: seq<Byte>)
    requires SlotsOk(inp, buf, relocs) && Holds(inp, buf, relocs, t, bytes)
    ensures Holds(inp, Fill(buf, relocs, addr), [], t, bytes)
  {
    hide Fill;
    FillKeeps(buf, relocs, addr, t, |bytes|);
  }

  lemma TrampCode(inp: Input, buf: seq<Byte>, relocs: seq<Reloc>, addr: nat -> nat, t: nat, sym: nat)
    requires SlotsOk(inp, buf, relocs) && IsTramp(inp, buf, relocs, t, sym) && !inp.x64
    ensures t + 8 <= |buf| && WordOf(Fill(buf, relocs, addr), t) == LDR_X16
    ensures WordOf(Fill(buf, relocs, addr), t + 4) == BR_X16
  {
    var image := Fill(buf, relocs, addr);
    assert Holds(inp, buf, relocs, t, LE(LDR_X16, 4) + LE(BR_X16, 4));
    hide LE, Fill, WordOf, SlotsOk, IsTramp, TrampBytes;
    HeldReads(inp, buf, relocs, addr, t, LE(LDR_X16, 4) + LE(BR_X16, 4));
    Halves(image, t, LE(LDR_X16, 4), LE(BR_X16, 4));
    WordReads(image, t, LDR_X16);
    WordReads(image, t + 4, BR_X16);
  }

  lemma TrampRuns(inp: Input, buf: seq<Byte>, relocs: seq<Reloc>, addr: nat -> nat, t: nat, sym: nat, base: int)
    requires SlotsOk(inp, buf, relocs) && IsTramp(inp, buf, relocs, t, sym) && addr(sym) < 0x1_0000_0000_0000_0000
    requires !inp.x64
    ensures var image := Fill(buf, relocs, addr);
      && t + 16 <= |image| && Decode(WordOf(image, t), base + t) == LdrLit(16, base + t + 8)
      && Load64(image, t + 8) == addr(sym)
      && Decode(WordOf(image, t + 4), base + t + 4) == Br(16)
  {
    hide LE, Decode, WordOf, Load64, Holds, TrampBytes, FromLE;
    TrampCode(inp, buf, relocs, addr, t, sym);
    SlotReads(inp, buf, relocs, addr, t + 8, sym);
    TrampReads(base + t);
    hide Fill, SlotsOk, IsTramp;
  }

  lemma Tramp64Runs(inp: Input, buf: seq<Byte>, relocs: seq<Reloc>, addr: nat -> nat, t: nat, sym: nat, base: int)
    requires SlotsOk(inp, buf, relocs) && IsTramp(inp, buf, relocs, t, sym) && addr(sym) < 0x1_0000_0000_0000_0000
    requires inp.x64
    ensures Jumps64(Fill(buf, relocs, addr), base, t, addr(sym))
  {
    var image := Fill(buf, relocs, addr);
    hide LE, Load64, FromLE, Fill, SlotsOk;
    Tramp64Is(inp, buf, relocs, t, sym);
    FillFits(inp, buf, relocs, addr);
    Tramp64Code(inp, buf, relocs, addr, t);
    SlotReads(inp, buf, relocs, addr, t + 9, sym);
    JumpDecodes(image, t, base);
  }

  lemma JumpDecodes(image: seq<Byte>, t: nat, base: int)
    requires t + 9 <= |image| && image[t..t + 9] == JUMP_RAX
    ensures X64Code.Decode(image, t, base) == X64Code.Read(X64Code.Load(0, base + t + 9), t + 7)
    ensures X64Code.Decode(image, t + 7, base) == X64Code.Read(X64Code.Jump(0), t + 9)
  {
    var nine := image[t..t + 9];
    assert nine[0] == image[t] && nine[1] == image[t + 1] && nine[2] == image[t + 2] && nine[3] == image[t + 3];
    assert nine[4] == image[t + 4] && nine[5] == image[t + 5] && nine[6] == image[t + 6] && nine[7] == image[t + 7];
    assert image[t] == 0x48 && image[t + 1] == 0x8b && image[t + 2] == 5 && image[t + 3] == 2 && image[t + 4] == 0;
    assert image[t + 5] == 0 && image[t + 6] == 0 && image[t + 7] == 0xff && image[t + 8] == 0xe0;
  }

  lemma Tramp64Is(inp: Input, buf: seq<Byte>, relocs: seq<Reloc>, t: nat, sym: nat)
    requires IsTramp(inp, buf, relocs, t, sym) && inp.x64
    ensures Holds(inp, buf, relocs, t, JUMP_RAX) && Reloc(t + 9, sym) in relocs
  {
    hide Holds, LE;
  }

  lemma FillFits(inp: Input, buf: seq<Byte>, relocs: seq<Reloc>, addr: nat -> nat)
    requires SlotsOk(inp, buf, relocs)
    ensures |Fill(buf, relocs, addr)| == |buf|
  {
    hide Fill, LE;
  }

  lemma Tramp64Code(inp: Input, buf: seq<Byte>, relocs: seq<Reloc>, addr: nat -> nat, t: nat)
    requires SlotsOk(inp, buf, relocs) && Holds(inp, buf, relocs, t, JUMP_RAX)
    ensures t + 9 <= |buf| && Fill(buf, relocs, addr)[t..t + 9] == JUMP_RAX
  {
    hide LE, Fill, SlotsOk;
    var code := JUMP_RAX;
    HeldReads(inp, buf, relocs, addr, t, code);
  }

  /** A displacement leads to the place it was computed from, as long as both are less than 2 GB apart. */
  lemma Rel32Reads(image: seq<Byte>, base: int, off: nat, t: nat)
    requires off + 4 <= |image| && WordOf(image, off) == Rel32(off, t)
    requires off + 4 <= 0x8000_0000 && t < 0x8000_0000
    ensures Leads64(image, base, off) == base + t
  {
    hide WordOf;
  }

  lemma ByteReads(inp: Input, buf: seq<Byte>, relocs: seq<Reloc>, addr: nat -> nat, p: nat)
    requires SlotsOk(inp, buf, relocs) && p < |inp.code| <= |buf|
    ensures Fill(buf, relocs, addr)[p] == buf[p]
  {
    hide Fill;
    FillKeeps(buf, relocs, addr, p, 1);
    assert Fill(buf, relocs, addr)[p] == Fill(buf, relocs, addr)[p..p + 1][0];
  }

  lemma Halves(image: seq<Byte>, t: nat, a: seq<Byte>, b: seq<Byte>)
    requires |a| == |b| == 4 && t + 8 <= |image| && image[t..t + 8] == a + b
    ensures image[t..t + 4] == a && image[t + 4..t + 8] == b
  {
    assert image[t..t + 8][..4] == a && image[t..t + 8][4..] == b;
  }

  lemma CallMeans(inp: Input, buf: seq<Byte>, relocs: seq<Reloc>, tramps: map<nat, nat>, dataOff: nat, f: Fixup,
      t: nat, addr: nat -> nat, base: int)
    requires f.FBl?
    requires SlotsOk(inp, buf, relocs) && 0 <= Start(f) && End(f) <= |inp.code| <= |buf| && !inp.x64
    requires f.off % 4 == 0 && |buf| <= 0x4_0000
    requires Done(inp, buf, relocs, tramps, dataOff, f, t) && base % 4096 == 0
    requires forall l :: l in inp.labels ==> inp.labels[l] <= |inp.code| && inp.labels[l] % 4 == 0
    requires forall s :: addr(s) < 0x1_0000_0000_0000_0000
    ensures Means(inp, Fill(buf, relocs, addr), base, addr, dataOff, f, t)
  {
    hide LE, Decode, BlWord, Fill, WordOf, Holds, Load64, TrampBytes;
    SiteReads(inp, buf, relocs, addr, f.off, BlWord(f.off, t));
    BlReads(f.off, t, base);
    TrampRuns(inp, buf, relocs, addr, t, inp.symIds[f.name], base);
  }

  lemma BranchMeans(inp: Input, buf: seq<Byte>, relocs: seq<Reloc>, tramps: map<nat, nat>, dataOff: nat, f: Fixup,
      t: nat, addr: nat -> nat, base: int)
    requires f.FB? || f.FBCond? || f.FCbz?
    requires SlotsOk(inp, buf, relocs) && 0 <= Start(f) && End(f) <= |inp.code| <= |buf| && !inp.x64
    requires f.off % 4 == 0 && |buf| <= 0x4_0000
    requires Done(inp, buf, relocs, tramps, dataOff, f, t) && base % 4096 == 0
    requires forall l :: l in inp.labels ==> inp.labels[l] <= |inp.code| && inp.labels[l] % 4 == 0
    requires forall s :: addr(s) < 0x1_0000_0000_0000_0000
    ensures Means(inp, Fill(buf, relocs, addr), base, addr, dataOff, f, t)
  {
    hide LE, Decode, BWord, BCondWord, CbzWord, Fill, WordOf, Holds, Load64;
    match f
    case FB(off, l) =>
      SiteReads(inp, buf, relocs, addr, off, BWord(off, t));
      BReads(off, t, base);
    case FBCond(off, l, cond) =>
      SiteReads(inp, buf, relocs, addr, off, BCondWord(off, t, cond));
      BCondReads(off, t, cond, base);
    case FCbz(off, l, nonzero) =>
      SiteReads(inp, buf, relocs, addr, off, CbzWord(off, t, nonzero, inp.code[off] % 32));
      CbzReads(off, t, nonzero, inp.code[off] % 32, base);
  }

  lemma RelMeans(inp: Input, buf: seq<Byte>, relocs: seq<Reloc>, tramps: map<nat, nat>, dataOff: nat, f: Fixup,
      t: nat, addr: nat -> nat, base: int)
    requires f.FRel? && inp.x64
    requires SlotsOk(inp, buf, relocs) && 0 <= Start(f) && End(f) <= |inp.code| <= |buf| < 0x8000_0000
    requires Done(inp, buf, relocs, tramps, dataOff, f, t)
    requires forall l :: l in inp.labels ==> inp.labels[l] <= |inp.code|
    requires forall l :: l in inp.dataLabels ==> inp.dataLabels[l] <= |inp.data|
    requires forall s :: addr(s) < 0x1_0000_0000_0000_0000
    ensures Means(inp, Fill(buf, relocs, addr), base, addr, dataOff, f, t)
  {
    hide LE, Decode, Rel32, Leads64, Jumps64, Fill, WordOf, Holds, Load64;
    SiteReads(inp, buf, relocs, addr, f.off, Rel32(f.off, t));
    if !IsLocal(inp, f) { Tramp64Runs(inp, buf, relocs, addr, t, inp.symIds[f.name], base); }
    TargetInside(inp, buf, relocs, tramps, dataOff, f, t);
    Rel32Reads(Fill(buf, relocs, addr), base, f.off, t);
  }

  /** Wherever the image is put on a page boundary, the site of a fixup that has been dealt with does what it is for. */
  lemma SiteMeans(inp: Input, buf: seq<Byte>, relocs: seq<Reloc>, tramps: map<nat, nat>, dataOff: nat, f: Fixup,
      t: nat, addr: nat -> nat, base: int)
    requires SlotsOk(inp, buf, relocs) && 0 <= Start(f) && End(f) <= |inp.code| <= |buf| && Suits(inp.x64, f)
    requires if inp.x64 then |buf| < 0x8000_0000 else f.off % 4 == 0 && |buf| <= 0x4_0000
    requires Done(inp, buf, relocs, tramps, dataOff, f, t) && base % 4096 == 0
    requires forall l :: l in inp.labels ==> inp.labels[l] <= |inp.code| && (!inp.x64 ==> inp.labels[l] % 4 == 0)
    requires forall l :: l in inp.dataLabels ==> inp.dataLabels[l] <= |inp.data|
    requires forall l :: l in inp.singletons ==> 0 <= inp.singletons[l] < TWO64
    requires f.FRip? ==> X64Code.IsLea(inp.code, f.off)
    requires forall s :: addr(s) < 0x1_0000_0000_0000_0000
    ensures Means(inp, Fill(buf, relocs, addr), base, addr, dataOff, f, t)
  {
    hide LE, Means, Done, Fill, SlotsOk, Refers;
    if inp.x64 {
      if f.FRel? { RelMeans(inp, buf, relocs, tramps, dataOff, f, t, addr, base); }
      if f.FRip? { RipMeans(inp, buf, relocs, tramps, dataOff, f, t, addr, base); }
      if f.FOther? { NeverDone(inp, buf, relocs, tramps, dataOff, f, t); }
    } else {
      if f.FBl? { CallMeans(inp, buf, relocs, tramps, dataOff, f, t, addr, base); }
      if IsLocal(inp, f) { BranchMeans(inp, buf, relocs, tramps, dataOff, f, t, addr, base); }
      if f.FAdrp? { AddressMeans(inp, buf, relocs, tramps, dataOff, f, t, addr, base); }
      if f.FOther? { NeverDone(inp, buf, relocs, tramps, dataOff, f, t); }
    }
  }

  lemma NeverDone(inp: Input, buf: seq<Byte>, relocs: seq<Reloc>, tramps: map<nat, nat>, dataOff: nat, f: Fixup, t: nat)
    requires f.FOther?
    ensures !Done(inp, buf, relocs, tramps, dataOff, f, t)
  {
  }

  /** What a fixup leads to is in the buffer. */
  lemma TargetInside(inp: Input, buf: seq<Byte>, relocs: seq<Reloc>, tramps: map<nat, nat>, dataOff: nat, f: Fixup,
      t: nat)
    requires SlotsOk(inp, buf, relocs) && |inp.code| <= |buf| && (f.FRel? || f.FRip? || f.FAdrp?)
    requires Done(inp, buf, relocs, tramps, dataOff, f, t)
    requires forall l :: l in inp.labels ==> inp.labels[l] <= |inp.code|
    requires forall l :: l in inp.dataLabels ==> inp.dataLabels[l] <= |inp.data|
    ensures t <= |buf|
  {
    hide LE, Rel32, WordAt;
  }

  lemma RipMeans(inp: Input, buf: seq<Byte>, relocs: seq<Reloc>, tramps: map<nat, nat>, dataOff: nat, f: Fixup, t: nat,
      addr: nat -> nat, base: int)
    requires SlotsOk(inp, buf, relocs) && f.FRip? && 0 <= Start(f) && End(f) <= |inp.code| <= |buf| < 0x8000_0000
    requires Done(inp, buf, relocs, tramps, dataOff, f, t)
    requires forall l :: l in inp.labels ==> inp.labels[l] <= |inp.code|
    requires forall l :: l in inp.dataLabels ==> inp.dataLabels[l] <= |inp.data|
    requires forall l :: l in inp.singletons ==> 0 <= inp.singletons[l] < TWO64
    requires f.FRip? ==> X64Code.IsLea(inp.code, f.off)
    requires forall s :: addr(s) < 0x1_0000_0000_0000_0000
    ensures Means(inp, Fill(buf, relocs, addr), base, addr, dataOff, f, t)
  {
    hide LE, Decode, Rel32, Fill, WordOf, Load64, Refers, Points;
    var FRip(off, l) := f;
    var image := Fill(buf, relocs, addr);
    SiteReads(inp, buf, relocs, addr, off, Rel32(off, t));
    ByteReads(inp, buf, relocs, addr, off - 3);
    ByteReads(inp, buf, relocs, addr, off - 2);
    ByteReads(inp, buf, relocs, addr, off - 1);
    TargetInside(inp, buf, relocs, tramps, dataOff, f, t);
    Rel32Reads(image, base, off, t);
    X64Code.SiteDecodes(image, off, base, inp.code);
    if l in inp.hostData {
      SlotReads(inp, buf, relocs, addr, t, inp.symIds[l]);
    } else {
      ReferredPoints(inp, buf, relocs, addr, dataOff, t, l);
    }
  }

  /** What a reference leads to in the buffer is in the image. */
  lemma ReferredPoints(inp: Input, buf: seq<Byte>, relocs: seq<Reloc>, addr: nat -> nat, dataOff: nat, t: nat,
      l: string)
    requires SlotsOk(inp, buf, relocs) && Refers(inp, buf, relocs, dataOff, t, l)
    requires forall l :: l in inp.singletons ==> 0 <= inp.singletons[l] < TWO64
    ensures Points(inp, Fill(buf, relocs, addr), dataOff, t, l)
  {
    var image := Fill(buf, relocs, addr);
    hide Fill, LE, FromLE, SlotsOk;
    if l in inp.dataLabels {
      HeldReads(inp, buf, relocs, addr, dataOff, inp.data);
    } else if l in inp.singletons {
      HeldReads(inp, buf, relocs, addr, t, SingletonBytes(inp, l));
      PowEight();
      LEReads(inp.singletons[l], 8, Pow256(8));
    } else if "_str_" <= l {
      var s := inp.strings[l];
      HeldReads(inp, buf, relocs, addr, t, s + [0]);
      assert image[t..t + |s|] == image[t..t + |s| + 1][..|s|];
      assert image[t + |s|] == image[t..t + |s| + 1][|s|];
    }
  }

  lemma AddressMeans(inp: Input, buf: seq<Byte>, relocs: seq<Reloc>, tramps: map<nat, nat>, dataOff: nat, f: Fixup,
      t: nat, addr: nat -> nat, base: int)
    requires !inp.x64 && SlotsOk(inp, buf, relocs) && f.FAdrp? && f.off % 4 == 0
    requires f.off + 8 <= |inp.code| <= |buf| <= 0x4_0000
    requires Done(inp, buf, relocs, tramps, dataOff, f, t) && base % 4096 == 0
    requires forall l :: l in inp.labels ==> inp.labels[l] <= |inp.code| && inp.labels[l] % 4 == 0
    requires forall l :: l in inp.dataLabels ==> inp.dataLabels[l] <= |inp.data|
    requires forall l :: l in inp.singletons ==> 0 <= inp.singletons[l] < TWO64
    requires forall s :: addr(s) < 0x1_0000_0000_0000_0000
    ensures Means(inp, Fill(buf, relocs, addr), base, addr, dataOff, f, t)
  {
    hide LE, Decode, LdrWord, AdrpWord, AddWord, Fill, WordOf, SlotsOk, Points, Load64;
    var FAdrp(off, l, rd) := f;
    TargetInside(inp, buf, relocs, tramps, dataOff, f, t);
    hide Refers, Holds, WordAt;
    if l in inp.hostData {
      SlotReads(inp, buf, relocs, addr, t, inp.symIds[l]);
      SiteReads(inp, buf, relocs, addr, off, LdrWord(off, t, rd));
      SiteReads(inp, buf, relocs, addr, off + 4, NOP_WORD);
      LdrReads(off, t, rd, base);
      NopReads(base + off + 4);
    } else {
      SiteReads(inp, buf, relocs, addr, off, AdrpWord(off, t, rd));
      SiteReads(inp, buf, relocs, addr, off + 4, AddWord(t, rd));
      PageReads(off, t, rd, base);
      ReferredPoints(inp, buf, relocs, addr, dataOff, t, l);
    }
  }

  /** At every page-aligned base and for all addresses of the host's symbols. */
  ghost predicate MeansAnywhere(inp: Input, buf: seq<Byte>, relocs: seq<Reloc>, dataOff: nat, f: Fixup, t: nat) {
    && End(f) <= |buf| && (forall r :: 0 <= r < |relocs| ==> relocs[r].slot + 8 <= |buf|)
    && forall addr: nat -> nat, base: int :: base % 4096 == 0 && (forall s :: addr(s) < 0x1_0000_0000_0000_0000) ==>
         Means(inp, Fill(buf, relocs, addr), base, addr, dataOff, f, t)
  }

  lemma SiteMeansAnywhere(inp: Input, buf: seq<Byte>, relocs: seq<Reloc>, tramps: map<nat, nat>, dataOff: nat, i: nat,
      t: nat)
    requires Sound(inp) && SlotsOk(inp, buf, relocs) && |inp.code| <= |buf| < 0x8000_0000 && i < |inp.fixups|
    requires !TooLong(inp, buf)
    requires Done(inp, buf, relocs, tramps, dataOff, inp.fixups[i], t)
    ensures MeansAnywhere(inp, buf, relocs, dataOff, inp.fixups[i], t)
  {
    hide Means, Done, Fill;
    var f := inp.fixups[i];
    assert 0 <= Start(f) && End(f) <= |inp.code| && Suits(inp.x64, f) && (!inp.x64 ==> f.off % 4 == 0);
    forall addr: nat -> nat, base: int | base % 4096 == 0 && forall s :: addr(s) < 0x1_0000_0000_0000_0000
      ensures Means(inp, Fill(buf, relocs, addr), base, addr, dataOff, f, t) {
      SiteMeans(inp, buf, relocs, tramps, dataOff, f, t, addr, base);
    }
  }

  /** A fragment that has been linked runs the same at every page-aligned base: each call reaches its symbol, each
      branch its label, each reference its data, and each host variable is read at the host's address; all other code is
      as compiled. */
  method LinkFragment(inp: Input)
      returns (ok: bool, buf: seq<Byte>, relocs: seq<Reloc>, ghost targets: map<nat, nat>, ghost dataOff: nat)
    requires Sound(inp)
    ensures !ok ==>
      (!inp.x64 && |buf| > 262_144) || exists j :: 0 <= j < |inp.fixups| && !Resolvable(inp, inp.fixups[j])
    ensures ok ==> (inp.x64 || |buf| <= 262_144) && forall j :: 0 <= j < |inp.fixups| ==> Resolvable(inp, inp.fixups[j])
    ensures ok ==> SlotsOk(inp, buf, relocs) && Untouched(inp, buf, targets)
    ensures ok && |buf| < 0x8000_0000 ==> forall i :: 0 <= i < |inp.fixups| ==>
      i in targets && MeansAnywhere(inp, buf, relocs, dataOff, inp.fixups[i], targets[i])
  {
    var c := new Linker(inp);
    ok := c.Link();
    buf, relocs, dataOff, targets := c.buf, c.relocs, c.dataOff, c.targets;
    if ok {
      forall i | 0 <= i < |inp.fixups| ensures Resolvable(inp, inp.fixups[i]) {
        DoneIsResolvable(inp, buf, relocs, c.trampFor, dataOff, inp.fixups[i], targets[i]);
      }
    }
    if ok && |buf| < 0x8000_0000 {
      forall i | 0 <= i < |inp.fixups| ensures i in targets
        && MeansAnywhere(inp, buf, relocs, dataOff, inp.fixups[i], targets[i]) {
        SiteMeansAnywhere(inp, buf, relocs, c.trampFor, dataOff, i, targets[i]);
      }
    }
  }

  /** One trampoline for each symbol: calls of the same symbol lead to the same place. */
  lemma OneTrampoline(inp: Input, buf: seq<Byte>, relocs: seq<Reloc>, tramps: map<nat, nat>, dataOff: nat, f: Fixup,
      t: nat, g: Fixup, u: nat)
    requires IsCall(inp, f) && IsCall(inp, g) && Done(inp, buf, relocs, tramps, dataOff, f, t)
    requires Done(inp, buf, relocs, tramps, dataOff, g, u)
    requires SlotsOk(inp, buf, relocs)
    ensures t == u <==> inp.symIds[f.name] == inp.symIds[g.name]
  {
    hide LE, BlWord, Rel32;
  }
}
