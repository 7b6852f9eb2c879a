/** The recording virtual machine: function bodies are buffered, analysed once, and replayed (vm/index.js). */
module Recorder {
  import opened Basics
  import opened VRegs
  import opened Machine
  import opened Plans
  import opened Compaction

  const REC_CAP := 256

  /** A frame slot seen in the record: how often, and between which positions. */
  datatype Slot = Slot(off: int, count: int, first: int, last: int)
  datatype Edge = Edge(target: int, jump: int)

  // ---------- what the scan looks for ----------

  /** The op touches SP, takes the frame address, or reaches outside the local area: no analysis is attempted. */
  predicate Bails(op: Op) {
    match op
    case Load(_, base, off) => (base == FP && off > -48) || base == SP
    case Store(base, off, _) => (base == FP && off > -48) || base == SP
    case _ => Mentions(op, SP) || Mentions(op, FP)
  }

  predicate TouchesFrame(op: Op) {
    (op.Load? || op.Store?) && op.base == FP
  }

  /** Accesses to `off` among the first n ops. */
  function Uses(ops: seq<Op>, n: int, off: int): nat
    requires 0 <= n <= |ops|
    decreases n
  {
    if n == 0 then 0 else Uses(ops, n - 1, off) + (if Accesses(ops[n - 1], off) then 1 else 0)
  }

  predicate UniqueLabels(ops: seq<Op>) {
    forall i, j :: 0 <= i < j < |ops| && ops[i].Label? ==> ops[i] != ops[j]
  }

  /** The slot describes the accesses to its offset among the first n ops exactly. */
  predicate SlotExact(ops: seq<Op>, n: int, s: Slot)
    requires 0 <= n <= |ops|
  {
    && 0 <= s.first <= s.last < n
    && Accesses(ops[s.first], s.off) && Accesses(ops[s.last], s.off)
    && (forall i {:trigger Accesses(ops[i], s.off)} :: 0 <= i < n && Accesses(ops[i], s.off) ==> s.first <= i <= s.last)
    && s.count == Uses(ops, n, s.off)
  }

  predicate Covered(slots: seq<Slot>, off: int) {
    exists k :: 0 <= k < |slots| && slots[k].off == off
  }

  predicate SlotsExact(ops: seq<Op>, n: int, slots: seq<Slot>)
    requires 0 <= n <= |ops|
  {
    && (forall k :: 0 <= k < |slots| ==> SlotExact(ops, n, slots[k]))
    && (forall k, m :: 0 <= k < m < |slots| ==> slots[k].off != slots[m].off)
    && (forall i {:trigger TouchesFrame(ops[i])} :: 0 <= i < n && TouchesFrame(ops[i]) ==> Covered(slots, ops[i].off))
  }

  /** The last label of that name among the first n ops. */
  predicate Latest(ops: seq<Op>, n: int, name: string, t: int)
    requires 0 <= n <= |ops|
  {
    0 <= t < n && ops[t] == Label(name) && forall i :: t < i < n ==> ops[i] != Label(name)
  }

  /** One edge, in order, for every jump among the first n ops to a label already seen: to the latest one of
      that name. */
  ghost predicate EdgesExact(ops: seq<Op>, n: int, edges: seq<Edge>)
    requires 0 <= n <= |ops|
  {
    && (forall e :: 0 <= e < |edges| ==>
          0 <= edges[e].jump < n && ops[edges[e].jump].Jump?
          && Latest(ops, edges[e].jump, ops[edges[e].jump].target, edges[e].target))
    && (forall e, f :: 0 <= e < f < |edges| ==> edges[e].jump < edges[f].jump)
    && (forall t, j :: BackEdge(ops, t, j) && j < n ==> exists e :: 0 <= e < |edges| && edges[e].jump == j)
  }

  /** Adds one access at position i. */
  method CountAccess(ops: seq<Op>, i: nat, slots: seq<Slot>) returns (out: seq<Slot>)
    requires i < |ops| && TouchesFrame(ops[i]) && SlotsExact(ops, i, slots)
    ensures SlotsExact(ops, i + 1, out)
  {
    var off := ops[i].off;
    var found := 0;
    while found < |slots| && slots[found].off != off
      invariant 0 <= found <= |slots|
      invariant forall k :: 0 <= k < found ==> slots[k].off != off
    {
      found := found + 1;
    }
    if found == |slots| {
      NoUse(ops, i, off, slots);
      out := slots + [Slot(off, 1, i, i)];
    } else {
      out := slots[found := slots[found].(count := slots[found].count + 1, last := i)];
    }
    AccessCounted(ops, i, slots, found, out);
  }

  lemma AccessCounted(ops: seq<Op>, i: nat, slots: seq<Slot>, found: nat, out: seq<Slot>)
    requires i < |ops| && TouchesFrame(ops[i]) && SlotsExact(ops, i, slots) && found <= |slots|
    requires forall k :: 0 <= k < found ==> slots[k].off != ops[i].off
    requires found < |slots| ==> slots[found].off == ops[i].off
    requires found == |slots| ==> Uses(ops, i, ops[i].off) == 0 && !Covered(slots, ops[i].off)
    requires out == if found == |slots| then slots + [Slot(ops[i].off, 1, i, i)]
                    else slots[found := slots[found].(count := slots[found].count + 1, last := i)]
    ensures SlotsExact(ops, i + 1, out)
  {
    hide SlotExact;
    forall k | 0 <= k < |out|
      ensures SlotExact(ops, i + 1, out[k])
    {
      if k == |slots| {
        FreshSlot(ops, i, slots);
      } else if k == found {
        BumpSlot(ops, i, slots[k]);
      } else {
        SlotGrows(ops, i, slots[k]);
      }
    }
    CoverGrows(ops, i, slots, out, found);
  }

  lemma CoverGrows(ops: seq<Op>, i: nat, slots: seq<Slot>, out: seq<Slot>, found: nat)
    requires i < |ops| && found < |out| && |slots| <= |out| && (ops[i].Load? || ops[i].Store?)
    requires forall m {:trigger TouchesFrame(ops[m])} :: 0 <= m < i && TouchesFrame(ops[m]) ==>
      Covered(slots, ops[m].off)
    requires out[found].off == ops[i].off && forall k :: 0 <= k < |slots| ==> out[k].off == slots[k].off
    ensures forall m {:trigger TouchesFrame(ops[m])} :: 0 <= m < i + 1 && TouchesFrame(ops[m]) ==>
      Covered(out, ops[m].off)
  {
    forall m | 0 <= m < i + 1 && TouchesFrame(ops[m])
      ensures Covered(out, ops[m].off)
    {
      if m < i {
        var k :| 0 <= k < |slots| && slots[k].off == ops[m].off;
        assert out[k].off == ops[m].off;
      }
    }
  }

  lemma BumpSlot(ops: seq<Op>, i: nat, s: Slot)
    requires i < |ops| && Accesses(ops[i], s.off) && SlotExact(ops, i, s)
    ensures SlotExact(ops, i + 1, s.(count := s.count + 1, last := i))
  {
  }

  lemma FreshSlot(ops: seq<Op>, i: nat, slots: seq<Slot>)
    requires i < |ops| && TouchesFrame(ops[i]) && SlotsExact(ops, i, slots)
    requires Uses(ops, i, ops[i].off) == 0 && !Covered(slots, ops[i].off)
    ensures SlotExact(ops, i + 1, Slot(ops[i].off, 1, i, i))
  {
    forall m | 0 <= m < i
      ensures !Accesses(ops[m], ops[i].off)
    {
      assert TouchesFrame(ops[m]) || !Accesses(ops[m], ops[i].off);
    }
  }

  lemma SlotGrows(ops: seq<Op>, i: nat, s: Slot)
    requires i < |ops| && !Accesses(ops[i], s.off) && SlotExact(ops, i, s)
    ensures SlotExact(ops, i + 1, s)
  {
  }

  lemma SlotsGrow(ops: seq<Op>, i: nat, slots: seq<Slot>)
    requires i < |ops| && !TouchesFrame(ops[i]) && SlotsExact(ops, i, slots)
    ensures SlotsExact(ops, i + 1, slots)
  {
    forall k | 0 <= k < |slots|
      ensures SlotExact(ops, i + 1, slots[k])
    {
      SlotGrows(ops, i, slots[k]);
    }
  }

  lemma {:induction false} NoUse(ops: seq<Op>, n: nat, off: int, slots: seq<Slot>)
    requires n <= |ops| && forall i {:trigger TouchesFrame(ops[i])} :: 0 <= i < n && TouchesFrame(ops[i]) ==>
      Covered(slots, ops[i].off)
    requires !Covered(slots, off)
    ensures Uses(ops, n, off) == 0
  {
    if n > 0 {
      NoUse(ops, n - 1, off, slots);
      assert TouchesFrame(ops[n - 1]) || !Accesses(ops[n - 1], off);
    }
  }

  /** The labels seen so far, from the most recent one back. */
  method SeenLabel(ops: seq<Op>, n: nat, labels: seq<int>, name: string) returns (t: int)
    requires n <= |ops| && LabelsExact(ops, n, labels)
    ensures t == -1 || Latest(ops, n, name, t)
    ensures t == -1 ==> forall i :: 0 <= i < n ==> ops[i] != Label(name)
  {
    var k := |labels| - 1;
    t := -1;
    while k >= 0
      invariant -1 <= k < |labels|
      invariant forall m :: k < m < |labels| ==> ops[labels[m]] != Label(name)
    {
      if ops[labels[k]] == Label(name) {
        LaterIsListed(ops, n, labels, name, k);
        return labels[k];
      }
      k := k - 1;
    }
  }

  lemma LaterIsListed(ops: seq<Op>, n: nat, labels: seq<int>, name: string, k: nat)
    requires n <= |ops| && LabelsExact(ops, n, labels) && k < |labels| && ops[labels[k]] == Label(name)
    requires forall m :: k < m < |labels| ==> ops[labels[m]] != Label(name)
    ensures Latest(ops, n, name, labels[k])
  {
    forall i | labels[k] < i < n
      ensures ops[i] != Label(name)
    {
      if ops[i].Label? {
        var m :| 0 <= m < |labels| && labels[m] == i;
        assert m > k;
      }
    }
  }

  predicate LabelsExact(ops: seq<Op>, n: int, labels: seq<int>)
    requires 0 <= n <= |ops|
  {
    && (forall k :: 0 <= k < |labels| ==> 0 <= labels[k] < n && ops[labels[k]].Label?)
    && (forall k, m :: 0 <= k < m < |labels| ==> labels[k] < labels[m])
    && (forall i :: 0 <= i < n && ops[i].Label? ==> i in labels)
  }

  predicate UsedExact(ops: seq<Op>, n: int, used: set<Reg>)
    requires 0 <= n <= |ops|
  {
    forall r :: r in used <==>
      IsSaved(r) && exists i {:trigger Mentions(ops[i], r)} :: 0 <= i < n && Mentions(ops[i], r)
  }

  /** The saved registers among the op's operands (markS). */
  function Marked(op: Op): (used: set<Reg>)
    ensures forall r :: r in used <==> IsSaved(r) && Mentions(op, r)
  {
    set r | r in {S0, S1, S2, S3, S4, S5} && Mentions(op, r)
  }

  /** The first pass of endRecord. */
  method Scan(ops: seq<Op>)
    returns (bail: bool, slots: seq<Slot>, used: set<Reg>, hasCall: bool, hasIndirect: bool, edges: seq<Edge>)
    ensures bail <==> SomeBails(ops)
    ensures !bail ==> SlotsExact(ops, |ops|, slots) && UsedExact(ops, |ops|, used) && EdgesExact(ops, |ops|, edges)
    ensures !bail ==> (hasCall <==> HasCall(ops)) && (hasIndirect <==> HasIndirect(ops))
  {
    hide SlotsExact, UsedExact, LabelsExact, EdgesExact, Marked, Mentions;
    bail, slots, used, hasCall, hasIndirect, edges := false, [], {}, false, false, [];
    var labels: seq<int> := [];
    NothingYet(ops);
    var i := 0;
    while i < |ops|
      invariant 0 <= i <= |ops| && !bail
      invariant forall k :: 0 <= k < i ==> !Bails(ops[k])
      invariant SlotsExact(ops, i, slots) && UsedExact(ops, i, used) && LabelsExact(ops, i, labels)
      invariant EdgesExact(ops, i, edges)
      invariant hasCall <==> exists k {:trigger ops[k].Call?} :: 0 <= k < i && ops[k].Call?
      invariant hasIndirect <==> exists k {:trigger ops[k].JmpIndirect?} :: 0 <= k < i && ops[k].JmpIndirect?
    {
      var op := ops[i];
      if Bails(op) {
        bail := true;
        return;
      }
      if TouchesFrame(op) {
        slots := CountAccess(ops, i, slots);
      } else {
        SlotsGrow(ops, i, slots);
      }
      UsedGrows(ops, i, used);
      used := used + Marked(op);
      EdgesGrow(ops, i, edges);
      LabelsGrow(ops, i, labels);
      if op.Label? {
        labels := labels + [i];
      } else if op.Call? {
        hasCall := true;
      } else if op.JmpIndirect? {
        hasIndirect := true;
      } else if op.Jump? {
        var t := SeenLabel(ops, i, labels, op.target);
        EdgeAdded(ops, i, edges, t);
        if t != -1 {
          edges := edges + [Edge(t, i)];
        }
      }
      i := i + 1;
    }
  }

  lemma UsedGrows(ops: seq<Op>, i: nat, used: set<Reg>)
    requires i < |ops| && UsedExact(ops, i, used)
    ensures UsedExact(ops, i + 1, used + Marked(ops[i]))
  {
    forall r | IsSaved(r)
      ensures r in used + Marked(ops[i]) <==>
        exists k {:trigger Mentions(ops[k], r)} :: 0 <= k < i + 1 && Mentions(ops[k], r)
    {
      if r in Marked(ops[i]) { assert Mentions(ops[i], r); }
    }
  }

  lemma EdgesGrow(ops: seq<Op>, i: nat, edges: seq<Edge>)
    requires i < |ops| && EdgesExact(ops, i, edges)
    ensures !ops[i].Jump? ==> EdgesExact(ops, i + 1, edges)
  {
    hide Latest;
  }

  lemma EdgeAdded(ops: seq<Op>, i: nat, edges: seq<Edge>, t: int)
    requires i < |ops| && ops[i].Jump? && EdgesExact(ops, i, edges)
    requires t == -1 || Latest(ops, i, ops[i].target, t)
    requires t == -1 ==> forall k :: 0 <= k < i ==> ops[k] != Label(ops[i].target)
    ensures EdgesExact(ops, i + 1, if t == -1 then edges else edges + [Edge(t, i)])
  {
    hide Latest;
    var out := if t == -1 then edges else edges + [Edge(t, i)];
    forall u, j | BackEdge(ops, u, j) && j < i + 1
      ensures exists e :: 0 <= e < |out| && out[e].jump == j
    {
      if j < i {
        var e :| 0 <= e < |edges| && edges[e].jump == j;
        assert out[e].jump == j;
      } else {
        assert out[|edges|].jump == j;
      }
    }
  }

  /** Every edge is a back edge, and under unique labels every back edge is an edge. */
  lemma EdgesAreBackEdges(ops: seq<Op>, edges: seq<Edge>)
    requires EdgesExact(ops, |ops|, edges)
    ensures forall e :: 0 <= e < |edges| ==> BackEdge(ops, edges[e].target, edges[e].jump)
    ensures UniqueLabels(ops) ==>
      forall t, j :: BackEdge(ops, t, j) ==> exists e :: 0 <= e < |edges| && edges[e] == Edge(t, j)
  {
    if UniqueLabels(ops) {
      forall t, j | BackEdge(ops, t, j)
        ensures exists e :: 0 <= e < |edges| && edges[e] == Edge(t, j)
      {
        var e :| 0 <= e < |edges| && edges[e].jump == j;
        assert edges[e] == Edge(t, j);
      }
    }
  }

  lemma NothingYet(ops: seq<Op>)
    ensures SlotsExact(ops, 0, []) && UsedExact(ops, 0, {}) && LabelsExact(ops, 0, []) && EdgesExact(ops, 0, [])
  {
  }

  lemma LabelsGrow(ops: seq<Op>, i: nat, labels: seq<int>)
    requires i < |ops| && LabelsExact(ops, i, labels)
    ensures LabelsExact(ops, i + 1, if ops[i].Label? then labels + [i] else labels)
  {
  }

  // ---------- widening over back edges ----------

  predicate EdgeKept(first: int, last: int, e: Edge) {
    first <= e.jump && e.target <= last ==> first <= e.target && e.jump <= last
  }

  /** The interval contains or misses every loop. */
  predicate KeepsEdges(first: int, last: int, edges: seq<Edge>) {
    forall i :: 0 <= i < |edges| ==> EdgeKept(first, last, edges[i])
  }

  predicate InRange(s: Slot, n: int) {
    0 <= s.first <= s.last < n
  }

  /** t is s with a larger interval inside every closed interval around s. */
  ghost predicate Widened(s: Slot, t: Slot, n: int, edges: seq<Edge>) {
    && t.off == s.off && t.count == s.count && t.first <= s.first && s.last <= t.last && InRange(t, n)
    && forall lo, hi :: lo <= s.first && s.last <= hi && KeepsEdges(lo, hi, edges) ==> lo <= t.first && t.last <= hi
  }

  /** How far the intervals can still grow. */
  function Slack(slots: seq<Slot>, n: int): int {
    if slots == [] then 0
    else Slack(slots[..|slots| - 1], n) + slots[|slots| - 1].first + n - 1 - slots[|slots| - 1].last
  }

  lemma {:induction false} SlackIsNat(slots: seq<Slot>, n: int)
    requires forall k :: 0 <= k < |slots| ==> InRange(slots[k], n)
    ensures Slack(slots, n) >= 0
  {
    if slots != [] { SlackIsNat(slots[..|slots| - 1], n); }
  }

  lemma {:induction false} SlackUpdate(slots: seq<Slot>, n: int, k: nat, t: Slot)
    requires k < |slots|
    ensures Slack(slots[k := t], n) == Slack(slots, n) - slots[k].first + slots[k].last + t.first - t.last
  {
    var m := |slots| - 1;
    if k < m {
      SlackUpdate(slots[..m], n, k, t);
      assert slots[k := t][..m] == slots[..m][k := t];
    } else {
      assert slots[k := t][..m] == slots[..m];
    }
  }

  function Merge(s: Slot, e: Edge): Slot {
    if s.first <= e.jump && s.last >= e.target then
      s.(first := if s.first > e.target then e.target else s.first, last := if s.last < e.jump then e.jump else s.last)
    else s
  }

  lemma MergeWidens(s: Slot, t: Slot, n: int, edges: seq<Edge>, e: nat)
    requires Widened(s, t, n, edges) && e < |edges| && 0 <= edges[e].target < edges[e].jump < n
    ensures Widened(s, Merge(t, edges[e]), n, edges)
    ensures EdgeKept(Merge(t, edges[e]).first, Merge(t, edges[e]).last, edges[e])
  {
    var u := Merge(t, edges[e]);
    forall lo, hi | lo <= s.first && s.last <= hi && KeepsEdges(lo, hi, edges)
      ensures lo <= u.first && u.last <= hi
    {
      assert EdgeKept(lo, hi, edges[e]);
    }
  }

  ghost predicate AllWidened(slots: seq<Slot>, out: seq<Slot>, n: int, edges: seq<Edge>) {
    |out| == |slots| && forall k :: 0 <= k < |slots| ==> Widened(slots[k], out[k], n, edges)
  }

  lemma NotYetWidened(slots: seq<Slot>, n: int, edges: seq<Edge>)
    requires forall k :: 0 <= k < |slots| ==> InRange(slots[k], n)
    ensures AllWidened(slots, slots, n, edges)
  {
  }

  lemma MergeOne(slots: seq<Slot>, out: seq<Slot>, n: int, edges: seq<Edge>, k: nat, e: nat)
    requires AllWidened(slots, out, n, edges) && k < |out| && e < |edges| && 0 <= edges[e].target < edges[e].jump < n
    ensures AllWidened(slots, out[k := Merge(out[k], edges[e])], n, edges)
    ensures Merge(out[k], edges[e]) != out[k] ==> Slack(out[k := Merge(out[k], edges[e])], n) < Slack(out, n)
    ensures Merge(out[k], edges[e]) == out[k] ==> EdgeKept(out[k].first, out[k].last, edges[e])
  {
    MergeWidens(slots[k], out[k], n, edges, e);
    SlackUpdate(out, n, k, Merge(out[k], edges[e]));
  }

  /** One sweep over all slots and edges. */
  method Sweep(ghost slots: seq<Slot>, now: seq<Slot>, n: int, edges: seq<Edge>) returns (out: seq<Slot>, changed: bool)
    requires AllWidened(slots, now, n, edges)
    requires forall e :: 0 <= e < |edges| ==> 0 <= edges[e].target < edges[e].jump < n
    ensures AllWidened(slots, out, n, edges)
    ensures changed ==> Slack(out, n) < Slack(now, n)
    ensures !changed ==> out == now && forall k :: 0 <= k < |out| ==> KeepsEdges(out[k].first, out[k].last, edges)
  {
    hide Widened;
    out, changed := now, false;
    var k := 0;
    while k < |now|
      invariant 0 <= k <= |now| == |out| && AllWidened(slots, out, n, edges)
      invariant changed ==> Slack(out, n) < Slack(now, n)
      invariant !changed ==> out == now && forall m :: 0 <= m < k ==> KeepsEdges(out[m].first, out[m].last, edges)
    {
      var e := 0;
      while e < |edges|
        invariant 0 <= e <= |edges| && |now| == |out| && AllWidened(slots, out, n, edges)
        invariant changed ==> Slack(out, n) < Slack(now, n)
        invariant !changed ==> out == now && forall m :: 0 <= m < k ==> KeepsEdges(out[m].first, out[m].last, edges)
        invariant !changed ==> forall i :: 0 <= i < e ==> EdgeKept(out[k].first, out[k].last, edges[i])
      {
        MergeOne(slots, out, n, edges, k, e);
        var merged := Merge(out[k], edges[e]);
        if merged != out[k] {
          out, changed := out[k := merged], true;
        }
        e := e + 1;
      }
      k := k + 1;
    }
  }

  /** Grows every interval to the least one around it that contains or misses every loop; with an indirect jump, to the
      whole record. */
  method Widen(n: int, slots: seq<Slot>, edges: seq<Edge>, hasIndirect: bool) returns (out: seq<Slot>)
    requires forall k :: 0 <= k < |slots| ==> InRange(slots[k], n)
    requires forall e :: 0 <= e < |edges| ==> 0 <= edges[e].target < edges[e].jump < n
    ensures |out| == |slots|
    ensures hasIndirect ==> forall k :: 0 <= k < |slots| ==> out[k] == slots[k].(first := 0, last := n - 1)
    ensures !hasIndirect ==> AllWidened(slots, out, n, edges)
    ensures !hasIndirect ==> forall k :: 0 <= k < |out| ==> KeepsEdges(out[k].first, out[k].last, edges)
  {
    out := slots;
    if hasIndirect {
      var k := 0;
      while k < |slots|
        invariant 0 <= k <= |slots| == |out|
        invariant forall m :: 0 <= m < k ==> out[m] == slots[m].(first := 0, last := n - 1)
        invariant forall m :: k <= m < |slots| ==> out[m] == slots[m]
      {
        out := out[k := out[k].(first := 0, last := n - 1)];
        k := k + 1;
      }
      return;
    }
    var changed := |edges| > 0;
    NotYetWidened(slots, n, edges);
    while changed
      invariant AllWidened(slots, out, n, edges)
      invariant !changed ==> forall k :: 0 <= k < |out| ==> KeepsEdges(out[k].first, out[k].last, edges)
      decreases Slack(out, n), if changed then 1 else 0
    {
      out, changed := Sweep(slots, out, n, edges);
      SlackIsNat(out, n);
    }
  }

  // ---------- linear scan ----------

  predicate Extra(r: Reg) {
    r.S4? || r.S5?
  }

  predicate Poolable(arch: Arch, used: set<Reg>, hasCall: bool, r: Reg) {
    IsSaved(r) && r !in used && (r.S5? ==> !hasCall && arch == Arm64)
  }

  /** The order of preference: S3 down to S0, then S4 and S5. */
  function Rank(r: Reg): int {
    match r
    case S3 => 0 case S2 => 1 case S1 => 2 case S0 => 3 case S4 => 4 case S5 => 5 case _ => 6
  }

  predicate Ranked(rs: seq<Reg>) {
    forall p, q :: 0 <= p < q < |rs| ==> Rank(rs[p]) < Rank(rs[q])
  }

  /** The registers that may be handed out, in order of preference. */
  function Pool(arch: Arch, used: set<Reg>, hasCall: bool): (pool: seq<Reg>)
    ensures forall r :: r in pool <==> Poolable(arch, used, hasCall, r)
    ensures Ranked(pool)
  {
    Free(arch, used, hasCall, [S3, S2, S1, S0, S4, S5])
  }

  function Free(arch: Arch, used: set<Reg>, hasCall: bool, all: seq<Reg>): (pool: seq<Reg>)
    requires Ranked(all)
    ensures forall r :: r in pool <==> r in all && Poolable(arch, used, hasCall, r)
    ensures Ranked(pool)
  {
    if all == [] then []
    else
      var n := |all| - 1;
      var more := Free(arch, used, hasCall, all[..n]);
      assert forall r :: r in all <==> r in all[..n] || r == all[n];
      assert forall p :: 0 <= p < |more| ==> more[p] in all[..n];
      more + if Poolable(arch, used, hasCall, all[n]) then [all[n]] else []
  }

  predicate Distinct(xs: seq<int>) {
    forall i, j :: 0 <= i < j < |xs| ==> xs[i] != xs[j]
  }

  predicate OrderFits(slots: seq<Slot>, order: seq<int>) {
    && |order| == |slots| && Distinct(order) && (forall i :: 0 <= i < |order| ==> 0 <= order[i] < |slots|)
    && forall k :: 0 <= k < |slots| ==> k in order
  }

  /** Slot indices by ascending start, by selection sort. */
  method ByStart(slots: seq<Slot>) returns (order: seq<int>)
    ensures OrderFits(slots, order)
    ensures forall i, j :: 0 <= i < j < |order| ==> slots[order[i]].first <= slots[order[j]].first
  {
    order := seq(|slots|, i => i);
    forall k | 0 <= k < |slots| ensures k in order { assert order[k] == k; }
    var x := 0;
    while x < |order|
      invariant 0 <= x <= |order| && OrderFits(slots, order)
      invariant forall i, j :: 0 <= i < x && i < j < |order| ==> slots[order[i]].first <= slots[order[j]].first
    {
      var m, y := x, x + 1;
      while y < |order|
        invariant x <= m < |order| && x < y <= |order|
        invariant forall j :: x <= j < y ==> slots[order[m]].first <= slots[order[j]].first
      {
        if slots[order[y]].first < slots[order[m]].first { m := y; }
        y := y + 1;
      }
      Swapped(slots, order, x, m);
      order := order[x := order[m]][m := order[x]];
      x := x + 1;
    }
  }

  lemma Swapped(slots: seq<Slot>, order: seq<int>, x: nat, m: nat)
    requires OrderFits(slots, order) && x < |order| && m < |order|
    ensures OrderFits(slots, order[x := order[m]][m := order[x]])
  {
    var now := order[x := order[m]][m := order[x]];
    forall k | 0 <= k < |slots|
      ensures k in now
    {
      assert k in order;
      var i :| 0 <= i < |order| && order[i] == k;
      assert now[if i == x then m else if i == m then x else i] == k;
    }
  }

  /** How often a slot must be accessed: S4 and S5 cost a save and a restore. */
  function MinUse(r: Reg): int {
    if Extra(r) then 4 else 2
  }

  /** The promotion gives slot k the register pool[p]. */
  predicate Gives(slots: seq<Slot>, pool: seq<Reg>, pr: Prom, k: int, p: int)
    requires 0 <= k < |slots| && 0 <= p < |pool|
  {
    pr == Prom(slots[k].off, pool[p], slots[k].first, slots[k].last) && slots[k].count >= MinUse(pool[p])
  }

  /** What linear scan hands out: slot from[m] goes to pool[into[m]]. */
  predicate Allocated(slots: seq<Slot>, pool: seq<Reg>, proms: seq<Prom>, from: seq<int>, into: seq<int>) {
    && |from| == |into| == |proms| && Distinct(from)
    && (forall m :: 0 <= m < |proms| ==>
          0 <= from[m] < |slots| && 0 <= into[m] < |pool| && Gives(slots, pool, proms[m], from[m], into[m]))
    && (forall m, o :: 0 <= m < o < |proms| && into[m] == into[o] ==> proms[m].last < proms[o].first)
  }

  /** Slot k cannot have pool[p]: it is not accessed often enough, or another slot is there where it starts. */
  predicate Refused(slots: seq<Slot>, pool: seq<Reg>, proms: seq<Prom>, from: seq<int>, into: seq<int>, k: int, p: int)
    requires 0 <= k < |slots| && 0 <= p < |pool| && |from| == |into| == |proms|
  {
    || slots[k].count < MinUse(pool[p])
    || exists m :: 0 <= m < |proms| && into[m] == p && from[m] != k
         && proms[m].first <= slots[k].first <= proms[m].last
  }

  predicate RefusedBelow(slots: seq<Slot>, pool: seq<Reg>, proms: seq<Prom>, from: seq<int>, into: seq<int>, k: int,
      p: int)
    requires 0 <= k < |slots| && 0 <= p <= |pool| && |from| == |into| == |proms|
  {
    forall q :: 0 <= q < p ==> Refused(slots, pool, proms, from, into, k, q)
  }

  /** Slot k has the first register of the pool that it can have, and stays in memory only if it can have none. */
  predicate Served(slots: seq<Slot>, pool: seq<Reg>, proms: seq<Prom>, from: seq<int>, into: seq<int>, k: int)
    requires 0 <= k < |slots| && |from| == |into| == |proms|
  {
    || RefusedBelow(slots, pool, proms, from, into, k, |pool|)
    || exists m :: 0 <= m < |proms| && from[m] == k && 0 <= into[m] <= |pool|
         && RefusedBelow(slots, pool, proms, from, into, k, into[m])
  }

  /** A register is busy until the end of the last interval it holds. */
  predicate BusyFits(proms: seq<Prom>, into: seq<int>, busy: seq<int>)
    requires |into| == |proms|
  {
    && (forall m :: 0 <= m < |proms| ==> 0 <= into[m] < |busy| && proms[m].last <= busy[into[m]])
    && (forall p :: 0 <= p < |busy| ==>
          busy[p] == -1 || exists m :: 0 <= m < |proms| && into[m] == p && proms[m].last == busy[p])
  }

  predicate Takes(proms: seq<Prom>, r: Reg) {
    exists m :: 0 <= m < |proms| && proms[m].reg == r
  }

  /** The prologue has to save the S4 and S5 that are used, each once. */
  predicate ExtFits(proms: seq<Prom>, ext: seq<Reg>) {
    && (forall m :: 0 <= m < |proms| && Extra(proms[m].reg) ==> proms[m].reg in ext)
    && (forall k :: 0 <= k < |ext| ==> Extra(ext[k]) && Takes(proms, ext[k]))
    && (forall k, m :: 0 <= k < m < |ext| ==> ext[k] != ext[m])
  }

  method LinearScan(slots: seq<Slot>, pool: seq<Reg>)
    returns (proms: seq<Prom>, ext: seq<Reg>, ghost from: seq<int>, ghost into: seq<int>)
    requires forall k :: 0 <= k < |slots| ==> 0 <= slots[k].first <= slots[k].last
    ensures Allocated(slots, pool, proms, from, into) && ExtFits(proms, ext)
    ensures forall k :: 0 <= k < |slots| ==> Served(slots, pool, proms, from, into, k)
  {
    hide Allocated, BusyFits, ExtFits, Refused, Served, MinUse;
    proms, ext, from, into := [], [], [], [];
    var order := ByStart(slots);
    var busy := seq(|pool|, p => -1);
    NothingAllocated(slots, pool, busy);
    var x := 0;
    while x < |order|
      invariant 0 <= x <= |order| && |busy| == |pool| && |from| == |into| == |proms|
      invariant Allocated(slots, pool, proms, from, into) && BusyFits(proms, into, busy) && ExtFits(proms, ext)
      invariant forall m :: 0 <= m < |from| ==> from[m] in order[..x]
      invariant forall y :: 0 <= y < x ==> Served(slots, pool, proms, from, into, order[y])
    {
      var k := order[x];
      assert k !in order[..x];
      EarlierStarts(slots, pool, proms, from, into, order, x);
      ghost var proms0, from0, into0 := proms, from, into;
      var p := 0;
      while p < |pool|
        invariant 0 <= p <= |pool| && proms == proms0 && from == from0 && into == into0
        invariant RefusedBelow(slots, pool, proms, from, into, k, p)
      {
        if busy[p] < slots[k].first && slots[k].count >= MinUse(pool[p]) {
          AllocationGrows(slots, pool, proms, from, into, busy, ext, k, p);
          ghost var pr := Prom(slots[k].off, pool[p], slots[k].first, slots[k].last);
          AllServedStay(slots, pool, proms, from, into, order, x, pr, p);
          proms := proms + [Prom(slots[k].off, pool[p], slots[k].first, slots[k].last)];
          from, into := from + [k], into + [p];
          busy := busy[p := slots[k].last];
          if Extra(pool[p]) && pool[p] !in ext {
            ext := ext + [pool[p]];
          }
          break;
        }
        BusyRefuses(slots, pool, proms, from, into, busy, k, p);
        p := p + 1;
      }
      if p == |pool| { NoneLeft(slots, pool, proms, from, into, k); }
      x := x + 1;
    }
    forall k | 0 <= k < |slots|
      ensures Served(slots, pool, proms, from, into, k)
    {
      assert k in order;
    }
  }

  lemma NothingAllocated(slots: seq<Slot>, pool: seq<Reg>, busy: seq<int>)
    requires forall p :: 0 <= p < |busy| ==> busy[p] == -1
    ensures Allocated(slots, pool, [], [], []) && BusyFits([], [], busy) && ExtFits([], [])
  {
  }

  /** Slots come in order of their starts. */
  lemma EarlierStarts(slots: seq<Slot>, pool: seq<Reg>, proms: seq<Prom>, from: seq<int>, into: seq<int>,
      order: seq<int>,
      x: nat)
    requires Allocated(slots, pool, proms, from, into) && OrderFits(slots, order) && x < |order|
    requires forall i, j :: 0 <= i < j < |order| ==> slots[order[i]].first <= slots[order[j]].first
    requires forall m :: 0 <= m < |from| ==> from[m] in order[..x]
    ensures forall m :: 0 <= m < |proms| ==> from[m] != order[x] && proms[m].first <= slots[order[x]].first
  {
    forall m | 0 <= m < |proms|
      ensures from[m] != order[x] && proms[m].first <= slots[order[x]].first
    {
      var i :| 0 <= i < x && order[..x][i] == from[m];
      assert order[i] == from[m] && Gives(slots, pool, proms[m], from[m], into[m]);
    }
  }

  lemma BusyRefuses(slots: seq<Slot>, pool: seq<Reg>, proms: seq<Prom>, from: seq<int>, into: seq<int>, busy: seq<int>,
      k: nat, p: nat)
    requires k < |slots| && p < |pool| == |busy| && |from| == |into| == |proms| && BusyFits(proms, into, busy)
    requires forall m :: 0 <= m < |proms| ==> from[m] != k && proms[m].first <= slots[k].first
    requires 0 <= slots[k].first && (busy[p] >= slots[k].first || slots[k].count < MinUse(pool[p]))
    requires RefusedBelow(slots, pool, proms, from, into, k, p)
    ensures RefusedBelow(slots, pool, proms, from, into, k, p + 1)
  {
    hide MinUse;
    assert Refused(slots, pool, proms, from, into, k, p) by {
      if busy[p] >= slots[k].first {
        var m :| 0 <= m < |proms| && into[m] == p && proms[m].last == busy[p];
        assert from[m] != k;
      }
    }
  }

  lemma NoneLeft(slots: seq<Slot>, pool: seq<Reg>, proms: seq<Prom>, from: seq<int>, into: seq<int>, k: nat)
    requires k < |slots| && |from| == |into| == |proms| && RefusedBelow(slots, pool, proms, from, into, k, |pool|)
    ensures Served(slots, pool, proms, from, into, k)
  {
  }

  /** One more allocation refuses no less. */
  lemma StillRefused(slots: seq<Slot>, pool: seq<Reg>, proms: seq<Prom>, from: seq<int>, into: seq<int>, j: nat, q: nat,
      pr: Prom, k: int, p: int)
    requires j < |slots| && q <= |pool| && |from| == |into| == |proms|
    requires RefusedBelow(slots, pool, proms, from, into, j, q)
    ensures RefusedBelow(slots, pool, proms + [pr], from + [k], into + [p], j, q)
  {
    hide MinUse;
    forall t | 0 <= t < q
      ensures Refused(slots, pool, proms + [pr], from + [k], into + [p], j, t)
    {
      assert Refused(slots, pool, proms, from, into, j, t);
      if slots[j].count >= MinUse(pool[t]) {
        var m :| 0 <= m < |proms| && into[m] == t && from[m] != j && proms[m].first <= slots[j].first <= proms[m].last;
        assert (into + [p])[m] == t && (from + [k])[m] == from[m] && (proms + [pr])[m] == proms[m];
      }
    }
  }

  lemma StillServed(slots: seq<Slot>, pool: seq<Reg>, proms: seq<Prom>, from: seq<int>, into: seq<int>, j: nat,
      pr: Prom, k: int, p: int)
    requires j < |slots| && |from| == |into| == |proms| && Served(slots, pool, proms, from, into, j)
    ensures Served(slots, pool, proms + [pr], from + [k], into + [p], j)
  {
    hide RefusedBelow;
    if RefusedBelow(slots, pool, proms, from, into, j, |pool|) {
      StillRefused(slots, pool, proms, from, into, j, |pool|, pr, k, p);
    } else {
      var m :| 0 <= m < |proms| && from[m] == j && 0 <= into[m] <= |pool|
        && RefusedBelow(slots, pool, proms, from, into, j, into[m]);
      StillRefused(slots, pool, proms, from, into, j, into[m], pr, k, p);
      assert (from + [k])[m] == j && (into + [p])[m] == into[m];
    }
  }

  lemma AllServedStay(slots: seq<Slot>, pool: seq<Reg>, proms: seq<Prom>, from: seq<int>, into: seq<int>,
      order: seq<int>,
      x: nat, pr: Prom, p: nat)
    requires OrderFits(slots, order) && x < |order| && |from| == |into| == |proms| && p < |pool|
    requires forall y :: 0 <= y < x ==> Served(slots, pool, proms, from, into, order[y])
    requires RefusedBelow(slots, pool, proms, from, into, order[x], p)
    ensures forall y :: 0 <= y < x + 1 ==> Served(slots, pool, proms + [pr], from + [order[x]], into + [p], order[y])
  {
    hide RefusedBelow, Served;
    forall y | 0 <= y < x + 1
      ensures Served(slots, pool, proms + [pr], from + [order[x]], into + [p], order[y])
    {
      if y < x {
        StillServed(slots, pool, proms, from, into, order[y], pr, order[x], p);
      } else {
        StillRefused(slots, pool, proms, from, into, order[x], p, pr, order[x], p);
        NewIsServed(slots, pool, proms, from, into, order[x], pr, p);
      }
    }
  }

  lemma NewIsServed(slots: seq<Slot>, pool: seq<Reg>, proms: seq<Prom>, from: seq<int>, into: seq<int>, k: nat,
      pr: Prom,
      p: nat)
    requires k < |slots| && |from| == |into| == |proms| && p < |pool|
    requires RefusedBelow(slots, pool, proms + [pr], from + [k], into + [p], k, p)
    ensures Served(slots, pool, proms + [pr], from + [k], into + [p], k)
  {
    hide RefusedBelow;
    assert (from + [k])[|proms|] == k && (into + [p])[|proms|] == p;
  }

  /** Giving slot k a register that fell free before it starts. */
  lemma AllocationGrows(slots: seq<Slot>, pool: seq<Reg>, proms: seq<Prom>, from: seq<int>, into: seq<int>,
      busy: seq<int>, ext: seq<Reg>, k: int, p: int)
    requires Allocated(slots, pool, proms, from, into) && |into| == |proms| && BusyFits(proms, into, busy)
    requires ExtFits(proms, ext)
    requires 0 <= k < |slots| && k !in from && 0 <= p < |pool| && |busy| == |pool|
    requires busy[p] < slots[k].first <= slots[k].last && slots[k].count >= MinUse(pool[p])
    ensures
      var pr := Prom(slots[k].off, pool[p], slots[k].first, slots[k].last);
      && Allocated(slots, pool, proms + [pr], from + [k], into + [p])
      && BusyFits(proms + [pr], into + [p], busy[p := slots[k].last])
      && ExtFits(proms + [pr], if Extra(pool[p]) && pool[p] !in ext then ext + [pool[p]] else ext)
  {
    hide MinUse, ExtFits;
    var pr := Prom(slots[k].off, pool[p], slots[k].first, slots[k].last);
    ExtGrows(proms, ext, pr);
    BusyGrows(proms, into, busy, pr, p);
    hide BusyFits;
    forall m, o | 0 <= m < o < |proms| + 1 && (into + [p])[m] == (into + [p])[o]
      ensures (proms + [pr])[m].last < (proms + [pr])[o].first
    {
      if o == |proms| { BusyBehind(proms, into, busy, m); }
    }
  }

  lemma BusyBehind(proms: seq<Prom>, into: seq<int>, busy: seq<int>, m: nat)
    requires m < |proms| == |into| && BusyFits(proms, into, busy)
    ensures 0 <= into[m] < |busy| && proms[m].last <= busy[into[m]]
  {
  }

  lemma BusyGrows(proms: seq<Prom>, into: seq<int>, busy: seq<int>, pr: Prom, p: int)
    requires |into| == |proms| && BusyFits(proms, into, busy) && 0 <= p < |busy| && busy[p] < pr.last
    ensures BusyFits(proms + [pr], into + [p], busy[p := pr.last])
  {
    var proms', into', busy' := proms + [pr], into + [p], busy[p := pr.last];
    forall q | 0 <= q < |busy'|
      ensures busy'[q] == -1 || exists m :: 0 <= m < |proms'| && into'[m] == q && proms'[m].last == busy'[q]
    {
      if q == p {
        assert into'[|proms|] == q && proms'[|proms|].last == busy'[q];
      } else if busy[q] != -1 {
        var m :| 0 <= m < |proms| && into[m] == q && proms[m].last == busy[q];
        assert into'[m] == q && proms'[m] == proms[m];
      }
    }
  }

  lemma ExtGrows(proms: seq<Prom>, ext: seq<Reg>, pr: Prom)
    requires ExtFits(proms, ext)
    ensures ExtFits(proms + [pr], if Extra(pr.reg) && pr.reg !in ext then ext + [pr.reg] else ext)
  {
    var ext' := if Extra(pr.reg) && pr.reg !in ext then ext + [pr.reg] else ext;
    assert forall r :: r in ext ==> r in ext';
    assert Extra(pr.reg) ==> pr.reg in ext';
    forall k | 0 <= k < |ext'|
      ensures Takes(proms + [pr], ext'[k])
    {
      if k < |ext| {
        assert Takes(proms, ext[k]);
        TakesMore(proms, pr, ext[k]);
      } else {
        assert (proms + [pr])[|proms|].reg == ext'[k];
      }
    }
  }

  lemma TakesMore(proms: seq<Prom>, pr: Prom, r: Reg)
    requires Takes(proms, r)
    ensures Takes(proms + [pr], r)
  {
    var m :| 0 <= m < |proms| && proms[m].reg == r;
    assert (proms + [pr])[m].reg == r;
  }

  // ---------- push/pop pairs ----------

  /** Register `reg` is taken from position `from` to `to`. */
  datatype Busy = Busy(reg: Reg, from: int, to: int)

  /** `stk` is the linear stack of pushes still open before position i. */
  predicate OpenPushes(ops: seq<Op>, i: nat, stk: seq<int>)
    requires i <= |ops|
  {
    && (forall h :: 0 <= h < |stk| ==> OpenPush(ops, i, stk[h], |stk| - 1 - h))
    && (forall h, g :: 0 <= h < g < |stk| ==> stk[h] < stk[g])
  }

  /** The push at p is still open before i, with `above` entries over it, and has been open all along. */
  predicate OpenPush(ops: seq<Op>, i: nat, p: int, above: int)
    requires i <= |ops|
  {
    && 0 <= p < i && ops[p].Push? && Nest(ops, p, i) == above
    && forall q {:trigger Nest(ops, p, q)} :: p < q <= i ==> Nest(ops, p, q) >= 0
  }

  lemma OpenPushesStep(ops: seq<Op>, i: nat, stk: seq<int>)
    requires i < |ops| && OpenPushes(ops, i, stk)
    ensures ops[i].Push? ==> OpenPushes(ops, i + 1, stk + [i])
    ensures ops[i].Pop? && stk != [] ==> OpenPushes(ops, i + 1, stk[..|stk| - 1])
    ensures !ops[i].Push? && !ops[i].Pop? ==> OpenPushes(ops, i + 1, stk)
  {
    var d := if ops[i].Push? then 1 else if ops[i].Pop? then -1 else 0;
    forall h | 0 <= h < |stk| && |stk| - 1 - h + d >= 0
      ensures OpenPush(ops, i + 1, stk[h], |stk| - 1 - h + d)
    {
      assert OpenPush(ops, i, stk[h], |stk| - 1 - h);
    }
  }

  /** Control only runs through from p to i. */
  predicate Straight(ops: seq<Op>, p: int, i: int)
    requires 0 <= p < i < |ops|
  {
    forall q {:trigger Control(ops[q])} :: p < q < i ==> !Control(ops[q])
  }

  predicate CallsBetween(ops: seq<Op>, p: int, i: int)
    requires 0 <= p < i < |ops|
  {
    exists q {:trigger ClobbersBorrowed(ops[q])} :: p < q < i && ClobbersBorrowed(ops[q])
  }

  method ScanRegion(ops: seq<Op>, p: nat, i: nat) returns (ok: bool, call: bool)
    requires p < i < |ops|
    ensures ok <==> Straight(ops, p, i)
    ensures ok ==> (call <==> CallsBetween(ops, p, i))
  {
    ok, call := true, false;
    var q := p + 1;
    while q < i
      invariant p < q <= i && ok
      invariant forall m :: p < m < q ==> !Control(ops[m])
      invariant call <==> exists m :: p < m < q && ClobbersBorrowed(ops[m])
    {
      if Control(ops[q]) {
        ok := false;
        return;
      }
      if ClobbersBorrowed(ops[q]) { call := true; }
      q := q + 1;
    }
  }

  /** Registers that may carry a value across a region: V7-V5 on arm64 when it makes no call, then free saved ones. */
  function Candidates(arch: Arch, used: set<Reg>, ext: seq<Reg>, call: bool): seq<Reg> {
    (if arch == Arm64 && !call then [V7, V6, V5] else []) +
    (if S3 !in used then [S3] else []) + (if S2 !in used then [S2] else []) +
    (if S1 !in used then [S1] else []) + (if S0 !in used then [S0] else []) + ext
  }

  predicate FreeAcross(ops: seq<Op>, busy: seq<Busy>, p: int, i: int, r: Reg)
    requires 0 <= p < i < |ops|
  {
    && (forall q {:trigger Mentions(ops[q], r)} :: p < q < i ==> !Mentions(ops[q], r))
    && (forall k :: 0 <= k < |busy| && busy[k].reg == r ==> Apart(busy[k].from, busy[k].to, p, i))
  }

  method IsFree(ops: seq<Op>, busy: seq<Busy>, p: nat, i: nat, r: Reg) returns (free: bool)
    requires p < i < |ops|
    ensures free <==> FreeAcross(ops, busy, p, i, r)
  {
    free := true;
    var q := p + 1;
    while q < i
      invariant p < q <= i
      invariant forall m {:trigger Mentions(ops[m], r)} :: p < m < q ==> !Mentions(ops[m], r)
    {
      if Mentions(ops[q], r) { return false; }
      q := q + 1;
    }
    var t := 0;
    while t < |busy|
      invariant 0 <= t <= |busy|
      invariant forall k :: 0 <= k < t && busy[k].reg == r ==> Apart(busy[k].from, busy[k].to, p, i)
    {
      if busy[t].reg == r && busy[t].from <= i && busy[t].to >= p { return false; }
      t := t + 1;
    }
  }

  /** Candidate c is free all the way from p to i, and the first that is. */
  predicate IsFirstFree(ops: seq<Op>, busy: seq<Busy>, p: int, i: int, cands: seq<Reg>, c: int)
    requires 0 <= p < i < |ops|
  {
    && 0 <= c < |cands| && FreeAcross(ops, busy, p, i, cands[c])
    && forall d :: 0 <= d < c ==> !FreeAcross(ops, busy, p, i, cands[d])
  }

  function FirstFree(ops: seq<Op>, busy: seq<Busy>, p: int, i: int, cands: seq<Reg>): (r: Option<Reg>)
    requires 0 <= p < i < |ops|
    ensures r.None? <==> forall c :: 0 <= c < |cands| ==> !FreeAcross(ops, busy, p, i, cands[c])
    ensures r.Some? ==> exists c :: IsFirstFree(ops, busy, p, i, cands, c) && cands[c] == r.value
  {
    if cands == [] then Option.None
    else if FreeAcross(ops, busy, p, i, cands[0]) then
      assert IsFirstFree(ops, busy, p, i, cands, 0);
      Some(cands[0])
    else
      var r := FirstFree(ops, busy, p, i, cands[1..]);
      FirstOfRest(ops, busy, p, i, cands, r);
      r
  }

  lemma FirstOfRest(ops: seq<Op>, busy: seq<Busy>, p: int, i: int, cands: seq<Reg>, r: Option<Reg>)
    requires 0 <= p < i < |ops| && cands != [] && !FreeAcross(ops, busy, p, i, cands[0])
    requires r.None? <==> forall c :: 0 <= c < |cands[1..]| ==> !FreeAcross(ops, busy, p, i, cands[1..][c])
    requires r.Some? ==> exists c :: IsFirstFree(ops, busy, p, i, cands[1..], c) && cands[1..][c] == r.value
    ensures r.None? <==> forall c :: 0 <= c < |cands| ==> !FreeAcross(ops, busy, p, i, cands[c])
    ensures r.Some? ==> exists c :: IsFirstFree(ops, busy, p, i, cands, c) && cands[c] == r.value
  {
    hide FreeAcross;
    assert forall c :: 1 <= c < |cands| ==> cands[c] == cands[1..][c - 1];
    if r.Some? {
      var c :| IsFirstFree(ops, busy, p, i, cands[1..], c) && cands[1..][c] == r.value;
      assert IsFirstFree(ops, busy, p, i, cands, c + 1);
    }
  }

  /** The register that the push at p and the pop at i are sent through. */
  function PairReg(arch: Arch, ops: seq<Op>, used: set<Reg>, ext: seq<Reg>, busy: seq<Busy>, p: int, i: int):
      Option<Reg>
    requires 0 <= p < i < |ops|
  {
    if !Straight(ops, p, i) then Option.None
    else FirstFree(ops, busy, p, i, Candidates(arch, used, ext, CallsBetween(ops, p, i)))
  }

  /** What the promotions and the pairs claim. */
  function Claims(proms: seq<Prom>, pairs: seq<Pair>): (busy: seq<Busy>)
    ensures |busy| == |proms| + |pairs|
    ensures forall k :: 0 <= k < |proms| ==> busy[k] == Busy(proms[k].reg, proms[k].first, proms[k].last)
    ensures forall k :: 0 <= k < |pairs| ==>
      busy[|proms| + k] == Busy(pairs[k].reg, pairs[k].push, pairs[k].pop)
  {
    seq(|proms|, k requires 0 <= k < |proms| => Busy(proms[k].reg, proms[k].first, proms[k].last)) +
    seq(|pairs|, k requires 0 <= k < |pairs| => Busy(pairs[k].reg, pairs[k].push, pairs[k].pop))
  }

  /** The part of ValidPlan that speaks of pairs. */
  ghost predicate PairsFit(arch: Arch, ops: seq<Op>, ext: seq<Reg>, proms: seq<Prom>, pairs: seq<Pair>) {
    && (forall k :: 0 <= k < |pairs| ==> ValidPair(arch, ops, ext, pairs[k]))
    && (forall k, m :: 0 <= k < m < |pairs| ==>
          && pairs[k].push != pairs[m].push && pairs[k].pop != pairs[m].pop
          && (pairs[k].reg == pairs[m].reg ==> Apart(pairs[k].push, pairs[k].pop, pairs[m].push, pairs[m].pop)))
    && (forall k, m :: 0 <= k < |proms| && 0 <= m < |pairs| && proms[k].reg == pairs[m].reg ==>
          Apart(proms[k].first, proms[k].last, pairs[m].push, pairs[m].pop))
  }

  /** Pairs found so far end before i and begin at pushes that are no longer open. */
  predicate PairsBehind(pairs: seq<Pair>, i: int, stk: seq<int>) {
    forall k :: 0 <= k < |pairs| ==> pairs[k].push < pairs[k].pop < i && pairs[k].push !in stk
  }

  lemma PairAdded(arch: Arch, ops: seq<Op>, ext: seq<Reg>, proms: seq<Prom>, pairs: seq<Pair>, i: nat, stk: seq<int>,
      p: int, r: Reg)
    requires i < |ops| && ops[i].Pop? && stk != [] && p == stk[|stk| - 1] && OpenPushes(ops, i, stk) && p + 1 < i
    requires PairsFit(arch, ops, ext, proms, pairs) && PairsBehind(pairs, i, stk)
    requires 0 <= p && FreeAcross(ops, Claims(proms, pairs), p, i, r) && Straight(ops, p, i) && !HasIndirect(ops)
    requires
      if IsBorrowed(r) then arch == Arm64 && !CallsBetween(ops, p, i)
      else Usable(arch, ops, ext, r)
    ensures PairsFit(arch, ops, ext, proms, pairs + [Pair(p, i, r)])
    ensures PairsBehind(pairs + [Pair(p, i, r)], i + 1, stk[..|stk| - 1])
  {
    assert OpenPush(ops, i, p, 0);
    assert ValidPair(arch, ops, ext, Pair(p, i, r));
    var busy := Claims(proms, pairs);
    forall k | 0 <= k < |pairs| && pairs[k].reg == r
      ensures Apart(pairs[k].push, pairs[k].pop, p, i)
    {
      assert busy[|proms| + k] == Busy(r, pairs[k].push, pairs[k].pop);
    }
    forall k | 0 <= k < |proms| && proms[k].reg == r
      ensures Apart(proms[k].first, proms[k].last, p, i)
    {
      assert busy[k] == Busy(r, proms[k].first, proms[k].last);
    }
  }

  /** Chooses a register for the region p..i: the first candidate that is free, if one is. */
  method Choose(arch: Arch, ops: seq<Op>, used: set<Reg>, ext: seq<Reg>, busy: seq<Busy>, p: nat, i: nat)
    returns (found: bool, r: Reg)
    requires p < i < |ops|
    ensures (if found then Some(r) else Option.None) == PairReg(arch, ops, used, ext, busy, p, i)
  {
    hide FreeAcross, Straight, CallsBetween, Candidates;
    found, r := false, S0;
    var ok, call := ScanRegion(ops, p, i);
    if !ok { return; }
    var cands := Candidates(arch, used, ext, call);
    var ci := 0;
    while ci < |cands|
      invariant 0 <= ci <= |cands|
      invariant FirstFree(ops, busy, p, i, cands) == FirstFree(ops, busy, p, i, cands[ci..])
    {
      var free := IsFree(ops, busy, p, i, cands[ci]);
      if free {
        return true, cands[ci];
      }
      assert cands[ci..][1..] == cands[ci + 1..];
      ci := ci + 1;
    }
  }

  /** A register chosen for a region is a borrowed one on arm64, where the region makes no call, or a usable
      saved one. */
  lemma ChosenIsUsable(arch: Arch, ops: seq<Op>, used: set<Reg>, ext: seq<Reg>, busy: seq<Busy>, p: nat, i: nat)
    requires p < i < |ops| && UsedExact(ops, |ops|, used) && PairReg(arch, ops, used, ext, busy, p, i).Some?
    requires forall k :: 0 <= k < |ext| ==> Usable(arch, ops, ext, ext[k])
    ensures
      var r := PairReg(arch, ops, used, ext, busy, p, i).value;
      && Straight(ops, p, i) && FreeAcross(ops, busy, p, i, r)
      && if IsBorrowed(r) then arch == Arm64 && !CallsBetween(ops, p, i) else Usable(arch, ops, ext, r)
  {
    hide CallsBetween, FreeAcross, Straight, FirstFree, UsedExact, Usable, Candidates;
    var call := CallsBetween(ops, p, i);
    var cands, r := Candidates(arch, used, ext, call), PairReg(arch, ops, used, ext, busy, p, i).value;
    var c :| IsFirstFree(ops, busy, p, i, cands, c) && cands[c] == r;
    CandidateIsUsable(arch, ops, used, ext, call, r);
  }

  lemma CandidateIsUsable(arch: Arch, ops: seq<Op>, used: set<Reg>, ext: seq<Reg>, call: bool, r: Reg)
    requires UsedExact(ops, |ops|, used) && r in Candidates(arch, used, ext, call)
    requires forall k :: 0 <= k < |ext| ==> Usable(arch, ops, ext, ext[k])
    ensures if IsBorrowed(r) then arch == Arm64 && !call else Usable(arch, ops, ext, r)
  {
    assert r in ext || r in Candidates(arch, used, [], call);
  }

  // ---------- the matching ----------

  /** Where the matching stands: pushes still open, and the pairs made so far. */
  datatype Match = Match(stk: seq<int>, pairs: seq<Pair>) | Unbalanced

  function MatchPop(arch: Arch, ops: seq<Op>, used: set<Reg>, ext: seq<Reg>, proms: seq<Prom>, m: Match, i: int): Match
    requires 0 <= i < |ops| && m.Match?
  {
    if m.stk == [] then Unbalanced
    else
      var p, left := m.stk[|m.stk| - 1], m.stk[..|m.stk| - 1];
      if !(0 <= p < i) || p + 1 == i then Match(left, m.pairs)
      else match PairReg(arch, ops, used, ext, Claims(proms, m.pairs), p, i)
        case Some(r) => Match(left, m.pairs + [Pair(p, i, r)])
        case None => Match(left, m.pairs)
  }

  function MatchUpTo(arch: Arch, ops: seq<Op>, used: set<Reg>, ext: seq<Reg>, proms: seq<Prom>, i: int): Match
    requires 0 <= i <= |ops|
    decreases i
  {
    if i == 0 then Match([], [])
    else
      var m := MatchUpTo(arch, ops, used, ext, proms, i - 1);
      if m.Unbalanced? then Unbalanced
      else if ops[i - 1].Push? then Match(m.stk + [i - 1], m.pairs)
      else if ops[i - 1].Pop? then MatchPop(arch, ops, used, ext, proms, m, i - 1)
      else m
  }

  function PairsOf(arch: Arch, ops: seq<Op>, used: set<Reg>, ext: seq<Reg>, proms: seq<Prom>): seq<Pair> {
    var m := MatchUpTo(arch, ops, used, ext, proms, |ops|);
    if m.Match? && m.stk == [] then m.pairs else []
  }

  /** Rewrites what can be rewritten; an unbalanced record gives up every pair. */
  method MatchPairs(arch: Arch, ops: seq<Op>, used: set<Reg>, ext: seq<Reg>, proms: seq<Prom>)
      returns (pairs: seq<Pair>)
    requires UsedExact(ops, |ops|, used) && !HasIndirect(ops)
    requires forall k :: 0 <= k < |ext| ==> Usable(arch, ops, ext, ext[k])
    ensures PairsFit(arch, ops, ext, proms, pairs)
    ensures pairs == PairsOf(arch, ops, used, ext, proms)
  {
    hide PairsFit, PairsBehind, OpenPushes, UsedExact, HasIndirect, PairReg, Usable;
    pairs := [];
    var busy := seq(|proms|, k requires 0 <= k < |proms| => Busy(proms[k].reg, proms[k].first, proms[k].last));
    assert busy == Claims(proms, []);
    var stk: seq<int> := [];
    NoPairs(arch, ops, ext, proms);
    var i := 0;
    while i < |ops|
      invariant 0 <= i <= |ops| && OpenPushes(ops, i, stk)
      invariant PairsFit(arch, ops, ext, proms, pairs) && PairsBehind(pairs, i, stk) && busy == Claims(proms, pairs)
      invariant MatchUpTo(arch, ops, used, ext, proms, i) == Match(stk, pairs)
    {
      OpenPushesStep(ops, i, stk);
      StillBehind(pairs, i, stk);
      if ops[i].Push? {
        stk := stk + [i];
      } else if ops[i].Pop? {
        if stk == [] {
          StaysUnbalanced(arch, ops, used, ext, proms, i + 1, |ops|);
          NoPairs(arch, ops, ext, proms);
          return [];
        }
        var p := stk[|stk| - 1];
        TopIsOpen(ops, i, stk);
        if p + 1 < i {
          var found, r := Choose(arch, ops, used, ext, busy, p, i);
          if found {
            ChosenIsUsable(arch, ops, used, ext, busy, p, i);
            PairAdded(arch, ops, ext, proms, pairs, i, stk, p, r);
            ClaimsGrow(proms, pairs, Pair(p, i, r));
            pairs := pairs + [Pair(p, i, r)];
            busy := busy + [Busy(r, p, i)];
          }
        }
        stk := stk[..|stk| - 1];
      }
      i := i + 1;
    }
    if stk != [] {
      NoPairs(arch, ops, ext, proms);
      pairs := [];
    }
  }

  lemma ClaimsGrow(proms: seq<Prom>, pairs: seq<Pair>, pq: Pair)
    ensures Claims(proms, pairs + [pq]) == Claims(proms, pairs) + [Busy(pq.reg, pq.push, pq.pop)]
  {
  }

  lemma {:induction false} StaysUnbalanced(arch: Arch, ops: seq<Op>, used: set<Reg>, ext: seq<Reg>, proms: seq<Prom>,
      i: nat, n: nat)
    requires i <= n <= |ops| && MatchUpTo(arch, ops, used, ext, proms, i).Unbalanced?
    ensures MatchUpTo(arch, ops, used, ext, proms, n).Unbalanced?
    decreases n
  {
    if i < n { StaysUnbalanced(arch, ops, used, ext, proms, i, n - 1); }
  }

  lemma NoPairs(arch: Arch, ops: seq<Op>, ext: seq<Reg>, proms: seq<Prom>)
    ensures PairsFit(arch, ops, ext, proms, []) && PairsBehind([], 0, []) && OpenPushes(ops, 0, [])
  {
  }

  lemma StillBehind(pairs: seq<Pair>, i: int, stk: seq<int>)
    requires PairsBehind(pairs, i, stk)
    ensures PairsBehind(pairs, i + 1, stk) && PairsBehind(pairs, i + 1, stk + [i])
    ensures stk != [] ==> PairsBehind(pairs, i + 1, stk[..|stk| - 1])
  {
  }

  lemma TopIsOpen(ops: seq<Op>, i: nat, stk: seq<int>)
    requires i <= |ops| && stk != [] && OpenPushes(ops, i, stk)
    ensures 0 <= stk[|stk| - 1] < i
  {
    assert OpenPush(ops, i, stk[|stk| - 1], 0);
  }

  // ---------- what the matching means ----------

  /** Pushes minus pops among the first n ops. */
  function Depth(ops: seq<Op>, n: int): int
    requires 0 <= n <= |ops|
    decreases n
  {
    if n == 0 then 0 else Depth(ops, n - 1) + (if ops[n - 1].Push? then 1 else if ops[n - 1].Pop? then -1 else 0)
  }

  predicate NeverBelow(ops: seq<Op>, n: int)
    requires 0 <= n <= |ops|
  {
    forall k :: 0 <= k <= n ==> Depth(ops, k) >= 0
  }

  predicate Balanced(ops: seq<Op>) {
    NeverBelow(ops, |ops|) && Depth(ops, |ops|) == 0
  }

  /** The pop at i takes back what the push at p has pushed. */
  predicate Matched(ops: seq<Op>, p: int, i: int) {
    && 0 <= p < i < |ops| && ops[p].Push? && ops[i].Pop? && Nest(ops, p, i) == 0
    && forall q {:trigger Nest(ops, p, q)} :: p < q <= i ==> Nest(ops, p, q) >= 0
  }

  lemma {:induction false} MatchDepth(arch: Arch, ops: seq<Op>, used: set<Reg>, ext: seq<Reg>, proms: seq<Prom>, n: nat)
    requires n <= |ops|
    ensures var m := MatchUpTo(arch, ops, used, ext, proms, n);
      (m.Match? <==> NeverBelow(ops, n)) && (m.Match? ==> |m.stk| == Depth(ops, n))
    decreases n
  {
    hide PairReg;
    if n > 0 {
      MatchDepth(arch, ops, used, ext, proms, n - 1);
      assert NeverBelow(ops, n) <==> NeverBelow(ops, n - 1) && Depth(ops, n) >= 0;
    }
  }

  /** A push that is open before position n is on the stack, under what has been pushed since and not popped. */
  lemma {:induction false} OpenIsOnStack(arch: Arch, ops: seq<Op>, used: set<Reg>, ext: seq<Reg>, proms: seq<Prom>,
      p: nat, n: nat)
    requires p < n <= |ops| && MatchUpTo(arch, ops, used, ext, proms, n).Match? && ops[p].Push?
    requires forall q {:trigger Nest(ops, p, q)} :: p < q <= n ==> Nest(ops, p, q) >= 0
    ensures var stk := MatchUpTo(arch, ops, used, ext, proms, n).stk;
      Nest(ops, p, n) < |stk| && stk[|stk| - 1 - Nest(ops, p, n)] == p
    decreases n
  {
    hide PairReg;
    if p + 1 < n {
      assert Nest(ops, p, n - 1) >= 0;
      OpenIsOnStack(arch, ops, used, ext, proms, p, n - 1);
    }
  }

  /** Pairs are kept in the order of their pops. */
  lemma {:induction false} PairsStay(arch: Arch, ops: seq<Op>, used: set<Reg>, ext: seq<Reg>, proms: seq<Prom>, n: nat,
      m: nat)
    requires n <= m <= |ops| && MatchUpTo(arch, ops, used, ext, proms, m).Match?
    ensures MatchUpTo(arch, ops, used, ext, proms, n).Match?
    ensures
      var before, after := MatchUpTo(arch, ops, used, ext, proms, n).pairs,
        MatchUpTo(arch, ops, used, ext, proms, m).pairs;
      before <= after && forall k :: |before| <= k < |after| ==> n <= after[k].pop < m
    decreases m
  {
    hide PairReg;
    if n < m { PairsStay(arch, ops, used, ext, proms, n, m - 1); }
  }

  /** Behind the first k pairs, which end before i, comes the pair of p and i if it gets a register, or a later one. */
  predicate FirstFitAt(arch: Arch, ops: seq<Op>, used: set<Reg>, ext: seq<Reg>, proms: seq<Prom>, pairs: seq<Pair>,
      p: int, i: int, k: int)
    requires 0 <= p < i < |ops|
  {
    && 0 <= k <= |pairs| && (forall j :: 0 <= j < k ==> pairs[j].pop < i)
    && (forall j :: k < j < |pairs| ==> pairs[j].pop > i)
    && match PairReg(arch, ops, used, ext, Claims(proms, pairs[..k]), p, i)
       case Some(r) => k < |pairs| && pairs[k] == Pair(p, i, r)
       case None => k < |pairs| ==> pairs[k].pop > i
  }

  lemma PopMatches(arch: Arch, ops: seq<Op>, used: set<Reg>, ext: seq<Reg>, proms: seq<Prom>, p: nat, i: nat)
    requires Matched(ops, p, i) && p + 1 < i && MatchUpTo(arch, ops, used, ext, proms, i).Match?
    ensures
      var before, after := MatchUpTo(arch, ops, used, ext, proms, i), MatchUpTo(arch, ops, used, ext, proms, i + 1);
      && after.Match?
      && after.pairs == match PairReg(arch, ops, used, ext, Claims(proms, before.pairs), p, i)
           case Some(r) => before.pairs + [Pair(p, i, r)]
           case None => before.pairs
  {
    hide PairReg;
    OpenIsOnStack(arch, ops, used, ext, proms, p, i);
  }

  /** In a balanced record every push and its pop, unless adjacent, go through the first register that is free all the
      way given the promotions and the pairs that end earlier; they stay on the stack only if none is, or if the region
      is not straight.  In any other record nothing is paired. */
  lemma PairsAreFirstFit(arch: Arch, ops: seq<Op>, used: set<Reg>, ext: seq<Reg>, proms: seq<Prom>, p: nat, i: nat)
    requires Matched(ops, p, i) && p + 1 < i
    ensures var pairs := PairsOf(arch, ops, used, ext, proms);
      if Balanced(ops) then exists k :: FirstFitAt(arch, ops, used, ext, proms, pairs, p, i, k) else pairs == []
  {
    hide PairReg, MatchUpTo, Matched;
    MatchDepth(arch, ops, used, ext, proms, |ops|);
    if Balanced(ops) {
      hide Balanced;
      var pairs := PairsOf(arch, ops, used, ext, proms);
      assert i < |ops| by { MatchedInside(ops, p, i); }
      PairsStay(arch, ops, used, ext, proms, i + 1, |ops|);
      PairsStay(arch, ops, used, ext, proms, i, i + 1);
      PairsStay(arch, ops, used, ext, proms, 0, i);
      NothingMatched(arch, ops, used, ext, proms);
      PopMatches(arch, ops, used, ext, proms, p, i);
      var before := MatchUpTo(arch, ops, used, ext, proms, i).pairs;
      assert pairs[..|before|] == before;
      assert FirstFitAt(arch, ops, used, ext, proms, pairs, p, i, |before|);
    }
  }

  lemma MatchedInside(ops: seq<Op>, p: int, i: int)
    requires Matched(ops, p, i)
    ensures 0 <= p < i < |ops|
  {
  }

  lemma NothingMatched(arch: Arch, ops: seq<Op>, used: set<Reg>, ext: seq<Reg>, proms: seq<Prom>)
    ensures MatchUpTo(arch, ops, used, ext, proms, 0) == Match([], [])
  {
  }

  // ---------- the decision ----------

  lemma WidenedIsClosed(ops: seq<Op>, edges: seq<Edge>, s: Slot)
    requires UniqueLabels(ops) && EdgesExact(ops, |ops|, edges) && KeepsEdges(s.first, s.last, edges)
    requires !HasIndirect(ops)
    ensures Closed(ops, s.first, s.last)
  {
    EdgesAreBackEdges(ops, edges);
    forall t, j | BackEdge(ops, t, j) && s.first <= j && t <= s.last
      ensures s.first <= t && j <= s.last
    {
      var e :| 0 <= e < |edges| && edges[e] == Edge(t, j);
      assert EdgeKept(s.first, s.last, edges[e]);
    }
  }

  lemma PooledIsFree(arch: Arch, ops: seq<Op>, used: set<Reg>, hasCall: bool, ext: seq<Reg>, r: Reg)
    requires UsedExact(ops, |ops|, used) && (hasCall <==> HasCall(ops)) && r in Pool(arch, used, hasCall)
    requires Extra(r) ==> r in ext
    ensures Usable(arch, ops, ext, r)
  {
    var p :| 0 <= p < |Pool(arch, used, hasCall)| && Pool(arch, used, hasCall)[p] == r;
    assert Poolable(arch, used, hasCall, r);
  }

  /** Slots with their final intervals: what the scan found, widened. */
  ghost predicate FinalSlots(ops: seq<Op>, raw: seq<Slot>, slots: seq<Slot>) {
    && SlotsExact(ops, |ops|, raw) && |slots| == |raw|
    && forall k :: 0 <= k < |raw| ==>
         slots[k].off == raw[k].off && slots[k].first <= raw[k].first && raw[k].last <= slots[k].last
         && InRange(slots[k], |ops|) && Closed(ops, slots[k].first, slots[k].last)
  }

  predicate PromsApart(proms: seq<Prom>) {
    forall m, o :: 0 <= m < o < |proms| ==>
      && proms[m].off != proms[o].off
      && (proms[m].reg == proms[o].reg ==> Apart(proms[m].first, proms[m].last, proms[o].first, proms[o].last))
  }

  lemma AllocatedIsValid(arch: Arch, ops: seq<Op>, used: set<Reg>, hasCall: bool, raw: seq<Slot>, slots: seq<Slot>,
                         proms: seq<Prom>, ext: seq<Reg>, from: seq<int>, into: seq<int>)
    requires UsedExact(ops, |ops|, used) && (hasCall <==> HasCall(ops)) && FinalSlots(ops, raw, slots)
    requires Allocated(slots, Pool(arch, used, hasCall), proms, from, into)
    requires ExtFits(proms, ext)
    ensures forall m :: 0 <= m < |proms| ==> ValidProm(arch, ops, ext, proms[m])
    ensures PromsApart(proms)
  {
    var pool := Pool(arch, used, hasCall);
    forall m | 0 <= m < |proms|
      ensures ValidProm(arch, ops, ext, proms[m])
    {
      assert Gives(slots, pool, proms[m], from[m], into[m]) && SlotExact(ops, |ops|, raw[from[m]]);
      PooledIsFree(arch, ops, used, hasCall, ext, proms[m].reg);
    }
    forall m, o | 0 <= m < o < |proms|
      ensures proms[m].off != proms[o].off
      ensures proms[m].reg == proms[o].reg ==> proms[m].last < proms[o].first
    {
      assert Gives(slots, pool, proms[m], from[m], into[m]) && Gives(slots, pool, proms[o], from[o], into[o]);
      assert raw[from[m]].off != raw[from[o]].off;
    }
  }

  lemma ExtIsUsable(arch: Arch, ops: seq<Op>, used: set<Reg>, hasCall: bool, slots: seq<Slot>, proms: seq<Prom>,
      ext: seq<Reg>, from: seq<int>, into: seq<int>)
    requires UsedExact(ops, |ops|, used) && (hasCall <==> HasCall(ops))
    requires Allocated(slots, Pool(arch, used, hasCall), proms, from, into) && ExtFits(proms, ext)
    ensures forall k :: 0 <= k < |ext| ==> Extra(ext[k]) && Usable(arch, ops, ext, ext[k])
  {
    var pool := Pool(arch, used, hasCall);
    forall k | 0 <= k < |ext|
      ensures Usable(arch, ops, ext, ext[k])
    {
      assert Takes(proms, ext[k]);
      var m :| 0 <= m < |proms| && proms[m].reg == ext[k];
      assert Gives(slots, pool, proms[m], from[m], into[m]);
      PooledIsFree(arch, ops, used, hasCall, ext, ext[k]);
    }
  }

  const NO_PLAN := Plan([], [], [])

  predicate SomeBails(ops: seq<Op>) {
    exists i :: 0 <= i < |ops| && Bails(ops[i])
  }

  /** The intervals the slots are given: the least ones around their accesses that contain or miss every loop. */
  ghost predicate Intervals(ops: seq<Op>, raw: seq<Slot>, slots: seq<Slot>, edges: seq<Edge>) {
    && |slots| == |raw|
    && (HasIndirect(ops) ==> forall k :: 0 <= k < |raw| ==> slots[k] == raw[k].(first := 0, last := |ops| - 1))
    && (!HasIndirect(ops) ==> AllWidened(raw, slots, |ops|, edges))
    && (!HasIndirect(ops) ==> forall k :: 0 <= k < |slots| ==> KeepsEdges(slots[k].first, slots[k].last, edges))
  }

  /** The plan's promotions are the linear scan of the slots, and its pairs the first-fit matching around them. */
  ghost predicate Analysis(arch: Arch, ops: seq<Op>, plan: Plan, raw: seq<Slot>, slots: seq<Slot>, used: set<Reg>,
      edges: seq<Edge>, from: seq<int>, into: seq<int>)
  {
    var pool := Pool(arch, used, HasCall(ops));
    && SlotsExact(ops, |ops|, raw) && UsedExact(ops, |ops|, used) && EdgesExact(ops, |ops|, edges)
    && Intervals(ops, raw, slots, edges) && Allocated(slots, pool, plan.proms, from, into)
    && (forall k :: 0 <= k < |slots| ==> Served(slots, pool, plan.proms, from, into, k))
    && ExtFits(plan.proms, plan.ext)
    && plan.pairs == if HasIndirect(ops) then [] else PairsOf(arch, ops, used, plan.ext, plan.proms)
  }

  ghost predicate Analysed(arch: Arch, ops: seq<Op>, plan: Plan) {
    exists raw, slots, used, edges, from, into :: Analysis(arch, ops, plan, raw, slots, used, edges, from, into)
  }

  /** endRecord's analysis: scan, widen, allocate, match.  The plan is valid for every record with unique labels. */
  method Decide(arch: Arch, ops: seq<Op>) returns (plan: Plan)
    ensures UniqueLabels(ops) ==> ValidPlan(arch, ops, plan)
    ensures if SomeBails(ops) then plan == NO_PLAN else Analysed(arch, ops, plan)
  {
    hide SlotsExact, UsedExact, EdgesExact, Served, Allocated, ExtFits, Closed, Usable, HasIndirect, HasCall, PairsOf,
      PairsFit, AllWidened, KeepsEdges, Pool;
    plan := NO_PLAN;
    var bail, raw, used, hasCall, hasIndirect, edges := Scan(ops);
    if bail { return; }
    RawInRange(ops, raw);
    EdgesForward(ops, edges);
    var slots := Widen(|ops|, raw, edges, hasIndirect);
    StillInRange(ops, raw, slots, edges);
    var proms, ext, from, into := LinearScan(slots, Pool(arch, used, hasCall));
    ExtIsUsable(arch, ops, used, hasCall, slots, proms, ext, from, into);
    var pairs: seq<Pair> := [];
    if !hasIndirect {
      pairs := MatchPairs(arch, ops, used, ext, proms);
    }
    plan := Plan(proms, ext, pairs);
    if UniqueLabels(ops) {
      hide UniqueLabels;
      FinalSlotsHold(ops, raw, slots, edges);
      AllocatedIsValid(arch, ops, used, hasCall, raw, slots, proms, ext, from, into);
      EachOnce(proms, ext);
      PlanParts(arch, ops, plan);
    }
    assert Analysis(arch, ops, plan, raw, slots, used, edges, from, into);
  }

  lemma EdgesForward(ops: seq<Op>, edges: seq<Edge>)
    requires EdgesExact(ops, |ops|, edges)
    ensures forall e :: 0 <= e < |edges| ==> 0 <= edges[e].target < edges[e].jump < |ops|
  {
  }

  lemma StillInRange(ops: seq<Op>, raw: seq<Slot>, slots: seq<Slot>, edges: seq<Edge>)
    requires Intervals(ops, raw, slots, edges) && forall k :: 0 <= k < |raw| ==> InRange(raw[k], |ops|)
    ensures forall k :: 0 <= k < |slots| ==> InRange(slots[k], |ops|)
  {
    if !HasIndirect(ops) {
      forall k | 0 <= k < |slots| ensures InRange(slots[k], |ops|) { assert Widened(raw[k], slots[k], |ops|, edges); }
    }
  }

  /** A slot stays in memory only if, for every register that could be handed out, it is accessed too rarely or another
      promotion is in the way of every interval it could have. */
  lemma LeftInMemory(arch: Arch, ops: seq<Op>, plan: Plan, i: nat, off: int, r: Reg, lo: int, hi: int)
    requires Analysed(arch, ops, plan) && i < |ops| && Accesses(ops[i], off)
    requires forall k :: 0 <= k < |plan.proms| ==> plan.proms[k].off != off
    requires IsSaved(r) && Unused(ops, r) && (r.S5? ==> arch == Arm64 && !HasCall(ops))
    requires Closed(ops, lo, hi)
    requires forall j {:trigger Accesses(ops[j], off)} :: 0 <= j < |ops| && Accesses(ops[j], off) ==> lo <= j <= hi
    ensures
      || Uses(ops, |ops|, off) < MinUse(r)
      || exists m :: 0 <= m < |plan.proms| && plan.proms[m].reg == r
           && !Apart(plan.proms[m].first, plan.proms[m].last, lo, hi)
  {
    var raw: seq<Slot>, slots: seq<Slot>, used, edges, from, into :|
      Analysis(arch, ops, plan, raw, slots, used, edges, from, into);
    hide Intervals, SlotsExact, SlotExact, UsedExact, EdgesExact, Allocated, Served, ExtFits, PairsOf, Pool, Closed,
      Uses,
      MinUse, HasCall, HasIndirect, RefusedBelow, Refused, Accesses, Unused;
    var pool := Pool(arch, used, HasCall(ops));
    var k := SlotOf(ops, raw, i, off);
    InsideClosed(ops, raw, slots, edges, k, lo, hi);
    assert r in pool by { Offered(arch, ops, used, r); }
    var p :| 0 <= p < |pool| && pool[p] == r;
    NotAllocated(slots, pool, plan.proms, from, into, k);
    RefusedAt(slots, pool, plan.proms, from, into, k, p);
    InTheWay(slots, pool, plan.proms, from, into, k, p, lo, hi);
  }

  lemma InTheWay(slots: seq<Slot>, pool: seq<Reg>, proms: seq<Prom>, from: seq<int>, into: seq<int>, k: nat, p: nat,
      lo: int, hi: int)
    requires Allocated(slots, pool, proms, from, into) && k < |slots| && p < |pool|
    requires Refused(slots, pool, proms, from, into, k, p) && lo <= slots[k].first <= hi
    ensures
      || slots[k].count < MinUse(pool[p])
      || exists m :: 0 <= m < |proms| && proms[m].reg == pool[p] && !Apart(proms[m].first, proms[m].last, lo, hi)
  {
    hide MinUse;
    if slots[k].count >= MinUse(pool[p]) {
      var m :| 0 <= m < |proms| && into[m] == p && from[m] != k && proms[m].first <= slots[k].first <= proms[m].last;
      assert Gives(slots, pool, proms[m], from[m], into[m]);
    }
  }

  lemma SlotOf(ops: seq<Op>, raw: seq<Slot>, i: nat, off: int) returns (k: nat)
    requires i < |ops| && Accesses(ops[i], off) && SlotsExact(ops, |ops|, raw)
    ensures k < |raw| && raw[k].off == off && SlotExact(ops, |ops|, raw[k])
    ensures Accesses(ops[raw[k].first], off) && Accesses(ops[raw[k].last], off) && raw[k].count == Uses(ops, |ops|, off)
    ensures 0 <= raw[k].first < |ops| && 0 <= raw[k].last < |ops|
  {
    assert TouchesFrame(ops[i]) && ops[i].off == off;
    k :| 0 <= k < |raw| && raw[k].off == off;
  }

  lemma RefusedAt(slots: seq<Slot>, pool: seq<Reg>, proms: seq<Prom>, from: seq<int>, into: seq<int>, k: nat, p: nat)
    requires k < |slots| && |from| == |into| == |proms| && RefusedBelow(slots, pool, proms, from, into, k, |pool|)
    requires p < |pool|
    ensures Refused(slots, pool, proms, from, into, k, p)
  {
  }

  lemma Offered(arch: Arch, ops: seq<Op>, used: set<Reg>, r: Reg)
    requires UsedExact(ops, |ops|, used) && IsSaved(r) && Unused(ops, r) && (r.S5? ==> arch == Arm64 && !HasCall(ops))
    ensures r in Pool(arch, used, HasCall(ops))
  {
    assert Poolable(arch, used, HasCall(ops), r);
  }

  lemma InsideClosed(ops: seq<Op>, raw: seq<Slot>, slots: seq<Slot>, edges: seq<Edge>, k: nat, lo: int, hi: int)
    requires Intervals(ops, raw, slots, edges) && EdgesExact(ops, |ops|, edges) && k < |raw|
    requires SlotExact(ops, |ops|, raw[k]) && Closed(ops, lo, hi) && lo <= raw[k].first && raw[k].last <= hi
    ensures lo <= slots[k].first <= slots[k].last <= hi && slots[k].off == raw[k].off && slots[k].count == raw[k].count
  {
    EdgesAreBackEdges(ops, edges);
    if !HasIndirect(ops) {
      assert Widened(raw[k], slots[k], |ops|, edges);
      forall e | 0 <= e < |edges|
        ensures EdgeKept(lo, hi, edges[e])
      {
        assert BackEdge(ops, edges[e].target, edges[e].jump);
      }
      assert KeepsEdges(lo, hi, edges);
    }
  }

  lemma NotAllocated(slots: seq<Slot>, pool: seq<Reg>, proms: seq<Prom>, from: seq<int>, into: seq<int>, k: nat)
    requires Allocated(slots, pool, proms, from, into) && k < |slots| && Served(slots, pool, proms, from, into, k)
    requires forall m :: 0 <= m < |proms| ==> proms[m].off != slots[k].off
    ensures RefusedBelow(slots, pool, proms, from, into, k, |pool|)
  {
    forall m | 0 <= m < |proms|
      ensures from[m] != k
    {
      assert Gives(slots, pool, proms[m], from[m], into[m]);
    }
  }

  lemma RawInRange(ops: seq<Op>, raw: seq<Slot>)
    requires SlotsExact(ops, |ops|, raw)
    ensures forall k :: 0 <= k < |raw| ==> InRange(raw[k], |ops|)
  {
    forall k | 0 <= k < |raw| ensures InRange(raw[k], |ops|) { assert SlotExact(ops, |ops|, raw[k]); }
  }

  lemma FinalSlotsHold(ops: seq<Op>, raw: seq<Slot>, slots: seq<Slot>, edges: seq<Edge>)
    requires UniqueLabels(ops) && EdgesExact(ops, |ops|, edges) && SlotsExact(ops, |ops|, raw)
    requires Intervals(ops, raw, slots, edges) && forall k :: 0 <= k < |raw| ==> InRange(raw[k], |ops|)
    ensures FinalSlots(ops, raw, slots)
  {
    forall k | 0 <= k < |raw|
      ensures Closed(ops, slots[k].first, slots[k].last)
    {
      if !HasIndirect(ops) { WidenedIsClosed(ops, edges, slots[k]); }
    }
  }

  lemma EachOnce(proms: seq<Prom>, ext: seq<Reg>)
    requires ExtFits(proms, ext)
    ensures forall k, m :: 0 <= k < m < |ext| ==> ext[k] != ext[m]
  {
  }

  lemma PlanParts(arch: Arch, ops: seq<Op>, plan: Plan)
    requires forall k :: 0 <= k < |plan.proms| ==> ValidProm(arch, ops, plan.ext, plan.proms[k])
    requires PromsApart(plan.proms)
    requires forall k :: 0 <= k < |plan.ext| ==> Extra(plan.ext[k]) && Usable(arch, ops, plan.ext, plan.ext[k])
    requires forall k, m :: 0 <= k < m < |plan.ext| ==> plan.ext[k] != plan.ext[m]
    requires plan.pairs == [] || PairsFit(arch, ops, plan.ext, plan.proms, plan.pairs)
    ensures ValidPlan(arch, ops, plan)
  {
  }

  // ---------- the machine ----------

  /** `emitted` is the sequence of calls that have reached the backend. */
  class VirtualMachine {
    const arch: Arch
    var recN: int
    var rec: array?<Op>
    var emitted: seq<Op>

    ghost predicate Valid()
      reads this
    {
      -1 <= recN <= REC_CAP && (rec != null ==> rec.Length == REC_CAP) && (recN >= 0 ==> rec != null)
    }

    /** Calls buffered but not yet made. */
    ghost function Pending(): seq<Op>
      requires Valid()
      reads this, rec
    {
      if recN < 0 then [] else rec[..recN]
    }

    /** Every call issued so far, in order, when nothing has been rewritten. */
    ghost function Journal(): seq<Op>
      requires Valid()
      reads this, rec
    {
      emitted + Pending()
    }

    constructor (arch: Arch)
      ensures Valid() && Journal() == [] && recN == -1 && this.arch == arch
    {
      this.arch := arch;
      recN, rec, emitted := -1, null, [];
    }

    /** Any op of the virtual machine: buffered while there is room, otherwise passed on. */
    method Issue(op: Op)
      requires Valid()
      modifies this, rec
      ensures Valid() && rec == old(rec)
      ensures Journal() == old(Journal()) + [op]
      ensures if 0 <= old(recN) < REC_CAP then recN == old(recN) + 1 && emitted == old(emitted) else recN == -1
      ensures old(recN) < 0 ==> emitted == old(emitted) + [op]
      ensures old(recN) < 0 && rec != null ==> rec[..] == old(if rec == null then [] else rec[..])
      decreases if recN >= 0 then 1 else 0, 1
    {
      if recN >= 0 {
        if recN < REC_CAP {
          rec[recN] := op;
          recN := recN + 1;
          assert Pending() == old(Pending()) + [op];
          return;
        }
        FlushRecordVerbatim();
      }
      emitted := emitted + [op];
    }

    /** Gives up on the current record: its ops are passed on unchanged. */
    method FlushRecordVerbatim()
      requires Valid() && recN >= 0
      modifies this, rec
      ensures Valid() && rec == old(rec) && recN == -1
      ensures emitted == old(Journal())
      decreases 1, 0
    {
      var cnt := recN;
      recN := -1;
      var i := 0;
      while i < cnt
        invariant 0 <= i <= cnt && recN == -1 && rec == old(rec) && rec != null && rec.Length == REC_CAP && Valid()
        invariant rec[..] == old(rec[..])
        invariant emitted == old(emitted) + old(rec[..cnt])[..i]
      {
        Issue(rec[i]);
        i := i + 1;
      }
    }

    /** Starts a record; a record in progress is flushed first. */
    method BeginRecord()
      requires Valid()
      modifies this, rec
      ensures Valid() && recN == 0 && Pending() == []
      ensures emitted == old(Journal())
      ensures rec == old(rec) || fresh(rec)
    {
      if recN >= 0 {
        FlushRecordVerbatim();
      }
      if rec == null {
        rec := new Op[REC_CAP](_ => Nop);
      }
      recN := 0;
    }

    /** Ends a record: what reaches the backend is the compact replay under a plan that is valid for the record. */
    method EndRecord() returns (ghost plan: Plan)
      requires Valid()
      modifies this, rec
      ensures Valid() && recN == -1 && rec == old(rec)
      ensures old(recN) < 0 ==> emitted == old(emitted)
      ensures old(recN) >= 0 ==>
        && emitted == old(emitted) + Compact(Replayed(arch, plan, old(Pending())))
        && (UniqueLabels(old(Pending())) ==> ValidPlan(arch, old(Pending()), plan))
        && (if SomeBails(old(Pending())) then plan == NO_PLAN else Analysed(arch, old(Pending()), plan))
    {
      hide ValidPlan, UniqueLabels, SomeBails, Analysed, Replayed, Compact;
      plan := NO_PLAN;
      if recN < 0 { return; }
      var ops := rec[..recN];
      recN := -1;
      var chosen := Decide(arch, ops);
      plan := chosen;
      ReplayAll(chosen, ops);
    }

    /** The replay loop: every op, rewritten or not, goes through the direct path. */
    method ReplayAll(plan: Plan, ops: seq<Op>)
      requires Valid() && recN == -1
      modifies this, rec
      ensures Valid() && recN == -1 && rec == old(rec)
      ensures emitted == old(emitted) + Compact(Replayed(arch, plan, ops))
    {
      hide Rewrite;
      ghost var out := Replayed(arch, plan, ops);
      var i := 0;
      while i < |ops|
        invariant 0 <= i <= |ops| && Valid() && recN == -1 && rec == old(rec)
        invariant emitted == old(emitted) + Compact(out[..i])
      {
        assert out[..i + 1] == out[..i] + [out[i]];
        CompactAppend(out[..i], out[i]);
        var now := Rewrite(arch, plan, ops[i], i);
        if !now.Skip? {
          Issue(now);
        }
        i := i + 1;
      }
      assert out[..|ops|] == out;
    }
  }
}
