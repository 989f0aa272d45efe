/** The 2M hugepage budget of each NUMA node, and the memory bound it gives the allocator. */
module Hugepages {
  import opened Wrappers
  import opened Words
  import opened Numa

  /** Pages to reserve on one node. The product is a 32-bit multiplication that wraps. */
  function Compute2mBudget(ramMb: U32, existing1g: U32, headroomMb: U32, capMb: U32): U32 {
    var nodeCap := Min(capMb, SatSub(ramMb, headroomMb));
    var reserved1gMb := existing1g * 1024 % TWO32;
    SatSub(nodeCap, reserved1gMb) / 2
  }

  function TotalRam(nodes: seq<Node>): U32 {
    if nodes == [] then 0 else (TotalRam(nodes[..|nodes| - 1]) + nodes[|nodes| - 1].ramMb) % TWO32
  }

  function EffectiveLimit(nodes: seq<Node>, limitMb: Option<U32>): U32 {
    match limitMb
    case Some(l) => l
    case None => TotalRam(nodes)
  }

  lemma DivisionBound(a: nat, n: nat)
    requires n > 0
    ensures a / n >= 0 && a / n * n <= a < a / n * n + n
  {
    assert a == a / n * n + a % n;
  }

  lemma FactorBound(q: nat, n: nat)
    requires n > 0
    ensures q <= q * n
  {
  }

  /** An even share of the limit: the largest that n nodes can have. */
  function PerNode(limitMb: U32, n: nat): (cap: U32)
    requires n > 0
    ensures cap * n <= limitMb < cap * n + n
  {
    DivisionBound(limitMb, n);
    FactorBound(limitMb / n, n);
    limitMb / n
  }

  function CapOf(nodes: seq<Node>, limitMb: Option<U32>): U32
    requires |nodes| < TWO32
  {
    if nodes == [] then 0 else PerNode(EffectiveLimit(nodes, limitMb), |nodes|)
  }

  function Budget(n: Node, headroomMb: U32, capMb: U32): U32 {
    Compute2mBudget(n.ramMb, n.total1g, headroomMb, capMb)
  }

  /** The node was given a budget and the kernel answered. */
  predicate Granted(n: Node, headroomMb: U32, capMb: U32, grant: Option<U32>) {
    Budget(n, headroomMb, capMb) > 0 && grant.Some?
  }

  /** A granted node takes the count that was read back; any other keeps its old one. */
  function NodeAfter(n: Node, headroomMb: U32, capMb: U32, grant: Option<U32>): Node {
    if Granted(n, headroomMb, capMb, grant) then n.(total2m := grant.value) else n
  }

  function Budgeted(nodes: seq<Node>, headroomMb: U32, limitMb: Option<U32>, grants: seq<Option<U32>>): (r: seq<Node>)
    requires |nodes| == |grants| < TWO32
    ensures |r| == |nodes|
  {
    var cap := CapOf(nodes, limitMb);
    seq(|nodes|, i requires 0 <= i < |nodes| => NodeAfter(nodes[i], headroomMb, cap, grants[i]))
  }

  method SumRam(nodes: array<Node>) returns (totalRam: U32)
    ensures totalRam == TotalRam(nodes[..])
  {
    totalRam := 0;
    for i := 0 to nodes.Length
      invariant totalRam == TotalRam(nodes[..i])
    {
      assert nodes[..i + 1][..i] == nodes[..i];
      totalRam := (totalRam + nodes[i].ramMb) % TWO32;
    }
    assert nodes[..nodes.Length] == nodes[..];
  }

  /** The loop body for one node; the result says whether it had a budget and was refused. */
  method AllocateOnNode(nodes: array<Node>, i: nat, headroomMb: U32, perNodeCap: U32, grant: Option<U32>)
    returns (budgeted: bool, failed: bool)
    requires i < nodes.Length
    modifies nodes
    ensures nodes[i] == NodeAfter(old(nodes[i]), headroomMb, perNodeCap, grant)
    ensures forall j :: 0 <= j < nodes.Length && j != i ==> nodes[j] == old(nodes[j])
    ensures budgeted == (Budget(old(nodes[i]), headroomMb, perNodeCap) > 0)
    ensures failed == (budgeted && !Granted(old(nodes[i]), headroomMb, perNodeCap, grant))
  {
    var desired := Compute2mBudget(nodes[i].ramMb, nodes[i].total1g, headroomMb, perNodeCap);
    if desired == 0 {
      return false, false;
    }
    match grant
    case Some(actual) =>
      nodes[i] := nodes[i].(total2m := actual);
      return true, false;
    case None =>
      return true, true;
  }

  /** Among the first n nodes: (those with a budget, those with a budget but no grant). */
  function Tally(nodes: seq<Node>, headroomMb: U32, capMb: U32, grants: seq<Option<U32>>, n: nat): (t: (nat, nat))
    requires n <= |nodes| == |grants|
  {
    if n == 0 then (0, 0)
    else
      var t := Tally(nodes, headroomMb, capMb, grants, n - 1);
      var budgeted := Budget(nodes[n - 1], headroomMb, capMb) > 0;
      (t.0 + if budgeted then 1 else 0, t.1 + if budgeted && grants[n - 1].None? then 1 else 0)
  }

  /** The failure report: something was budgeted and nothing budgeted was granted. */
  lemma {:induction false} TallyMeans(nodes: seq<Node>, headroomMb: U32, capMb: U32, grants: seq<Option<U32>>, n: nat)
    requires n <= |nodes| == |grants|
    ensures var t := Tally(nodes, headroomMb, capMb, grants, n);
            && t.1 <= t.0
            && (t.0 > 0 <==> exists i :: 0 <= i < n && Budget(nodes[i], headroomMb, capMb) > 0)
            && (t.1 == t.0 <==> forall i :: 0 <= i < n ==> !Granted(nodes[i], headroomMb, capMb, grants[i]))
  {
    if n > 0 {
      TallyMeans(nodes, headroomMb, capMb, grants, n - 1);
    }
  }

  /** Reserve 2M pages on every node. grants[i] is the kernel's answer for node i: the count
      read back after the write, or None when writing or reading failed. */
  method AllocateHugepages(nodes: array<Node>, headroomMb: U32, limitMb: Option<U32>, grants: seq<Option<U32>>)
    returns (ok: bool)
    requires nodes.Length == |grants| < TWO32
    modifies nodes
    ensures nodes[..] == Budgeted(old(nodes[..]), headroomMb, limitMb, grants)
    ensures var t := Tally(old(nodes[..]), headroomMb, CapOf(old(nodes[..]), limitMb), grants, nodes.Length);
            ok == !(t.1 > 0 && t.1 == t.0)
  {
    ghost var before := nodes[..];
    if nodes.Length == 0 {
      return true;
    }
    var totalRam := SumRam(nodes);
    var effectiveLimit := if limitMb.Some? then limitMb.value else totalRam;
    var perNodeCap := PerNode(effectiveLimit, nodes.Length);
    var failedNodes, totalNodes := 0, 0;
    for i := 0 to nodes.Length
      invariant forall j :: i <= j < nodes.Length ==> nodes[j] == before[j]
      invariant forall j :: 0 <= j < i ==> nodes[j] == NodeAfter(before[j], headroomMb, perNodeCap, grants[j])
      invariant (totalNodes, failedNodes) == Tally(before, headroomMb, perNodeCap, grants, i)
    {
      var budgeted, failed := AllocateOnNode(nodes, i, headroomMb, perNodeCap, grants[i]);
      totalNodes := totalNodes + if budgeted then 1 else 0;
      failedNodes := failedNodes + if failed then 1 else 0;
    }
    ok := !(failedNodes > 0 && failedNodes == totalNodes);
  }

  /** The memory reserved on a granted node stays within RAM minus headroom exactly when its
      1G pages do not overflow the 32-bit product. */
  lemma NodeBoundExactlyWhen(n: Node, headroomMb: U32, capMb: U32, actual: U32)
    requires 0 < Compute2mBudget(n.ramMb, n.total1g, headroomMb, capMb)
    requires actual <= Compute2mBudget(n.ramMb, n.total1g, headroomMb, capMb)
    ensures 1024 * n.total1g + 2 * actual <= SatSub(n.ramMb, headroomMb) <==> n.total1g < 0x40_0000
  {
    if n.total1g < 0x40_0000 {
      assert n.total1g * 1024 % TWO32 == n.total1g * 1024;
    }
  }

  /** The budget is the largest number of pages that, beside the 1G pages, stays within the node's
      cap and within its RAM minus headroom. */
  lemma BudgetIsLargest(n: Node, headroomMb: U32, capMb: U32, pages: nat)
    requires n.total1g < 0x40_0000
    ensures pages <= Budget(n, headroomMb, capMb)
            <==> pages == 0
                 || (1024 * n.total1g + 2 * pages <= capMb && 1024 * n.total1g + 2 * pages + headroomMb <= n.ramMb)
  {
    assert n.total1g * 1024 % TWO32 == n.total1g * 1024;
  }

  /** Each node takes the count the kernel granted when something was to be reserved on it, keeps
      its old one otherwise, and nothing else about it changes. */
  lemma GrantsTakeEffect(nodes: seq<Node>, headroomMb: U32, limitMb: Option<U32>, grants: seq<Option<U32>>, i: nat)
    requires i < |nodes| == |grants| < TWO32 && nodes[i].total1g < 0x40_0000
    ensures var cap, after := CapOf(nodes, limitMb), Budgeted(nodes, headroomMb, limitMb, grants)[i];
            var used := 1024 * nodes[i].total1g;
            var room := used + 2 <= cap && used + 2 + headroomMb <= nodes[i].ramMb;
            && after.total2m == (if room && grants[i].Some? then grants[i].value else nodes[i].total2m)
            && after.(total2m := 0) == nodes[i].(total2m := 0)
  {
    BudgetIsLargest(nodes[i], headroomMb, CapOf(nodes, limitMb), 1);
  }

  function Sum(s: seq<nat>): nat {
    if s == [] then 0 else s[0] + Sum(s[1..])
  }

  lemma {:induction false} SumAppend(s: seq<nat>, x: nat)
    ensures Sum(s + [x]) == Sum(s) + x
  {
    if s == [] {
      assert [x][1..] == [];
    } else {
      SumAppend(s[1..], x);
      assert (s + [x])[1..] == s[1..] + [x];
    }
  }

  function Rams(nodes: seq<Node>): (rams: seq<nat>)
    ensures |rams| == |nodes|
  {
    seq(|nodes|, i requires 0 <= i < |nodes| => nodes[i].ramMb as nat)
  }

  /** Without a limit the nodes share their total RAM, modulo 2^32. */
  lemma {:induction false} TotalRamIsSum(nodes: seq<Node>)
    ensures TotalRam(nodes) == Sum(Rams(nodes)) % TWO32
  {
    if nodes != [] {
      var before, ram := nodes[..|nodes| - 1], nodes[|nodes| - 1].ramMb;
      TotalRamIsSum(before);
      assert Rams(nodes) == Rams(before) + [ram];
      SumAppend(Rams(before), ram);
      WrapsAlike(Sum(Rams(before)), ram);
    }
  }

  lemma WrapsAlike(a: nat, b: nat)
    ensures (a % TWO32 + b) % TWO32 == (a + b) % TWO32
  {
    RemainderIs(a + b, a / TWO32 + (a % TWO32 + b) / TWO32, (a % TWO32 + b) % TWO32);
  }

  lemma RemainderIs(x: nat, q: nat, r: nat)
    requires x == TWO32 * q + r && r < TWO32
    ensures x % TWO32 == r
  {
  }

  lemma {:induction false} SumAtMost(s: seq<nat>, b: nat)
    requires forall i :: 0 <= i < |s| ==> s[i] <= b
    ensures Sum(s) <= |s| * b
  {
    if s != [] {
      SumAtMost(s[1..], b);
      assert |s| * b == (|s| - 1) * b + b;
    }
  }

  /** 2M memory in use on each node that was granted pages, 0 for the others. */
  function MegaUsed(before: seq<Node>, headroomMb: U32, capMb: U32, grants: seq<Option<U32>>, st: State): (u: seq<nat>)
    requires |before| == |grants| == |st.nodes| && WellFormed(st)
    ensures |u| == |before|
  {
    seq(|before|, i requires 0 <= i < |before| =>
      if Granted(before[i], headroomMb, capMb, grants[i]) then 2 * (st.pages2m[i] as nat) else 0)
  }

  lemma UsedWithinNode(n: Node, headroomMb: U32, capMb: U32, grant: Option<U32>, used2m: U32, used1g: U32)
    requires Granted(n, headroomMb, capMb, grant) && grant.value <= Budget(n, headroomMb, capMb)
    requires used2m <= NodeAfter(n, headroomMb, capMb, grant).total2m && used1g <= n.total1g
    ensures 2 * used2m <= capMb
    ensures n.total1g < 0x40_0000 ==> 1024 * used1g + 2 * used2m <= SatSub(n.ramMb, headroomMb)
  {
    NodeBoundExactlyWhen(n, headroomMb, capMb, grant.value);
  }

  /** End to end: when the kernel grants at most what was asked, every run of the allocator
      over the budgeted topology keeps the hugepage memory of each granted node within its
      RAM minus headroom, and the 2M memory over all granted nodes within the global limit. */
  lemma MemoryBoundInEveryRun(before: seq<Node>, headroomMb: U32, limitMb: Option<U32>,
                              grants: seq<Option<U32>>, calls: seq<Call>)
    requires |before| == |grants| < TWO32
    requires forall i :: 0 <= i < |before| && grants[i].Some?
               ==> grants[i].value <= Budget(before[i], headroomMb, CapOf(before, limitMb))
    ensures var st := ApplyAll(Fresh(Budgeted(before, headroomMb, limitMb, grants)), calls);
            var cap := CapOf(before, limitMb);
            && Sum(MegaUsed(before, headroomMb, cap, grants, st)) <= EffectiveLimit(before, limitMb)
            && forall i |
                 0 <= i < |before| && Granted(before[i], headroomMb, cap, grants[i]) && before[i].total1g < 0x40_0000 ::
                 1024 * st.pages1g[i] + 2 * st.pages2m[i] <= SatSub(before[i].ramMb, headroomMb)
  {
    var nodes := Budgeted(before, headroomMb, limitMb, grants);
    var st := ApplyAll(Fresh(nodes), calls);
    EveryRunIsBounded(nodes, calls);
    var cap := CapOf(before, limitMb);
    var used := MegaUsed(before, headroomMb, cap, grants, st);
    forall i | 0 <= i < |before| && Granted(before[i], headroomMb, cap, grants[i])
      ensures used[i] <= cap
      ensures before[i].total1g < 0x40_0000
              ==> 1024 * st.pages1g[i] + 2 * st.pages2m[i] <= SatSub(before[i].ramMb, headroomMb)
    {
      assert st.nodes[i] == nodes[i] == NodeAfter(before[i], headroomMb, cap, grants[i]);
      UsedWithinNode(before[i], headroomMb, cap, grants[i], st.pages2m[i], st.pages1g[i]);
    }
    SumAtMost(used, cap);
  }
}
