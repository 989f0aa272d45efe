/** Placement of VMs on NUMA nodes: first fit over vCPUs and two hugepage pools. */
module Numa {
  import opened Wrappers
  import opened Words
  import CpuList

  datatype HugePageSize = Size2M | Size1G

  datatype Node = Node(id: U32, cpus: set<U32>, total2m: U32, total1g: U32, ramMb: U32)

  datatype State = State(nodes: seq<Node>, vcpus: seq<U32>, pages2m: seq<U32>, pages1g: seq<U32>)

  datatype Request = Request(vcpus: U32, memoryMb: U32, usesHugepages: bool)

  /** Where the memory of a placement really comes from. */
  datatype Pool = Untracked | Pages2M | Pages1G

  datatype Placement = Placement(node: U32, cpuset: string, hugepageSize: HugePageSize)

  datatype NumaError = NoSuchNode | NoCapacity

  /** The three counters run beside the nodes. */
  predicate WellFormed(st: State) {
    |st.vcpus| == |st.pages2m| == |st.pages1g| == |st.nodes|
  }

  /** A topology lists each node once: it is read from the nodeN directories of sysfs. */
  ghost predicate DistinctIds(nodes: seq<Node>) {
    forall i: nat :: i < |nodes| ==> NodeIndex(nodes, nodes[i].id) == i
  }

  function CpuCount(n: Node): U32 { |n.cpus| % TWO32 }

  function CeilHalf(memoryMb: nat): nat { (memoryMb + 1) / 2 }

  function Fresh(nodes: seq<Node>): State {
    State(nodes, seq(|nodes|, _ => 0), seq(|nodes|, _ => 0), seq(|nodes|, _ => 0))
  }

  /** The pool node i would serve the request from, or None when it cannot. */
  function PoolAt(st: State, i: nat, req: Request): Option<Pool>
    requires WellFormed(st) && i < |st.nodes|
  {
    var node := st.nodes[i];
    if req.vcpus > SatSub(CpuCount(node), st.vcpus[i]) then None
    else if !req.usesHugepages then Some(Untracked)
    else if req.memoryMb % 1024 == 0 && req.memoryMb / 1024 <= SatSub(node.total1g, st.pages1g[i]) then Some(Pages1G)
    else if CeilHalf(req.memoryMb) <= SatSub(node.total2m, st.pages2m[i]) then Some(Pages2M)
    else None
  }

  function SizeOf(pool: Pool): HugePageSize {
    if pool == Pages1G then Size1G else Size2M
  }

  function Charge(st: State, i: nat, req: Request): State
    requires WellFormed(st) && i < |st.nodes| && PoolAt(st, i, req).Some?
  {
    var charged := st.(vcpus := st.vcpus[i := st.vcpus[i] + req.vcpus]);
    match PoolAt(st, i, req).value
    case Untracked => charged
    case Pages1G => charged.(pages1g := st.pages1g[i := st.pages1g[i] + req.memoryMb / 1024])
    case Pages2M => charged.(pages2m := st.pages2m[i := st.pages2m[i] + CeilHalf(req.memoryMb)])
  }

  /** Position of the node with this id, or |nodes|. */
  function NodeIndex(nodes: seq<Node>, id: U32): (i: nat)
    ensures i <= |nodes|
    ensures forall j :: 0 <= j < i ==> nodes[j].id != id
    ensures i < |nodes| ==> nodes[i].id == id
  {
    if nodes == [] || nodes[0].id == id then 0 else 1 + NodeIndex(nodes[1..], id)
  }

  /** First node at or after position from that can hold the request, or |nodes|. */
  function FirstFit(st: State, from: nat, req: Request): (i: nat)
    requires WellFormed(st) && from <= |st.nodes|
    ensures from <= i <= |st.nodes|
    ensures forall j :: from <= j < i ==> PoolAt(st, j, req).None?
    ensures i < |st.nodes| ==> PoolAt(st, i, req).Some?
    decreases |st.nodes| - from
  {
    if from == |st.nodes| || PoolAt(st, from, req).Some? then from else FirstFit(st, from + 1, req)
  }

  function Choose(st: State, req: Request, hint: Option<U32>): (r: Result<nat, NumaError>)
    requires WellFormed(st)
    ensures r.Ok? ==> r.value < |st.nodes| && PoolAt(st, r.value, req).Some?
  {
    match hint
    case Some(id) =>
      var i := NodeIndex(st.nodes, id);
      if i == |st.nodes| then Err(NoSuchNode)
      else if PoolAt(st, i, req).Some? then Ok(i) else Err(NoCapacity)
    case None =>
      var i := FirstFit(st, 0, req);
      if i < |st.nodes| then Ok(i) else Err(NoCapacity)
  }

  /** Counters that do not run beside the nodes, which no allocator has, stay as they are. */
  function AllocateState(st: State, req: Request, hint: Option<U32>): State {
    if !WellFormed(st) then st
    else
      match Choose(st, req, hint)
      case Ok(i) => Charge(st, i, req)
      case Err(_) => st
  }

  function ReleaseState(st: State, node: U32, vcpus: U32, memoryMb: U32, size: HugePageSize): State {
    var i := NodeIndex(st.nodes, node);
    if i == |st.nodes| || !WellFormed(st) then st
    else
      var freed := st.(vcpus := st.vcpus[i := SatSub(st.vcpus[i], vcpus)]);
      match size
      case Size1G => freed.(pages1g := st.pages1g[i := SatSub(st.pages1g[i], memoryMb / 1024)])
      case Size2M => freed.(pages2m := st.pages2m[i := SatSub(st.pages2m[i], CeilHalf(memoryMb))])
  }

  ghost function PlacementOf(st: State, req: Request, hint: Option<U32>): Result<Placement, NumaError> {
    if !WellFormed(st) then Err(NoCapacity)
    else
      match Choose(st, req, hint)
      case Err(e) => Err(e)
      case Ok(i) => Ok(Placement(st.nodes[i].id, CpuList.Format(st.nodes[i].cpus), SizeOf(PoolAt(st, i, req).value)))
  }

  /** The loop over candidates stops where Choose does. */
  lemma FirstCandidate(st: State, req: Request, hint: Option<U32>, candidates: seq<nat>, k: nat)
    requires WellFormed(st) && k <= |candidates|
    requires match hint
             case Some(id) => NodeIndex(st.nodes, id) < |st.nodes| && candidates == [NodeIndex(st.nodes, id)]
             case None => |candidates| == |st.nodes| && forall j :: 0 <= j < |candidates| ==> candidates[j] == j
    requires forall j :: 0 <= j < k ==> PoolAt(st, candidates[j], req).None?
    requires k < |candidates| ==> PoolAt(st, candidates[k], req).Some?
    ensures Choose(st, req, hint) == if k < |candidates| then Ok(candidates[k]) else Err(NoCapacity)
  {
    if hint.None? {
      forall j | 0 <= j < k
        ensures PoolAt(st, j, req).None?
      {
        assert candidates[j] == j;
      }
    } else {
      assert candidates[0] == NodeIndex(st.nodes, hint.value);
    }
  }

  class NumaAllocator {
    const nodes: seq<Node>
    var allocatedVcpus: seq<U32>
    var allocated2mPages: seq<U32>
    var allocated1gPages: seq<U32>

    ghost function View(): State
      reads this
    {
      State(nodes, allocatedVcpus, allocated2mPages, allocated1gPages)
    }

    ghost predicate Valid()
      reads this
    {
      WellFormed(View())
    }

    constructor (topology: seq<Node>)
      ensures Valid() && View() == Fresh(topology)
    {
      nodes := topology;
      allocatedVcpus := seq(|topology|, _ => 0);
      allocated2mPages := seq(|topology|, _ => 0);
      allocated1gPages := seq(|topology|, _ => 0);
    }

    /** One round of the candidate loop: charge the node if it has room. */
    method TryNode(idx: nat, vcpus: U32, memoryMb: U32, usesHugepages: bool) returns (size: Option<HugePageSize>)
      requires Valid() && idx < |nodes|
      modifies this
      ensures Valid()
      ensures var req := Request(vcpus, memoryMb, usesHugepages);
              var pool := PoolAt(old(View()), idx, req);
              if pool.None? then size == None && View() == old(View())
              else size == Some(SizeOf(pool.value)) && View() == Charge(old(View()), idx, req)
    {
      var node := nodes[idx];
      var availableCpus := SatSub(CpuCount(node), allocatedVcpus[idx]);
      if vcpus > availableCpus {
        return None;
      }
      if !usesHugepages {
        allocatedVcpus := allocatedVcpus[idx := allocatedVcpus[idx] + vcpus];
        return Some(Size2M);
      }
      if memoryMb % 1024 == 0 {
        var gigaPages := memoryMb / 1024;
        if gigaPages <= SatSub(node.total1g, allocated1gPages[idx]) {
          allocatedVcpus := allocatedVcpus[idx := allocatedVcpus[idx] + vcpus];
          allocated1gPages := allocated1gPages[idx := allocated1gPages[idx] + gigaPages];
          return Some(Size1G);
        }
      }
      var pagesNeeded := CeilHalf(memoryMb);
      if pagesNeeded <= SatSub(node.total2m, allocated2mPages[idx]) {
        allocatedVcpus := allocatedVcpus[idx := allocatedVcpus[idx] + vcpus];
        allocated2mPages := allocated2mPages[idx := allocated2mPages[idx] + pagesNeeded];
        return Some(Size2M);
      }
      size := None;
    }

    method Allocate(vcpus: U32, memoryMb: U32, hint: Option<U32>, usesHugepages: bool)
      returns (r: Result<Placement, NumaError>)
      requires Valid()
      modifies this
      ensures Valid()
      ensures View() == AllocateState(old(View()), Request(vcpus, memoryMb, usesHugepages), hint)
      ensures r == PlacementOf(old(View()), Request(vcpus, memoryMb, usesHugepages), hint)
    {
      ghost var st, req := View(), Request(vcpus, memoryMb, usesHugepages);
      var candidates: seq<nat> := seq(|nodes|, i => i);
      if hint.Some? {
        var i := NodeIndex(nodes, hint.value);
        if i == |nodes| {
          return Err(NoSuchNode);
        }
        candidates := [i];
      }
      for k := 0 to |candidates|
        invariant View() == st
        invariant forall j :: 0 <= j < k ==> PoolAt(st, candidates[j], req).None?
      {
        var size := TryNode(candidates[k], vcpus, memoryMb, usesHugepages);
        if size.Some? {
          FirstCandidate(st, req, hint, candidates, k);
          var cpuset := CpuList.FormatCpuset(nodes[candidates[k]].cpus);
          return Ok(Placement(nodes[candidates[k]].id, cpuset, size.value));
        }
      }
      FirstCandidate(st, req, hint, candidates, |candidates|);
      r := Err(NoCapacity);
    }

    method Release(node: U32, vcpus: U32, memoryMb: U32, size: HugePageSize)
      requires Valid()
      modifies this
      ensures Valid() && View() == ReleaseState(old(View()), node, vcpus, memoryMb, size)
    {
      var idx := NodeIndex(nodes, node);
      if idx < |nodes| {
        allocatedVcpus := allocatedVcpus[idx := SatSub(allocatedVcpus[idx], vcpus)];
        match size
        case Size1G =>
          allocated1gPages := allocated1gPages[idx := SatSub(allocated1gPages[idx], memoryMb / 1024)];
        case Size2M =>
          allocated2mPages := allocated2mPages[idx := SatSub(allocated2mPages[idx], CeilHalf(memoryMb))];
      }
    }
  }

  // ---- first fit ----

  /** Room for the request on node i, stated on sums instead of saturating differences. */
  ghost predicate Fits(st: State, i: nat, req: Request)
    requires WellFormed(st) && i < |st.nodes|
  {
    && (req.vcpus == 0 || st.vcpus[i] + req.vcpus <= CpuCount(st.nodes[i]))
    && (req.usesHugepages ==> FitsGiga(st, i, req) || FitsMega(st, i, req))
  }

  ghost predicate FitsGiga(st: State, i: nat, req: Request)
    requires WellFormed(st) && i < |st.nodes|
  {
    req.memoryMb % 1024 == 0
    && (req.memoryMb == 0 || 1024 * st.pages1g[i] + req.memoryMb <= 1024 * st.nodes[i].total1g)
  }

  ghost predicate FitsMega(st: State, i: nat, req: Request)
    requires WellFormed(st) && i < |st.nodes|
  {
    req.memoryMb == 0 || 2 * st.pages2m[i] + req.memoryMb <= 2 * st.nodes[i].total2m
  }

  ghost predicate Candidate(st: State, i: nat, hint: Option<U32>) {
    i < |st.nodes| && (hint.Some? ==> st.nodes[i].id == hint.value)
  }

  lemma FitsIffPool(st: State, i: nat, req: Request)
    requires WellFormed(st) && i < |st.nodes|
    ensures Fits(st, i, req) <==> PoolAt(st, i, req).Some?
    ensures PoolAt(st, i, req).Some? && req.usesHugepages
            ==> (PoolAt(st, i, req) == Some(Pages1G) <==> FitsGiga(st, i, req))
  {
  }

  /** The chosen node is the earliest candidate with room, allocation fails exactly when no
      candidate has room, and 1G pages are used exactly when they can be. */
  lemma FirstFitComplete(st: State, req: Request, hint: Option<U32>, i: nat)
    requires WellFormed(st) && DistinctIds(st.nodes)
    ensures Choose(st, req, hint) == Ok(i)
            <==> Candidate(st, i, hint) && Fits(st, i, req)
                 && (forall j :: 0 <= j < i && Candidate(st, j, hint) ==> !Fits(st, j, req))
    ensures Choose(st, req, hint).Err? <==> (forall j: nat :: Candidate(st, j, hint) ==> !Fits(st, j, req))
    ensures Choose(st, req, hint) == Ok(i) && req.usesHugepages
            ==> (PoolAt(st, i, req) == Some(Pages1G) <==> FitsGiga(st, i, req))
  {
    forall j: nat | j < |st.nodes|
      ensures Fits(st, j, req) <==> PoolAt(st, j, req).Some?
    {
      FitsIffPool(st, j, req);
    }
    if hint.Some? {
      var k := NodeIndex(st.nodes, hint.value);
      assert forall j: nat :: Candidate(st, j, hint) ==> j == k;
    }
    if Choose(st, req, hint) == Ok(i) {
      FitsIffPool(st, i, req);
    }
  }

  // ---- bounds in every run ----

  ghost predicate Bounded(st: State) {
    WellFormed(st)
    && forall i :: 0 <= i < |st.nodes| ==>
         st.vcpus[i] <= CpuCount(st.nodes[i]) && st.pages2m[i] <= st.nodes[i].total2m
         && st.pages1g[i] <= st.nodes[i].total1g
  }

  /** Any call a client can make, matched or not. */
  datatype Call =
    | AllocateCall(req: Request, hint: Option<U32>)
    | ReleaseCall(node: U32, vcpus: U32, memoryMb: U32, size: HugePageSize)

  function Apply(st: State, c: Call): State
    requires WellFormed(st)
  {
    match c
    case AllocateCall(req, hint) => AllocateState(st, req, hint)
    case ReleaseCall(node, vcpus, memoryMb, size) => ReleaseState(st, node, vcpus, memoryMb, size)
  }

  function ApplyAll(st: State, calls: seq<Call>): (r: State)
    requires WellFormed(st)
    ensures WellFormed(r) && r.nodes == st.nodes
  {
    if calls == [] then st else Apply(ApplyAll(st, calls[..|calls| - 1]), calls[|calls| - 1])
  }

  lemma ChargeBounded(st: State, i: nat, req: Request)
    requires Bounded(st) && i < |st.nodes| && PoolAt(st, i, req).Some?
    ensures Bounded(Charge(st, i, req))
  {
  }

  lemma ReleaseBounded(st: State, node: U32, vcpus: U32, memoryMb: U32, size: HugePageSize)
    requires Bounded(st)
    ensures Bounded(ReleaseState(st, node, vcpus, memoryMb, size))
  {
  }

  /** Whatever is called, no counter ever passes its node's total. */
  lemma {:induction false} EveryRunIsBounded(nodes: seq<Node>, calls: seq<Call>)
    ensures Bounded(ApplyAll(Fresh(nodes), calls))
  {
    if calls != [] {
      EveryRunIsBounded(nodes, calls[..|calls| - 1]);
      var st := ApplyAll(Fresh(nodes), calls[..|calls| - 1]);
      match calls[|calls| - 1] {
        case AllocateCall(req, hint) =>
          if Choose(st, req, hint).Ok? {
            ChargeBounded(st, Choose(st, req, hint).value, req);
          }
        case ReleaseCall(node, vcpus, memoryMb, size) => ReleaseBounded(st, node, vcpus, memoryMb, size);
      }
    }
  }

  // ---- conservation ----

  /** A placement somebody still holds. */
  datatype Lease = Lease(index: nat, req: Request, pool: Pool)

  datatype Ledger = Ledger(st: State, live: seq<Lease>)

  datatype Event = Place(req: Request, hint: Option<U32>) | GiveBack(k: nat)

  /** Place records the lease; GiveBack releases the k-th live lease with the size
      its placement was returned with. */
  function Step(l: Ledger, e: Event): (r: Ledger)
    requires WellFormed(l.st) && Leased(l)
    ensures WellFormed(r.st) && Leased(r)
  {
    match e
    case Place(req, hint) =>
      (match Choose(l.st, req, hint)
       case Err(_) => l
       case Ok(i) =>
         Ledger(Charge(l.st, i, req), l.live + [Lease(i, req, PoolAt(l.st, i, req).value)]))
    case GiveBack(k) =>
      if k >= |l.live| then l
      else
        var lease := l.live[k];
        Ledger(ReleaseState(l.st, l.st.nodes[lease.index].id, lease.req.vcpus, lease.req.memoryMb, SizeOf(lease.pool)),
               l.live[..k] + l.live[k + 1..])
  }

  predicate Leased(l: Ledger) {
    forall k :: 0 <= k < |l.live| ==> l.live[k].index < |l.st.nodes|
  }

  /** The ledger after the first n events. */
  function Run(l: Ledger, es: seq<Event>, n: nat): (r: Ledger)
    requires WellFormed(l.st) && Leased(l) && n <= |es|
    ensures WellFormed(r.st) && Leased(r)
  {
    if n == 0 then l else Step(Run(l, es, n - 1), es[n - 1])
  }

  datatype Resource = Vcpus | Mega | Giga

  function Counter(st: State, i: nat, kind: Resource): nat
    requires WellFormed(st) && i < |st.nodes|
  {
    match kind
    case Vcpus => st.vcpus[i]
    case Mega => st.pages2m[i]
    case Giga => st.pages1g[i]
  }

  /** What a lease takes of one resource of node i. */
  function Share(lease: Lease, i: nat, kind: Resource): nat {
    if lease.index != i then 0
    else
      match kind
      case Vcpus => lease.req.vcpus
      case Mega => if lease.pool == Pages2M then CeilHalf(lease.req.memoryMb) else 0
      case Giga => if lease.pool == Pages1G then lease.req.memoryMb / 1024 else 0
  }

  function Held(live: seq<Lease>, i: nat, kind: Resource): nat {
    if live == [] then 0 else Share(live[0], i, kind) + Held(live[1..], i, kind)
  }

  /** Each counter is the sum over the live leases. */
  ghost predicate Conserved(l: Ledger) {
    && WellFormed(l.st) && DistinctIds(l.st.nodes) && Leased(l)
    && forall i: nat, kind :: i < |l.st.nodes| ==> Held(l.live, i, kind) == Counter(l.st, i, kind)
  }

  lemma {:induction false} HeldConcat(a: seq<Lease>, b: seq<Lease>, i: nat, kind: Resource)
    ensures Held(a + b, i, kind) == Held(a, i, kind) + Held(b, i, kind)
  {
    if a == [] {
      assert a + b == b;
    } else {
      HeldConcat(a[1..], b, i, kind);
      assert (a + b)[1..] == a[1..] + b;
    }
  }

  lemma HeldWithout(live: seq<Lease>, k: nat, i: nat, kind: Resource)
    requires k < |live|
    ensures Held(live, i, kind) == Share(live[k], i, kind) + Held(live[..k] + live[k + 1..], i, kind)
  {
    assert live == live[..k] + live[k..];
    HeldConcat(live[..k], live[k..], i, kind);
    HeldConcat(live[..k], live[k + 1..], i, kind);
    assert live[k..][1..] == live[k + 1..];
  }

  /** The one call that breaks the books: giving back a placement that took no pages
      (it is reported as 2M) while its node has 2M pages in use. */
  predicate TakesForeignPages(l: Ledger, e: Event)
    requires WellFormed(l.st) && Leased(l)
  {
    e.GiveBack? && e.k < |l.live|
    && var lease := l.live[e.k];
       lease.pool == Untracked && lease.req.memoryMb > 0 && l.st.pages2m[lease.index] > 0
  }

  lemma ChargeMoves(st: State, c: nat, req: Request, i: nat, kind: Resource)
    requires WellFormed(st) && c < |st.nodes| && i < |st.nodes| && PoolAt(st, c, req).Some?
    ensures Counter(Charge(st, c, req), i, kind)
            == Counter(st, i, kind) + Share(Lease(c, req, PoolAt(st, c, req).value), i, kind)
  {
  }

  lemma PlaceConserves(l: Ledger, req: Request, hint: Option<U32>)
    requires Conserved(l)
    ensures Conserved(Step(l, Place(req, hint)))
  {
    if Choose(l.st, req, hint).Ok? {
      var c := Choose(l.st, req, hint).value;
      var st' := Charge(l.st, c, req);
      var lease := Lease(c, req, PoolAt(l.st, c, req).value);
      var live' := l.live + [lease];
      forall i: nat, kind | i < |l.st.nodes|
        ensures Held(live', i, kind) == Counter(st', i, kind)
      {
        HeldConcat(l.live, [lease], i, kind);
        ChargeMoves(l.st, c, req, i, kind);
        assert Held(l.live, i, kind) == Counter(l.st, i, kind);
      }
      assert Conserved(Ledger(st', live'));
    }
  }

  /** A matching release moves each counter by the share of its lease, except that an
      untracked placement is charged to the 2M pool. */
  lemma ReleaseMoves(l: Ledger, k: nat, i: nat, kind: Resource)
    requires Conserved(l) && k < |l.live| && i < |l.st.nodes|
    ensures var lease := l.live[k];
            var taken := if lease.pool == Untracked && kind == Mega && i == lease.index
                         then CeilHalf(lease.req.memoryMb) else Share(lease, i, kind);
            Counter(Step(l, GiveBack(k)).st, i, kind) == SatSub(Counter(l.st, i, kind), taken)
  {
    assert NodeIndex(l.st.nodes, l.st.nodes[l.live[k].index].id) == l.live[k].index;
  }

  lemma GiveBackConserves(l: Ledger, k: nat)
    requires Conserved(l) && k < |l.live|
    ensures Conserved(Step(l, GiveBack(k))) <==> !TakesForeignPages(l, GiveBack(k))
  {
    var l' := Step(l, GiveBack(k));
    var c := l.live[k].index;
    forall i: nat, kind | i < |l.st.nodes|
      ensures Held(l'.live, i, kind) == Counter(l'.st, i, kind)
              <==> !(TakesForeignPages(l, GiveBack(k)) && i == c && kind == Mega)
    {
      HeldWithout(l.live, k, i, kind);
      ReleaseMoves(l, k, i, kind);
      assert Held(l.live, i, kind) == Counter(l.st, i, kind);
    }
    assert Conserved(l') <==> (forall i: nat, kind ::
      i < |l.st.nodes| ==> Held(l'.live, i, kind) == Counter(l'.st, i, kind));
    assert TakesForeignPages(l, GiveBack(k)) ==> Held(l'.live, c, Mega) != Counter(l'.st, c, Mega);
  }

  lemma StepConservesExactlyWhen(l: Ledger, e: Event)
    requires Conserved(l)
    ensures Conserved(Step(l, e)) <==> !TakesForeignPages(l, e)
  {
    match e {
      case Place(req, hint) => PlaceConserves(l, req, hint);
      case GiveBack(k) => if k < |l.live| { GiveBackConserves(l, k); }
    }
  }

  /** The n-th event of the run is the offending call. */
  ghost predicate TakesForeignAt(l: Ledger, es: seq<Event>, n: nat)
    requires WellFormed(l.st) && Leased(l) && n < |es|
  {
    TakesForeignPages(Run(l, es, n), es[n])
  }

  ghost predicate ConservedAfter(l: Ledger, es: seq<Event>, n: nat)
    requires WellFormed(l.st) && Leased(l) && n <= |es|
  {
    Conserved(Run(l, es, n))
  }

  ghost predicate NeverTakesForeignPages(l: Ledger, es: seq<Event>)
    requires WellFormed(l.st) && Leased(l)
  {
    forall n: nat :: n < |es| ==> !TakesForeignAt(l, es, n)
  }

  ghost predicate ConservedThroughout(l: Ledger, es: seq<Event>)
    requires WellFormed(l.st) && Leased(l)
  {
    forall n: nat :: n <= |es| ==> ConservedAfter(l, es, n)
  }

  lemma NextConservedExactlyWhen(l: Ledger, es: seq<Event>, n: nat)
    requires WellFormed(l.st) && Leased(l) && n < |es| && ConservedAfter(l, es, n)
    ensures ConservedAfter(l, es, n + 1) <==> !TakesForeignAt(l, es, n)
  {
    StepConservesExactlyWhen(Run(l, es, n), es[n]);
  }

  lemma NextConserved(l: Ledger, es: seq<Event>, n: nat)
    requires WellFormed(l.st) && Leased(l) && n < |es| && NeverTakesForeignPages(l, es) && ConservedAfter(l, es, n)
    ensures ConservedAfter(l, es, n + 1)
  {
    assert !TakesForeignAt(l, es, n);
    NextConservedExactlyWhen(l, es, n);
  }

  lemma NothingYetConserved(l: Ledger, es: seq<Event>)
    requires Conserved(l)
    ensures ConservedAfter(l, es, 0)
  {
  }

  lemma {:induction false} ConservedAt(l: Ledger, es: seq<Event>, n: nat)
    requires Conserved(l) && n <= |es| && NeverTakesForeignPages(l, es)
    ensures ConservedAfter(l, es, n)
  {
    if n == 0 {
      NothingYetConserved(l, es);
    } else {
      ConservedAt(l, es, n - 1);
      NextConserved(l, es, n - 1);
    }
  }

  /** The books balance after every step of a run exactly when no step of it gives back
      an untracked placement on a node with 2M pages in use. */
  lemma RunConservesExactlyWhen(l: Ledger, es: seq<Event>)
    requires Conserved(l)
    ensures ConservedThroughout(l, es) <==> NeverTakesForeignPages(l, es)
  {
    if NeverTakesForeignPages(l, es) {
      forall n: nat | n <= |es| ensures ConservedAfter(l, es, n) { ConservedAt(l, es, n); }
    }
    if ConservedThroughout(l, es) {
      forall n: nat | n < |es| ensures !TakesForeignAt(l, es, n) {
        assert ConservedAfter(l, es, n) && ConservedAfter(l, es, n + 1);
        NextConservedExactlyWhen(l, es, n);
      }
    }
  }

  /** What a placement of this size is for of one resource. */
  function Claim(vcpus: U32, memoryMb: U32, size: HugePageSize, kind: Resource): nat {
    match kind
    case Vcpus => vcpus
    case Mega => if size == Size2M then (memoryMb + 1) / 2 else 0
    case Giga => if size == Size1G then memoryMb / 1024 else 0
  }

  /** Giving back takes the claim off the named node's counters, down to zero at most, and nothing
      off any other node. */
  lemma ReleaseTakesClaim(st: State, node: U32, vcpus: U32, memoryMb: U32, size: HugePageSize, i: nat, kind: Resource)
    requires WellFormed(st) && DistinctIds(st.nodes) && i < |st.nodes|
    ensures var st', claim := ReleaseState(st, node, vcpus, memoryMb, size), Claim(vcpus, memoryMb, size, kind);
            && WellFormed(st') && st'.nodes == st.nodes
            && Counter(st', i, kind)
               == if st.nodes[i].id != node then Counter(st, i, kind)
                  else if claim <= Counter(st, i, kind) then Counter(st, i, kind) - claim
                  else 0
  {
    assert st.nodes[i].id == node ==> NodeIndex(st.nodes, node) == i;
  }

  /** A placement names a node, the hinted one if any, that node's CPUs in a text that reads back,
      and 1G pages only for memory that fills them. */
  lemma PlacementNames(st: State, req: Request, hint: Option<U32>)
    requires WellFormed(st) && PlacementOf(st, req, hint).Ok?
    ensures var p := PlacementOf(st, req, hint).value;
            && (exists j: nat :: j < |st.nodes| && st.nodes[j].id == p.node
                                 && (st.nodes[j].cpus != {} ==> CpuList.Parse(p.cpuset) == Ok(st.nodes[j].cpus)))
            && (hint.Some? ==> p.node == hint.value)
            && (p.hugepageSize == Size1G ==> req.usesHugepages && req.memoryMb % 1024 == 0)
  {
    var c := Choose(st, req, hint).value;
    CpusetReads(st.nodes[c].cpus);
    assert c < |st.nodes| && st.nodes[c].id == PlacementOf(st, req, hint).value.node;
  }

  lemma CpusetReads(cpus: set<U32>)
    ensures cpus != {} ==> CpuList.Parse(CpuList.Format(cpus)) == Ok(cpus)
  {
    CpuList.RoundTripExactlyWhen(cpus);
  }

  lemma ChargeTakesClaim(st: State, c: nat, req: Request, i: nat, kind: Resource)
    requires WellFormed(st) && c < |st.nodes| && i < |st.nodes| && PoolAt(st, c, req).Some?
    ensures Counter(Charge(st, c, req), i, kind)
         == Counter(st, i, kind)
            + if i == c && (kind == Vcpus || req.usesHugepages)
              then Claim(req.vcpus, req.memoryMb, SizeOf(PoolAt(st, c, req).value), kind) else 0
  {
    ChargeMoves(st, c, req, i, kind);
  }

  /** A placement adds exactly its claim to its node's counters and nothing to any other's: vCPUs
      always, pages only for who uses them. */
  lemma PlacementCharges(st: State, req: Request, hint: Option<U32>, i: nat, kind: Resource)
    requires WellFormed(st) && DistinctIds(st.nodes) && PlacementOf(st, req, hint).Ok? && i < |st.nodes|
    ensures var p, st' := PlacementOf(st, req, hint).value, AllocateState(st, req, hint);
            && WellFormed(st') && st'.nodes == st.nodes
            && Counter(st', i, kind)
               == Counter(st, i, kind)
                  + if st.nodes[i].id == p.node && (kind == Vcpus || req.usesHugepages)
                    then Claim(req.vcpus, req.memoryMb, p.hugepageSize, kind) else 0
  {
    var c := Choose(st, req, hint).value;
    assert NodeIndex(st.nodes, st.nodes[i].id) == i && NodeIndex(st.nodes, st.nodes[c].id) == c;
    ChargeTakesClaim(st, c, req, i, kind);
  }

  lemma ReleaseUndoesCharge(st: State, i: nat, req: Request)
    requires WellFormed(st) && i < |st.nodes| && NodeIndex(st.nodes, st.nodes[i].id) == i
    requires PoolAt(st, i, req).Some?
    ensures var pool := PoolAt(st, i, req).value;
            var back := ReleaseState(Charge(st, i, req), st.nodes[i].id, req.vcpus, req.memoryMb, SizeOf(pool));
            if pool == Untracked
            then back == st.(pages2m := st.pages2m[i := SatSub(st.pages2m[i], CeilHalf(req.memoryMb))])
            else back == st
  {
    var charged := Charge(st, i, req);
    assert charged.vcpus[i := st.vcpus[i]] == st.vcpus;
    assert charged.pages2m[i := st.pages2m[i]] == st.pages2m;
    assert charged.pages1g[i := st.pages1g[i]] == st.pages1g;
  }

  /** Giving back a fresh placement restores the allocator exactly, unless the placement
      is untracked and other VMs hold 2M pages on that node. */
  lemma ReleaseUndoesAllocateExactlyWhen(st: State, req: Request, hint: Option<U32>)
    requires WellFormed(st) && DistinctIds(st.nodes) && Choose(st, req, hint).Ok?
    ensures var i := Choose(st, req, hint).value;
            var pool := PoolAt(st, i, req).value;
            ReleaseState(AllocateState(st, req, hint), st.nodes[i].id, req.vcpus, req.memoryMb, SizeOf(pool)) == st
            <==> !(pool == Untracked && req.memoryMb > 0 && st.pages2m[i] > 0)
  {
    var i := Choose(st, req, hint).value;
    ReleaseUndoesCharge(st, i, req);
    var less := st.pages2m[i := SatSub(st.pages2m[i], CeilHalf(req.memoryMb))];
    assert less == st.pages2m <==> less[i] == st.pages2m[i];
  }

  /** A node of two CPUs and four 2M pages, a VM of two pages and a VM without hugepages. */
  const SMALL_NODE := Node(0, {0, 1}, 4, 0, 0)
  const PAGED := Request(1, 4, true)
  const PLAIN := Request(1, 2, false)

  function SmallState(vcpus: U32, pages: U32): State { State([SMALL_NODE], [vcpus], [pages], [0]) }

  lemma SmallPlacements()
    ensures Choose(SmallState(0, 0), PAGED, None) == Ok(0) && PoolAt(SmallState(0, 0), 0, PAGED) == Some(Pages2M)
    ensures Charge(SmallState(0, 0), 0, PAGED) == SmallState(1, 2)
    ensures Choose(SmallState(1, 2), PLAIN, None) == Ok(0) && PoolAt(SmallState(1, 2), 0, PLAIN) == Some(Untracked)
    ensures Charge(SmallState(1, 2), 0, PLAIN) == SmallState(2, 2)
    ensures ReleaseState(SmallState(2, 2), 0, 1, 2, Size2M) == SmallState(1, 1)
  {
    assert CpuCount(SMALL_NODE) == 2;
  }

  /** The failing run: while one VM holds two pages, a VM without hugepages comes and goes and
      takes one of the pages with it. */
  lemma UntrackedReleaseBreaksTheBooks() returns (l: Ledger, es: seq<Event>)
    ensures Conserved(l) && !ConservedThroughout(l, es)
    ensures |es| == 3 && TakesForeignPages(Run(l, es, 2), es[2])
    ensures Run(l, es, 2).st.pages2m == [2] && Run(l, es, 3).st.pages2m == [1]
    ensures Run(l, es, 3).live == [Lease(0, PAGED, Pages2M)]
  {
    l, es := Ledger(SmallState(0, 0), []), [Place(PAGED, None), Place(PLAIN, None), GiveBack(1)];
    SmallPlacements();
    assert Run(l, es, 1) == Ledger(SmallState(1, 2), [Lease(0, PAGED, Pages2M)]);
    assert Run(l, es, 2) == Ledger(SmallState(2, 2), [Lease(0, PAGED, Pages2M), Lease(0, PLAIN, Untracked)]);
    assert TakesForeignAt(l, es, 2);
    RunConservesExactlyWhen(l, es);
  }
}
