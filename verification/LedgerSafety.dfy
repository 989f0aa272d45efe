/** What every run of the ledger keeps. */
module LedgerSafety {
  import opened Wrappers
  import opened Words
  import opened VmConfigs
  import opened PortForwards
  import opened Translations
  import opened Ledger
  import HostBoot
  import Ipv4
  import Ipv6
  import Nft
  import Numa
  import VmChains

  const RANGE_PREFIX: nat := 128

  // ---- invariants ----

  function OffsetFor(g: Setting, h: Handle): Ipv4.Offset { Ipv4.OffsetOf(g.gateway, h.ip) }

  /** Each live VM's address is the gateway plus a used offset, and no two share one. */
  ghost predicate AddressesExclusive(g: Setting, n: Node) {
    && (forall id :: id in n.vms ==>
          && n.vms[id].ip == Ipv4.AllocateVmIp(g.gateway, OffsetFor(g, n.vms[id]))
          && FIRST_OFFSET <= OffsetFor(g, n.vms[id]) <= LAST_OFFSET
          && OffsetFor(g, n.vms[id]) in n.used)
    && (forall a, b :: a in n.vms && b in n.vms && a != b ==> OffsetFor(g, n.vms[a]) != OffsetFor(g, n.vms[b]))
  }

  /** The IPv6 allocations are disjoint and inside the pool, and each live VM holds its own. */
  ghost predicate RangesExclusive(g: Setting, n: Node) {
    && Ipv6.Safe(g.pool, n.ipv6)
    && (forall id :: id in n.vms ==>
          && (n.vms[id].ipv6.Some? <==> g.firewall.ipv6Enabled)
          && (n.vms[id].ipv6.Some? ==> id in n.ipv6 && n.ipv6[id] == n.vms[id].ipv6.value))
  }

  /** Forwards are filed under their own port and belong to live VMs. */
  ghost predicate ForwardsOwned(n: Node) {
    Keyed(n.forwards) && forall k :: k in n.forwards ==> n.forwards[k].vmId in n.vms
  }

  /** Holds whatever fails. */
  ghost predicate Sound(g: Setting, n: Node) {
    AddressesExclusive(g, n) && RangesExclusive(g, n) && ForwardsOwned(n) && Numa.Bounded(n.numa)
  }

  // ---- what the outside may answer ----

  datatype Op =
    | DoCreate(ask: Ask, create: CreateEnv)
    | DoDelete(id: string, delete: DeleteEnv)
    | DoAdd(id: string, hostPort: U16, vmPort: U16, protocol: Protocol, env: ForwardEnv)
    | DoRemove(hostPort: U16, protocol: Protocol, env: ForwardEnv)

  ghost function Apply(g: Setting, n: Node, op: Op): Node
  {
    match op
    case DoCreate(ask, env) => Create(g, n, ask, env).0
    case DoDelete(id, env) => Delete(g, n, id, env).0
    case DoAdd(id, hostPort, vmPort, protocol, env) => AddForwardTo(g, n, id, hostPort, vmPort, protocol, env).0
    case DoRemove(hostPort, protocol, env) => RemoveForwardFrom(g, n, hostPort, protocol, env).0
  }

  /** Where the IPv6 allocator is asked, its answer is one it can give. */
  ghost predicate Answered(g: Setting, n: Node, ask: Ask, env: CreateEnv)
    requires Ipv6.Safe(g.pool, n.ipv6) && (ask.requested.Some? ==> ask.requested.value.Valid())
  {
    g.firewall.ipv6Enabled && ask.id !in n.vms && LowestFree(n.used, FIRST_OFFSET).Some?
    ==> Ipv6.Permitted(g.pool, RANGE_PREFIX, n.ipv6, ask.requested, env.draw)
  }

  /** The allocator's answer is one it can give, and lists are listings of the map. */
  ghost predicate Possible(g: Setting, n: Node, op: Op) {
    match op
    case DoCreate(ask, env) =>
      && Ipv6.Safe(g.pool, n.ipv6) && (ask.requested.Some? ==> ask.requested.value.Valid())
      && Answered(g, n, ask, env)
    case DoDelete(id, env) => Lists(env.gone, OfVm(n.forwards, id))
    case DoAdd(id, hostPort, vmPort, protocol, env) =>
      var r := AddForwardTo(g, n, id, hostPort, vmPort, protocol, env);
      r.1.Ok? ==> Lists(env.listed, OfVm(r.0.forwards, id))
    case DoRemove(hostPort, protocol, env) =>
      var r := RemoveForwardFrom(g, n, hostPort, protocol, env);
      var key := (hostPort, protocol);
      r.1.Ok? && key in n.forwards ==> Lists(env.listed, OfVm(r.0.forwards, n.forwards[key].vmId))
  }

  // ---- create ----

  function SavedOf(h: Handle, forwards: seq<PortForward>): Saved {
    Saved(h.config, h.ip, h.ipv6, h.tap, Ipv4.MacForVmIp(h.ip), forwards, h.numaNode)
  }

  /** Exactly one VM is new, at the offset and with the range taken for it. */
  ghost predicate Born(g: Setting, n: Node, n': Node, id: string, offset: Ipv4.Offset, net: Option<Ipv6.Net>,
                       save: bool) {
    && id in n'.vms
    && var h := n'.vms[id];
    && h.ip == Ipv4.AllocateVmIp(g.gateway, offset) && h.ipv6 == net && h.state == Running
    && n'.vms == n.vms[id := h]
    && n'.disk == (if save then n.disk[id := SavedOf(h, [])] else n.disk)
    && n'.ipv6 == n.ipv6
  }

  /** No VM and no file appears or goes; at most the id's own IPv6 entry does. */
  ghost predicate Stillborn(n: Node, n': Node, id: string) {
    n'.vms == n.vms && n'.disk == n.disk && (n'.ipv6 == n.ipv6 || n'.ipv6 == n.ipv6 - {id})
  }

  /** The kernel is as before, or set up for the VM, or set up and torn down again. */
  predicate KernelAfter(g: Setting, k: Nft.Kernel, k': Nft.Kernel, id: string, env: CreateEnv) {
    var setup := VmChains.SetupVm(g.firewall, k, id, TapName(id), env.setup);
    || k' == k
    || (setup.Ok? && (k' == setup.value || k' == VmChains.TeardownVm(g.firewall, setup.value, id, env.teardown).0))
  }

  /** The NUMA share is untouched, or taken, or taken and given back. */
  ghost predicate NumaAfter(st: Numa.State, st': Numa.State, ask: Ask) {
    var taken := Numa.AllocateState(st, NumaRequest(ask.config), ask.numaHint);
    || st' == st || st' == taken
    || exists node, size :: st' == Numa.ReleaseState(taken, node, ask.config.vcpus, ask.config.memoryMb, size)
  }

  ghost predicate Outcome(g: Setting, n: Node, end: (Node, Result<(), CreateError>), id: string, offset: Ipv4.Offset,
                          net: Option<Ipv6.Net>, save: bool)
  {
    && end.0.forwards == n.forwards && end.0.used == n.used
    && (end.1.Err? ==> Stillborn(n, end.0, id))
    && (end.1.Ok? ==> Born(g, n, end.0, id, offset, net, save))
  }

  lemma PlacedOutcome(g: Setting, n: Node, ask: Ask, disks: seq<Disk>, p: Numa.Placement, offset: Ipv4.Offset,
                      net: Option<Ipv6.Net>, env: CreateEnv)
    ensures var end := CreatePlaced(g, n, ask, disks, p, offset, net, env);
            && Outcome(g, n, end, ask.id, offset, net, env.save)
            && (end.0.kernel == n.kernel
                || end.0.kernel == VmChains.TeardownVm(g.firewall, n.kernel, ask.id, env.teardown).0)
            && (end.0.numa == n.numa
                || exists node, size ::
                     end.0.numa == Numa.ReleaseState(n.numa, node, ask.config.vcpus, ask.config.memoryMb, size))
  {
  }

  lemma ConnectedOutcome(g: Setting, n: Node, ask: Ask, offset: Ipv4.Offset, net: Option<Ipv6.Net>, env: CreateEnv)
    ensures var end := CreateConnected(g, n, ask, offset, net, env);
            && Outcome(g, n, end, ask.id, offset, net, env.save)
            && (end.0.kernel == n.kernel
                || end.0.kernel == VmChains.TeardownVm(g.firewall, n.kernel, ask.id, env.teardown).0)
            && NumaAfter(n.numa, end.0.numa, ask)
  {
    var boot := HostBoot.Prepared(ask.config, env.verity);
    var r := Numa.PlacementOf(n.numa, NumaRequest(ask.config), ask.numaHint);
    if env.backend && boot.Ok? && r.Ok? {
      var placed := n.(numa := Numa.AllocateState(n.numa, NumaRequest(ask.config), ask.numaHint));
      PlacedOutcome(g, placed, ask, boot.value.disks, r.value, offset, net, env);
    }
  }

  lemma LeasedOutcome(g: Setting, n: Node, ask: Ask, offset: Ipv4.Offset, net: Option<Ipv6.Net>, env: CreateEnv)
    ensures var end := CreateLeased(g, n, ask, offset, net, env);
            && Outcome(g, n, end, ask.id, offset, net, env.save)
            && KernelAfter(g, n.kernel, end.0.kernel, ask.id, env) && NumaAfter(n.numa, end.0.numa, ask)
  {
    var setup := VmChains.SetupVm(g.firewall, n.kernel, ask.id, TapName(ask.id), env.setup);
    if setup.Ok? { ConnectedOutcome(g, n.(kernel := setup.value), ask, offset, net, env); }
  }

  /** The addresses a creation takes before anything can fail, if it gets that far. */
  function Taken(g: Setting, n: Node, ask: Ask, env: CreateEnv): Node {
    var free := LowestFree(n.used, FIRST_OFFSET);
    if ask.id in n.vms || free.None? then n
    else n.(used := n.used + {free.value},
            ipv6 := if g.firewall.ipv6Enabled then Ipv6.Record(n.ipv6, ask.id, env.draw) else n.ipv6)
  }

  /** A creation that fails may only use up an offset, an IPv6 range, NUMA capacity and firewall
      chains: no VM, file or forward appears or goes. One that succeeds adds exactly its VM, at
      the lowest free offset and with the range that was drawn. */
  ghost predicate CreateOutcome(g: Setting, n: Node, ask: Ask, env: CreateEnv, end: (Node, Result<(), CreateError>)) {
    var free := LowestFree(n.used, FIRST_OFFSET);
    && end.0.forwards == n.forwards && end.0.used == Taken(g, n, ask, env).used
    && KernelAfter(g, n.kernel, end.0.kernel, ask.id, env) && NumaAfter(n.numa, end.0.numa, ask)
    && (ask.id in n.vms ==> end.0 == n && end.1 == Err(AlreadyExists))
    && (end.1.Err? ==> Stillborn(Taken(g, n, ask, env), end.0, ask.id))
    && (end.1.Ok? ==>
          && ask.id !in n.vms && free.Some? && (g.firewall.ipv6Enabled ==> env.draw.Ok?)
          && Born(g, Taken(g, n, ask, env), end.0, ask.id, free.value,
                  if g.firewall.ipv6Enabled then Some(env.draw.value) else None, env.save))
  }

  /** The creation gets past its addresses. */
  predicate Proceeds(g: Setting, n: Node, ask: Ask, env: CreateEnv) {
    ask.id !in n.vms && LowestFree(n.used, FIRST_OFFSET).Some? && (g.firewall.ipv6Enabled ==> env.draw.Ok?)
  }

  lemma CreateUnfolds(g: Setting, n: Node, ask: Ask, env: CreateEnv)
    ensures var taken := Taken(g, n, ask, env);
            if Proceeds(g, n, ask, env) then
              Create(g, n, ask, env)
              == CreateLeased(g, taken, ask, LowestFree(n.used, FIRST_OFFSET).value,
                              if g.firewall.ipv6Enabled then Some(env.draw.value) else None, env)
            else
              && Create(g, n, ask, env).0 == taken && Create(g, n, ask, env).1.Err?
              && (ask.id in n.vms ==> Create(g, n, ask, env) == (n, Err(AlreadyExists)))
  {
  }

  lemma CreateEffect(g: Setting, n: Node, ask: Ask, env: CreateEnv)
    ensures CreateOutcome(g, n, ask, env, Create(g, n, ask, env))
  {
    CreateUnfolds(g, n, ask, env);
    if Proceeds(g, n, ask, env) {
      LeasedOutcome(g, Taken(g, n, ask, env), ask, LowestFree(n.used, FIRST_OFFSET).value,
                    if g.firewall.ipv6Enabled then Some(env.draw.value) else None, env);
    }
  }

  lemma CreateKeepsAddresses(g: Setting, n: Node, ask: Ask, env: CreateEnv, end: (Node, Result<(), CreateError>))
    requires CreateOutcome(g, n, ask, env, end) && AddressesExclusive(g, n)
    ensures AddressesExclusive(g, end.0)
  {
    var (n', r) := end;
    if r.Ok? {
      var offset := LowestFree(n.used, FIRST_OFFSET).value;
      Ipv4.OffsetRecovered(g.gateway, offset);
      assert OffsetFor(g, n'.vms[ask.id]) == offset;
      forall id | id in n'.vms && id != ask.id
        ensures id in n.vms && n'.vms[id] == n.vms[id] && OffsetFor(g, n'.vms[id]) != offset {}
    }
  }

  lemma DropRangeSafe(pool: Ipv6.Net, m: Ipv6.Allocations, id: string)
    requires Ipv6.Safe(pool, m)
    ensures Ipv6.Safe(pool, m - {id})
  {
  }

  lemma TakenIsSafe(g: Setting, n: Node, ask: Ask, env: CreateEnv)
    requires Ipv6.Safe(g.pool, n.ipv6) && (ask.requested.Some? ==> ask.requested.value.Valid())
    requires Answered(g, n, ask, env)
    ensures Ipv6.Safe(g.pool, Taken(g, n, ask, env).ipv6)
  {
    if Taken(g, n, ask, env).ipv6 != n.ipv6 {
      Ipv6.GrantedIsFree(g.pool, RANGE_PREFIX, n.ipv6, ask.requested, env.draw.value);
      Ipv6.RecordSafe(g.pool, n.ipv6, ask.id, env.draw.value);
    }
  }

  /** Nobody else's entry is touched. */
  lemma CreateSparesRanges(g: Setting, n: Node, ask: Ask, env: CreateEnv, end: (Node, Result<(), CreateError>))
    requires CreateOutcome(g, n, ask, env, end) && ask.id !in n.vms
    ensures forall id :: id in n.ipv6 && id != ask.id ==> id in end.0.ipv6 && end.0.ipv6[id] == n.ipv6[id]
    ensures end.0.ipv6 == Taken(g, n, ask, env).ipv6 || end.0.ipv6 == Taken(g, n, ask, env).ipv6 - {ask.id}
    ensures end.1.Ok? ==> end.0.ipv6 == Taken(g, n, ask, env).ipv6
  {
  }

  lemma CreateKeepsRanges(g: Setting, n: Node, ask: Ask, env: CreateEnv, end: (Node, Result<(), CreateError>))
    requires CreateOutcome(g, n, ask, env, end) && RangesExclusive(g, n)
    requires ask.requested.Some? ==> ask.requested.value.Valid()
    requires Answered(g, n, ask, env)
    ensures RangesExclusive(g, end.0)
  {
    if ask.id !in n.vms {
      CreateSparesRanges(g, n, ask, env, end);
      TakenIsSafe(g, n, ask, env);
      DropRangeSafe(g.pool, Taken(g, n, ask, env).ipv6, ask.id);
      assert Ipv6.Safe(g.pool, end.0.ipv6);
      RangesOwned(g, n, ask, env, end);
    }
  }

  lemma RangesOwned(g: Setting, n: Node, ask: Ask, env: CreateEnv, end: (Node, Result<(), CreateError>))
    requires CreateOutcome(g, n, ask, env, end) && ask.id !in n.vms
    requires forall id :: id in n.ipv6 && id != ask.id ==> id in end.0.ipv6 && end.0.ipv6[id] == n.ipv6[id]
    requires forall id :: id in n.vms ==>
               && (n.vms[id].ipv6.Some? <==> g.firewall.ipv6Enabled)
               && (n.vms[id].ipv6.Some? ==> id in n.ipv6 && n.ipv6[id] == n.vms[id].ipv6.value)
    ensures forall id :: id in end.0.vms ==>
              && (end.0.vms[id].ipv6.Some? <==> g.firewall.ipv6Enabled)
              && (end.0.vms[id].ipv6.Some? ==> id in end.0.ipv6 && end.0.ipv6[id] == end.0.vms[id].ipv6.value)
  {
  }

  lemma AllocateBounded(st: Numa.State, req: Numa.Request, hint: Option<U32>)
    requires Numa.Bounded(st)
    ensures Numa.Bounded(Numa.AllocateState(st, req, hint))
  {
    if Numa.Choose(st, req, hint).Ok? { Numa.ChargeBounded(st, Numa.Choose(st, req, hint).value, req); }
  }

  lemma CreateKeepsBounds(g: Setting, n: Node, ask: Ask, env: CreateEnv, end: (Node, Result<(), CreateError>))
    requires CreateOutcome(g, n, ask, env, end) && Numa.Bounded(n.numa)
    ensures Numa.Bounded(end.0.numa)
  {
    AllocateBounded(n.numa, NumaRequest(ask.config), ask.numaHint);
    var st := Numa.AllocateState(n.numa, NumaRequest(ask.config), ask.numaHint);
    forall node, size ensures Numa.Bounded(Numa.ReleaseState(st, node, ask.config.vcpus, ask.config.memoryMb, size)) {
      Numa.ReleaseBounded(st, node, ask.config.vcpus, ask.config.memoryMb, size);
    }
  }

  lemma CreateKeepsForwards(g: Setting, n: Node, ask: Ask, env: CreateEnv, end: (Node, Result<(), CreateError>))
    requires CreateOutcome(g, n, ask, env, end) && ForwardsOwned(n)
    ensures ForwardsOwned(end.0)
  {
    var n' := end.0;
    assert forall k | k in n.forwards ::
      n.forwards[k].vmId in n'.vms && n'.vms[n.forwards[k].vmId] == n.vms[n.forwards[k].vmId];
  }

  // ---- delete ----

  /** A deletion frees the offset of its own VM and no other, whatever its clean-up meets. */
  lemma DeleteKeepsAddresses(g: Setting, n: Node, id: string, env: DeleteEnv)
    requires AddressesExclusive(g, n)
    ensures AddressesExclusive(g, Delete(g, n, id, env).0)
    ensures id in n.vms ==> Delete(g, n, id, env).0.used == n.used - {OffsetFor(g, n.vms[id])}
  {
  }

  lemma DeleteKeepsRanges(g: Setting, n: Node, id: string, env: DeleteEnv)
    requires RangesExclusive(g, n)
    ensures RangesExclusive(g, Delete(g, n, id, env).0)
  {
    DropRangeSafe(g.pool, n.ipv6, id);
  }

  lemma DeleteKeepsForwards(g: Setting, n: Node, id: string, env: DeleteEnv)
    requires ForwardsOwned(n)
    ensures ForwardsOwned(Delete(g, n, id, env).0)
  {
  }

  lemma DeleteKeepsBounds(g: Setting, n: Node, id: string, env: DeleteEnv)
    requires Numa.Bounded(n.numa)
    ensures Numa.Bounded(Delete(g, n, id, env).0.numa)
  {
    if id in n.vms && n.vms[id].numaNode.Some? {
      var h := n.vms[id];
      Numa.ReleaseBounded(n.numa, h.numaNode.value, h.config.vcpus, h.config.memoryMb,
                          if h.config.hugepageSize.Some? then h.config.hugepageSize.value else Numa.Size2M);
    }
  }

  // ---- port forwards ----

  lemma AddKeepsForwards(g: Setting, n: Node, id: string, hostPort: U16, vmPort: U16, protocol: Protocol,
                         env: ForwardEnv)
    requires ForwardsOwned(n)
    ensures ForwardsOwned(AddForwardTo(g, n, id, hostPort, vmPort, protocol, env).0)
  {
  }

  /** An addition that reports an error has changed nothing. One that succeeds takes a port
      nobody had: the one asked for, or the lowest free one from 10000 up. */
  lemma AddForwardEffect(g: Setting, n: Node, id: string, hostPort: U16, vmPort: U16, protocol: Protocol,
                         env: ForwardEnv)
    ensures var (n', r) := AddForwardTo(g, n, id, hostPort, vmPort, protocol, env);
            && (r.Err? ==> n' == n)
            && (r.Ok? ==>
                  && id in n.vms && r.value.vmId == id && r.value.vmPort == vmPort && r.value.protocol == protocol
                  && KeyOf(r.value) !in n.forwards && n'.forwards == n.forwards[KeyOf(r.value) := r.value]
                  && (hostPort != 0 ==> r.value.hostPort == hostPort)
                  && (hostPort == 0 ==> r.value.hostPort >= AUTO_START)
                  && (hostPort == 0
                    ==> forall q: U16 :: AUTO_START <= q < r.value.hostPort ==> (q, protocol) in n.forwards)
                  && n'.vms == n.vms && n'.used == n.used && n'.numa == n.numa && n'.ipv6 == n.ipv6)
  {
  }

  lemma RemoveKeepsForwards(g: Setting, n: Node, hostPort: U16, protocol: Protocol, env: ForwardEnv)
    requires ForwardsOwned(n)
    ensures ForwardsOwned(RemoveForwardFrom(g, n, hostPort, protocol, env).0)
  {
  }

  // ---- every run ----

  lemma CreateIsSound(g: Setting, n: Node, ask: Ask, env: CreateEnv)
    requires Sound(g, n) && Possible(g, n, DoCreate(ask, env))
    ensures Sound(g, Create(g, n, ask, env).0)
  {
    var end := Create(g, n, ask, env);
    CreateEffect(g, n, ask, env);
    CreateKeepsAddresses(g, n, ask, env, end);
    CreateKeepsRanges(g, n, ask, env, end);
    CreateKeepsForwards(g, n, ask, env, end);
    CreateKeepsBounds(g, n, ask, env, end);
  }

  lemma DeleteIsSound(g: Setting, n: Node, id: string, env: DeleteEnv)
    requires Sound(g, n)
    ensures Sound(g, Delete(g, n, id, env).0)
  {
    DeleteKeepsAddresses(g, n, id, env);
    DeleteKeepsRanges(g, n, id, env);
    DeleteKeepsForwards(g, n, id, env);
    DeleteKeepsBounds(g, n, id, env);
  }

  lemma AddIsSound(g: Setting, n: Node, id: string, hostPort: U16, vmPort: U16, protocol: Protocol, env: ForwardEnv)
    requires Sound(g, n)
    ensures Sound(g, AddForwardTo(g, n, id, hostPort, vmPort, protocol, env).0)
  {
    AddKeepsForwards(g, n, id, hostPort, vmPort, protocol, env);
    AddForwardEffect(g, n, id, hostPort, vmPort, protocol, env);
  }

  lemma RemoveIsSound(g: Setting, n: Node, hostPort: U16, protocol: Protocol, env: ForwardEnv)
    requires Sound(g, n)
    ensures Sound(g, RemoveForwardFrom(g, n, hostPort, protocol, env).0)
  {
    RemoveKeepsForwards(g, n, hostPort, protocol, env);
  }

  lemma StepIsSound(g: Setting, n: Node, op: Op)
    requires Sound(g, n) && Possible(g, n, op)
    ensures Sound(g, Apply(g, n, op))
  {
    match op
    case DoCreate(ask, env) => CreateIsSound(g, n, ask, env);
    case DoDelete(id, env) => DeleteIsSound(g, n, id, env);
    case DoAdd(id, hostPort, vmPort, protocol, env) => AddIsSound(g, n, id, hostPort, vmPort, protocol, env);
    case DoRemove(hostPort, protocol, env) => RemoveIsSound(g, n, hostPort, protocol, env);
  }

  /** A node as a new manager finds it: nothing live, nothing saved, nothing translated. */
  ghost predicate Initial(g: Setting, n: Node) {
    && g.pool.Valid() && n.vms == map[] && n.used == {} && n.disk == map[] && n.ipv6 == map[] && n.forwards == map[]
    && n.numa == Numa.Fresh(n.numa.nodes) && Agrees(g.firewall, n.kernel, {})
  }

  lemma InitialIsSound(g: Setting, n: Node)
    requires Initial(g, n)
    ensures Sound(g, n)
  {
    Numa.EveryRunIsBounded(n.numa.nodes, []);
  }

  /** n' comes from n by a possible operation. */
  ghost predicate IsStep(g: Setting, n: Node, op: Op, n': Node) {
    Sound(g, n) ==> Possible(g, n, op) && n' == Apply(g, n, op)
  }

  ghost predicate IsRun(g: Setting, states: seq<Node>, ops: seq<Op>) {
    && |states| == |ops| + 1 && Initial(g, states[0])
    && forall i :: 0 <= i < |ops| ==> IsStep(g, states[i], ops[i], states[i + 1])
  }

  /** In every run, whatever fails: no two live VMs share an address, a MAC-determining offset or
      an IPv6 range, every forward has a live owner, and no NUMA node is overbooked. */
  lemma {:induction false} EveryRunIsSound(g: Setting, states: seq<Node>, ops: seq<Op>, i: nat)
    requires IsRun(g, states, ops) && i < |states|
    ensures Sound(g, states[i])
  {
    if i == 0 {
      InitialIsSound(g, states[0]);
    } else {
      EveryRunIsSound(g, states, ops, i - 1);
      assert IsStep(g, states[i - 1], ops[i - 1], states[i]);
      StepIsSound(g, states[i - 1], ops[i - 1]);
    }
  }

  /** Live VMs of a sound ledger differ in address and in MAC. */
  lemma LiveVmsDiffer(g: Setting, n: Node, a: string, b: string)
    requires Sound(g, n) && a in n.vms && b in n.vms && a != b
    ensures n.vms[a].ip != n.vms[b].ip
    ensures Ipv4.MacForVmIp(n.vms[a].ip) != Ipv4.MacForVmIp(n.vms[b].ip)
    ensures g.firewall.ipv6Enabled ==> !Ipv6.Overlaps(n.vms[a].ipv6.value, n.vms[b].ipv6.value)
  {
    Ipv4.DistinctOffsets(g.gateway, OffsetFor(g, n.vms[a]), OffsetFor(g, n.vms[b]));
  }
}
