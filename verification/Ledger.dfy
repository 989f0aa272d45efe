/** The resource ledger of a node, one operation at a time: what create, delete and the
    port-forward operations do to memory, disk and kernel, with every failure they can meet. */
module Ledger {
  import opened Wrappers
  import opened Words
  import opened VmConfigs
  import opened PortForwards
  import opened DnatRules
  import opened Translations
  import HostBoot
  import Ipv4
  import Ipv6
  import Numa
  import Nft
  import Firewall
  import VmChains

  datatype VmState = Running | Stopped

  datatype Handle = Handle(
    config: VmConfig, state: VmState, ip: Ipv4.Addr, ipv6: Option<Ipv6.Net>, tap: string, numaNode: Option<U32>)

  /** What is saved of a VM. */
  datatype Saved = Saved(
    config: VmConfig, ip: Ipv4.Addr, ipv6: Option<Ipv6.Net>, tap: string, mac: string,
    forwards: seq<PortForward>, numaNode: Option<U32>)

  datatype Setting = Setting(gateway: Ipv4.Addr, pool: Ipv6.Net, firewall: Firewall.Config)

  /** The ledger: live VMs, used IPv4 offsets, the state directory, NUMA counters, IPv6
      allocations, port forwards and the nftables ruleset. */
  datatype Node = Node(
    vms: map<string, Handle>,
    used: set<Ipv4.Offset>,
    disk: map<string, Saved>,
    numa: Numa.State,
    ipv6: Ipv6.Allocations,
    forwards: Forwards,
    kernel: Nft.Kernel)

  // ---- create ----

  datatype CreateError =
    | AlreadyExists | AddressesExhausted | Ipv6Failed(ipv6: Ipv6.Ipv6Error) | DhcpFailed | Dhcpv6Failed
    | TapFailed | FirewallFailed(firewall: Firewall.FirewallError) | NoBackend | BootFailed(boot: HostBoot.BootError)
    | NumaFailed(numa: Numa.NumaError) | BadDisk(panic: HostBoot.Panic) | SpawnFailed

  /** The outcome of each outside step of one creation. draw is what the IPv6 allocator returned;
      unlocked says whether the clean-up found the allocator's lock free. */
  datatype CreateEnv = CreateEnv(
    draw: Result<Ipv6.Net, Ipv6.Ipv6Error>, dhcp: bool, dhcpv6: bool, tap: bool, tapAddress: bool, setup: bool,
    backend: bool, verity: HostBoot.Verity, spawn: bool, teardown: VmChains.TeardownRuns, unlocked: bool, save: bool)

  datatype Ask = Ask(id: string, config: VmConfig, requested: Option<Ipv6.Net>, numaHint: Option<U32>)

  const FIRST_OFFSET := 1
  const LAST_OFFSET := 254

  function LowestFree(used: set<Ipv4.Offset>, start: Ipv4.Offset): (r: Option<Ipv4.Offset>)
    requires FIRST_OFFSET <= start <= LAST_OFFSET + 1
    ensures r.Some? ==> start <= r.value <= LAST_OFFSET && r.value !in used
                        && forall o: Ipv4.Offset :: start <= o < r.value ==> o in used
    ensures r.None? ==> forall o: Ipv4.Offset :: start <= o <= LAST_OFFSET ==> o in used
    decreases LAST_OFFSET + 1 - start
  {
    if start > LAST_OFFSET then None
    else if start !in used then Some(start)
    else LowestFree(used, start + 1)
  }

  function TapName(id: string): string { "tap-" + id }

  /** Clean-up after a failure: the IPv6 allocation goes, unless the lock was taken. */
  function Cleaned(n: Node, id: string, net: Option<Ipv6.Net>, env: CreateEnv): Node {
    if net.Some? && env.unlocked then n.(ipv6 := n.ipv6 - {id}) else n
  }

  ghost function Create(g: Setting, n: Node, ask: Ask, env: CreateEnv): (Node, Result<(), CreateError>)
  {
    if ask.id in n.vms then (n, Err(AlreadyExists))
    else
      match LowestFree(n.used, FIRST_OFFSET)
      case None => (n, Err(AddressesExhausted))
      case Some(offset) => CreateAddressed(g, n.(used := n.used + {offset}), ask, offset, env)
  }

  /** From the IPv4 offset to the IPv6 range. */
  ghost function CreateAddressed(g: Setting, n: Node, ask: Ask, offset: Ipv4.Offset, env: CreateEnv)
    : (Node, Result<(), CreateError>)
  {
    if !g.firewall.ipv6Enabled then CreateLeased(g, n, ask, offset, None, env)
    else
      match env.draw
      case Err(e) => (n, Err(Ipv6Failed(e)))
      case Ok(net) => CreateLeased(g, n.(ipv6 := Ipv6.Record(n.ipv6, ask.id, env.draw)), ask, offset, Some(net), env)
  }

  /** From the addresses to the firewall. */
  ghost function CreateLeased(g: Setting, n: Node, ask: Ask, offset: Ipv4.Offset, net: Option<Ipv6.Net>, env: CreateEnv)
    : (Node, Result<(), CreateError>)
  {
    if !env.dhcp then (n, Err(DhcpFailed))
    else if net.Some? && !env.dhcpv6 then (n.(ipv6 := n.ipv6 - {ask.id}), Err(Dhcpv6Failed))
    else if !env.tap || (net.Some? && !env.tapAddress) then (Cleaned(n, ask.id, net, env), Err(TapFailed))
    else
      match VmChains.SetupVm(g.firewall, n.kernel, ask.id, TapName(ask.id), env.setup)
      case Err(e) => (Cleaned(n, ask.id, net, env), Err(FirewallFailed(e)))
      case Ok(k) => CreateConnected(g, n.(kernel := k), ask, offset, net, env)
  }

  function NumaRequest(config: VmConfig): Numa.Request {
    Numa.Request(config.vcpus, config.memoryMb, config.confidential)
  }

  /** The configuration a VM runs with. */
  function Placed(config: VmConfig, disks: seq<Disk>, nodes: nat, p: Numa.Placement): VmConfig {
    config.(disks := disks, numaNode := if nodes > 1 then Some(p.node) else config.numaNode,
            hugepageSize := Some(p.hugepageSize))
  }

  /** From the firewall to the running process. */
  ghost function CreateConnected(g: Setting, n: Node, ask: Ask, offset: Ipv4.Offset, net: Option<Ipv6.Net>,
                                 env: CreateEnv)
    : (Node, Result<(), CreateError>)
  {
    if !env.backend then (n, Err(NoBackend))
    else
      match HostBoot.Prepared(ask.config, env.verity)
      case Err(e) => (n, Err(BootFailed(e)))
      case Ok(plan) =>
        match Numa.PlacementOf(n.numa, NumaRequest(ask.config), ask.numaHint)
        case Err(e) => (n, Err(NumaFailed(e)))
        case Ok(p) =>
          CreatePlaced(g, n.(numa := Numa.AllocateState(n.numa, NumaRequest(ask.config), ask.numaHint)), ask,
                       plan.disks, p, offset, net, env)
  }

  /** From the placement to the running process. */
  ghost function CreatePlaced(g: Setting, n: Node, ask: Ask, disks: seq<Disk>, p: Numa.Placement, offset: Ipv4.Offset,
                              net: Option<Ipv6.Net>, env: CreateEnv): (Node, Result<(), CreateError>)
  {
    if HostBoot.FirstPanic(disks).Some? then (n, Err(BadDisk(HostBoot.FirstPanic(disks).value)))
    else if !env.spawn then (Abandoned(g, n, ask, p, net, env), Err(SpawnFailed))
    else (Admitted(g, n, ask, Placed(ask.config, disks, |n.numa.nodes|, p), offset, p.node, net, env), Ok(()))
  }

  /** The clean-up after the process could not be started. */
  ghost function Abandoned(g: Setting, n: Node, ask: Ask, p: Numa.Placement, net: Option<Ipv6.Net>,
                           env: CreateEnv): Node
  {
    Cleaned(n.(numa := Numa.ReleaseState(n.numa, p.node, ask.config.vcpus, ask.config.memoryMb, p.hugepageSize),
               kernel := VmChains.TeardownVm(g.firewall, n.kernel, ask.id, env.teardown).0),
            ask.id, net, env)
  }

  function Admitted(g: Setting, n: Node, ask: Ask, config: VmConfig, offset: Ipv4.Offset, node: U32,
                    net: Option<Ipv6.Net>, env: CreateEnv): Node {
    var ip := Ipv4.AllocateVmIp(g.gateway, offset);
    var handle := Handle(config, Running, ip, net, TapName(ask.id), Some(node));
    var saved := Saved(config, ip, net, TapName(ask.id), Ipv4.MacForVmIp(ip), [], Some(node));
    n.(vms := n.vms[ask.id := handle], disk := if env.save then n.disk[ask.id := saved] else n.disk)
  }

  // ---- delete ----

  datatype OpError = NotFound | NoFreePort | PortInUse | NoSuchForward | NftFailure(error: Firewall.FirewallError)

  /** gone lists the VM's forwards in the order they are removed from the kernel. */
  datatype DeleteEnv = DeleteEnv(gone: seq<PortForward>, removes: Key -> bool,
                                     teardown: VmChains.TeardownRuns, unlink: bool)

  function ReleasedNuma(st: Numa.State, h: Handle): Numa.State
  {
    if h.numaNode.None? then st
    else Numa.ReleaseState(st, h.numaNode.value, h.config.vcpus, h.config.memoryMb,
                           if h.config.hugepageSize.Some? then h.config.hugepageSize.value else Numa.Size2M)
  }

  function Delete(g: Setting, n: Node, id: string, env: DeleteEnv): (Node, Result<(), OpError>)
  {
    if id !in n.vms then (n, Err(NotFound))
    else
      var h := n.vms[id];
      (Node(n.vms - {id},
            n.used - {Ipv4.OffsetOf(g.gateway, h.ip)},
            if env.unlink then n.disk - {id} else n.disk,
            ReleasedNuma(n.numa, h),
            if h.ipv6.Some? && g.firewall.ipv6Enabled then n.ipv6 - {id} else n.ipv6,
            WithoutVm(n.forwards, id),
            VmChains.TeardownVm(g.firewall, RemoveAll(g.firewall, n.kernel, env.gone, env.removes), id,
                                env.teardown).0),
       Ok(()))
  }

  // ---- port forwards ----

  /** listed is the VM's forwards as the map listed them when its file was rewritten. */
  datatype ForwardEnv = ForwardEnv(nft: bool, save: bool, listed: seq<PortForward>)

  const AUTO_START: U16 := 10000

  function Repersisted(disk: map<string, Saved>, id: string, env: ForwardEnv): map<string, Saved> {
    if id in disk && env.save then disk[id := disk[id].(forwards := env.listed)] else disk
  }

  /** The port an addition reserves: the lowest free one from 10000 up when none is named. */
  function ChosenPort(m: Forwards, hostPort: U16, protocol: Protocol): Result<U16, OpError> {
    if hostPort == 0 then
      match AutoPort(m, protocol, AUTO_START)
      case Some(p) => Ok(p)
      case None => Err(NoFreePort)
    else if (hostPort, protocol) in m then Err(PortInUse) else Ok(hostPort)
  }

  function AddForwardTo(g: Setting, n: Node, id: string, hostPort: U16, vmPort: U16, protocol: Protocol,
                        env: ForwardEnv)
    : (Node, Result<PortForward, OpError>)
  {
    if id !in n.vms then (n, Err(NotFound))
    else
      match ChosenPort(n.forwards, hostPort, protocol)
      case Err(e) => (n, Err(e))
      case Ok(port) =>
        var f := PortForward(id, port, vmPort, protocol);
        match AddForward(g.firewall, n.kernel, id, Target(protocol, port, n.vms[id].ip, vmPort), env.nft)
        case Err(e) => (n, Err(NftFailure(e)))
        case Ok(k) =>
          (n.(forwards := n.forwards[KeyOf(f) := f], kernel := k, disk := Repersisted(n.disk, id, env)), Ok(f))
  }

  function RemoveForwardFrom(g: Setting, n: Node, hostPort: U16, protocol: Protocol, env: ForwardEnv)
    : (Node, Result<(), OpError>)
  {
    var key := (hostPort, protocol);
    if key !in n.forwards then (n, Err(NoSuchForward))
    else
      var gone := n.(forwards := n.forwards - {key});
      match RemoveForward(g.firewall, n.kernel, hostPort, protocol, env.nft)
      case Err(e) => (gone, Err(NftFailure(e)))
      case Ok(k) => (gone.(kernel := k, disk := Repersisted(n.disk, n.forwards[key].vmId, env)), Ok(()))
  }
}
