/** The manager object: its fields, and the methods that move them as the ledger says. */
module VmManager {
  import opened Wrappers
  import opened Words
  import opened PortForwards
  import opened Ledger
  import opened LedgerSafety
  import opened Recovery
  import HostBoot
  import Ipv4
  import Ipv6
  import Numa
  import NftablesManager
  import VmChains
  import Translations

  /** Stands for the IPv6 allocator's answer where it was never asked. */
  const UNASKED: Result<Ipv6.Net, Ipv6.Ipv6Error> := Err(Ipv6.Exhausted)

  class VmManager {
    const gateway: Ipv4.Addr
    const runDir: string
    const firewall: NftablesManager.NftablesManager
    const numa: Numa.NumaAllocator
    const ipv6: Ipv6.Ipv6RangeAllocator
    const portForwards: PortForwardState
    var vms: map<string, Handle>
    var usedIpOffsets: set<Ipv4.Offset>
    /** The state directory: one record per file. */
    var disk: map<string, Saved>

    ghost function Site(): Setting { Setting(gateway, ipv6.pool, firewall.config) }

    ghost function State(): Node
      reads this, numa, ipv6, portForwards, firewall.nft
    {
      Node(vms, usedIpOffsets, disk, numa.View(), ipv6.allocations, portForwards.forwards, firewall.nft.kernel)
    }

    ghost predicate Valid()
      reads this, numa, ipv6, portForwards, firewall.nft
    {
      Sound(Site(), State()) && ipv6.defaultPrefix == RANGE_PREFIX
    }

    /** A new manager over an existing state directory and kernel. */
    constructor (gateway: Ipv4.Addr, runDir: string, pool: Ipv6.Net, firewall: NftablesManager.NftablesManager,
                 topology: seq<Numa.Node>, disk: map<string, Saved>)
      requires pool.Valid()
      ensures Valid() && fresh(numa) && fresh(ipv6) && fresh(portForwards) && this.firewall == firewall
      ensures Blank(Site(), State(), disk) && State().kernel == firewall.nft.kernel
      ensures this.gateway == gateway && this.runDir == runDir && ipv6.pool == pool
    {
      this.gateway := gateway;
      this.runDir := runDir;
      this.firewall := firewall;
      numa := new Numa.NumaAllocator(topology);
      ipv6 := new Ipv6.Ipv6RangeAllocator(pool, RANGE_PREFIX);
      portForwards := new PortForwardState();
      vms := map[];
      usedIpOffsets := {};
      this.disk := disk;
      new;
      Numa.EveryRunIsBounded(topology, []);
    }

    // ---- create ----

    method CleanupReservations(id: string, net: Option<Ipv6.Net>, env: CreateEnv)
      requires ipv6.Valid()
      modifies ipv6
      ensures ipv6.Valid() && ipv6.allocations == if net.Some?
              && env.unlocked then old(ipv6.allocations) - {id} else old(ipv6.allocations)
    {
      if net.Some? && env.unlocked {
        var freed := ipv6.Release(id);
      }
    }

    /** The lowest free offset, marked used. */
    method TakeOffset() returns (offset: Option<Ipv4.Offset>)
      modifies this
      ensures vms == old(vms) && disk == old(disk)
      ensures offset == LowestFree(old(usedIpOffsets), FIRST_OFFSET)
      ensures usedIpOffsets == if offset.Some? then old(usedIpOffsets) + {offset.value} else old(usedIpOffsets)
    {
      var o: Ipv4.Offset := FIRST_OFFSET;
      while o <= LAST_OFFSET && o in usedIpOffsets
        invariant FIRST_OFFSET <= o <= LAST_OFFSET + 1
        invariant LowestFree(usedIpOffsets, FIRST_OFFSET) == LowestFree(usedIpOffsets, o)
      {
        o := o + 1;
      }
      if o > LAST_OFFSET { return None; }
      usedIpOffsets := usedIpOffsets + {o};
      offset := Some(o);
    }

    /** From the placement to the running process. */
    method StartPlaced(ask: Ask, plan: HostBoot.Plan, p: Numa.Placement, offset: Ipv4.Offset, net: Option<Ipv6.Net>,
                       env: CreateEnv, tee: seq<HostBoot.Arg>)
      returns (r: Result<(), CreateError>, spawned: seq<HostBoot.Arg>)
      requires numa.Valid() && ipv6.Valid()
      modifies this, numa, ipv6, firewall.nft
      ensures numa.Valid()
      ensures (State(), r) == CreatePlaced(Site(), old(State()), ask, plan.disks, p, offset, net, env)
      ensures r.Ok? ==> spawned == SpawnArgs(ask, plan, offset, tee)
    {
      spawned := [];
      var id := ask.id;
      var ip := Ipv4.AllocateVmIp(gateway, offset);
      var config := Placed(ask.config, plan.disks, |numa.nodes|, p);
      var args := HostBoot.BuildQemuCommand(config, QmpSocket(id), TapName(id), tee, Ipv4.MacForVmIp(ip), plan.cmdline);
      if args.Err? { return Err(BadDisk(args.error)), []; }
      if !env.spawn {
        numa.Release(p.node, ask.config.vcpus, ask.config.memoryMb, p.hugepageSize);
        var torn := firewall.TeardownVm(id, env.teardown);
        CleanupReservations(id, net, env);
        return Err(SpawnFailed), [];
      }
      if env.save {
        disk := disk[id := Saved(config, ip, net, TapName(id), Ipv4.MacForVmIp(ip), [], Some(p.node))];
      }
      vms := vms[id := Handle(config, Running, ip, net, TapName(id), Some(p.node))];
      spawned := args.value;
      r := Ok(());
    }

    function QmpSocket(id: string): string { runDir + "/" + id + "/qmp.sock" }

    /** The arguments QEMU is started with. */
    ghost function SpawnArgs(ask: Ask, plan: HostBoot.Plan, offset: Ipv4.Offset,
                             tee: seq<HostBoot.Arg>): seq<HostBoot.Arg> {
      HostBoot.Args(ask.config.(disks := plan.disks), QmpSocket(ask.id), TapName(ask.id),
                    Ipv4.MacForVmIp(Ipv4.AllocateVmIp(gateway, offset)), plan.cmdline, tee)
    }

    /** QEMU is started with the prepared disks and command line. */
    ghost predicate Spawns(ask: Ask, verity: HostBoot.Verity, offset: Ipv4.Offset, tee: seq<HostBoot.Arg>,
                           spawned: seq<HostBoot.Arg>) {
      && HostBoot.Prepared(ask.config, verity).Ok?
      && spawned == SpawnArgs(ask, HostBoot.Prepared(ask.config, verity).value, offset, tee)
    }

    /** QEMU reads back the VM's vCPUs and memory, its own TAP device, and the MAC of its address. */
    lemma SpawnedMachine(ask: Ask, verity: HostBoot.Verity, offset: Ipv4.Offset, tee: seq<HostBoot.Arg>,
                         spawned: seq<HostBoot.Arg>)
      requires Spawns(ask, verity, offset, tee, spawned) && ',' !in ask.id
      requires forall switch :: switch in HostBoot.MACHINE_SWITCHES ==> HostBoot.ValuesOf(tee, switch) == []
      ensures var m := HostBoot.ReadMachine(spawned);
              && m.vcpus == Some(ask.config.vcpus) && m.memoryMb == Some(ask.config.memoryMb)
              && m.tap == Some("tap-" + ask.id) && m.mac == Some(Ipv4.MacForVmIp(Ipv4.AllocateVmIp(gateway, offset)))
    {
      var plan, mac := HostBoot.Prepared(ask.config, verity).value, Ipv4.MacForVmIp(Ipv4.AllocateVmIp(gateway, offset));
      Ipv4.MacSpellsOctets(Ipv4.AllocateVmIp(gateway, offset));
      assert ',' !in TapName(ask.id);
      HostBoot.QemuReadsMachine(ask.config.(disks := plan.disks), QmpSocket(ask.id), TapName(ask.id), mac, plan.cmdline,
                                tee);
    }

    method Connect(ask: Ask, offset: Ipv4.Offset, net: Option<Ipv6.Net>, env: CreateEnv, tee: seq<HostBoot.Arg>)
      returns (r: Result<(), CreateError>, spawned: seq<HostBoot.Arg>)
      requires numa.Valid() && ipv6.Valid()
      modifies this, numa, ipv6, firewall.nft
      ensures numa.Valid()
      ensures (State(), r) == CreateConnected(Site(), old(State()), ask, offset, net, env)
      ensures r.Ok? ==> Spawns(ask, env.verity, offset, tee, spawned)
    {
      if !env.backend { return Err(NoBackend), []; }
      var plan := HostBoot.Prepare(ask.config, env.verity);
      if plan.Err? { return Err(BootFailed(plan.error)), []; }
      var p := numa.Allocate(ask.config.vcpus, ask.config.memoryMb, ask.numaHint, ask.config.confidential);
      if p.Err? {
        return Err(NumaFailed(p.error)), [];
      }
      r, spawned := StartPlaced(ask, plan.value, p.value, offset, net, env, tee);
    }

    method Lease(ask: Ask, offset: Ipv4.Offset, net: Option<Ipv6.Net>, env: CreateEnv, tee: seq<HostBoot.Arg>)
      returns (r: Result<(), CreateError>, spawned: seq<HostBoot.Arg>)
      requires numa.Valid() && ipv6.Valid()
      modifies this, numa, ipv6, firewall.nft
      ensures numa.Valid()
      ensures (State(), r) == CreateLeased(Site(), old(State()), ask, offset, net, env)
      ensures r.Ok? ==> Spawns(ask, env.verity, offset, tee, spawned)
    {
      if !env.dhcp { return Err(DhcpFailed), []; }
      if net.Some? && !env.dhcpv6 {
        var freed := ipv6.Release(ask.id);
        return Err(Dhcpv6Failed), [];
      }
      if !env.tap || (net.Some? && !env.tapAddress) {
        CleanupReservations(ask.id, net, env);
        return Err(TapFailed), [];
      }
      var setup := firewall.SetupVm(ask.id, TapName(ask.id), env.setup);
      if setup.Err? {
        CleanupReservations(ask.id, net, env);
        return Err(FirewallFailed(setup.error)), [];
      }
      r, spawned := Connect(ask, offset, net, env, tee);
    }

    method Address(ask: Ask, offset: Ipv4.Offset, env: CreateEnv, tee: seq<HostBoot.Arg>)
      returns (r: Result<(), CreateError>, spawned: seq<HostBoot.Arg>, draw: Result<Ipv6.Net, Ipv6.Ipv6Error>)
      requires numa.Valid() && ipv6.Valid() && ipv6.defaultPrefix == RANGE_PREFIX
      requires ask.requested.Some? ==> ask.requested.value.Valid()
      modifies this, numa, ipv6, firewall.nft
      ensures firewall.config.ipv6Enabled
              ==> Ipv6.Permitted(ipv6.pool, RANGE_PREFIX, old(ipv6.allocations), ask.requested, draw)
      ensures (State(), r) == CreateAddressed(Site(), old(State()), ask, offset, env.(draw := draw))
      ensures r.Ok? ==> Spawns(ask, env.verity, offset, tee, spawned)
    {
      if !firewall.config.ipv6Enabled {
        draw := UNASKED;
        r, spawned := Lease(ask, offset, None, env.(draw := draw), tee);
        return;
      }
      r, spawned, draw := AddressIpv6(ask, offset, env, tee);
    }

    method AddressIpv6(ask: Ask, offset: Ipv4.Offset, env: CreateEnv, tee: seq<HostBoot.Arg>)
      returns (r: Result<(), CreateError>, spawned: seq<HostBoot.Arg>, draw: Result<Ipv6.Net, Ipv6.Ipv6Error>)
      requires numa.Valid() && ipv6.Valid() && ipv6.defaultPrefix == RANGE_PREFIX && firewall.config.ipv6Enabled
      requires ask.requested.Some? ==> ask.requested.value.Valid()
      modifies this, numa, ipv6, firewall.nft
      ensures Ipv6.Permitted(ipv6.pool, RANGE_PREFIX, old(ipv6.allocations), ask.requested, draw)
      ensures (State(), r) == CreateAddressed(Site(), old(State()), ask, offset, env.(draw := draw))
      ensures r.Ok? ==> Spawns(ask, env.verity, offset, tee, spawned)
    {
      draw := ipv6.Allocate(ask.id, ask.requested);
      if draw.Err? {
        return Err(Ipv6Failed(draw.error)), [], draw;
      }
      r, spawned := Lease(ask, offset, Some(draw.value), env.(draw := draw), tee);
    }

    /** draw is what the IPv6 allocator answers; the rest of env is the outcome of every outside
        step. On success spawned holds the arguments QEMU runs with. */
    method CreateVm(ask: Ask, env: CreateEnv, tee: seq<HostBoot.Arg>)
      returns (r: Result<(), CreateError>, spawned: seq<HostBoot.Arg>, draw: Result<Ipv6.Net, Ipv6.Ipv6Error>)
      requires Valid() && (ask.requested.Some? ==> ask.requested.value.Valid())
      modifies this, numa, ipv6, firewall.nft
      ensures Valid()
      ensures Possible(Site(), old(State()), DoCreate(ask, env.(draw := draw)))
      ensures (State(), r) == Create(Site(), old(State()), ask, env.(draw := draw))
      ensures r.Ok? ==> Spawns(ask, env.verity, LowestFree(old(usedIpOffsets), FIRST_OFFSET).value, tee, spawned)
    {
      ghost var before := State();
      spawned, draw := [], UNASKED;
      if ask.id in vms {
        r := Err(AlreadyExists);
      } else {
        var offset := TakeOffset();
        if offset.None? {
          r := Err(AddressesExhausted);
        } else {
          r, spawned, draw := Address(ask, offset.value, env, tee);
        }
      }
      CreateIsSound(Site(), before, ask, env.(draw := draw));
    }

    // ---- delete ----

    /** gone is the order in which the VM's forwards left the kernel. */
    method DeleteVm(id: string, removes: Key -> bool, teardown: VmChains.TeardownRuns, unlink: bool)
      returns (r: Result<(), OpError>, gone: seq<PortForward>)
      requires Valid()
      modifies this, numa, ipv6, portForwards, firewall.nft
      ensures Valid()
      ensures Possible(Site(), old(State()), DoDelete(id, DeleteEnv(gone, removes, teardown, unlink)))
      ensures (State(), r) == Delete(Site(), old(State()), id, DeleteEnv(gone, removes, teardown, unlink))
    {
      ghost var before := State();
      if id !in vms {
        gone := portForwards.ListForVm(id);
        return Err(NotFound), gone;
      }
      gone := Dismantle(id, removes, teardown, unlink);
      r := Ok(());
      DeleteIsSound(Site(), before, id, DeleteEnv(gone, removes, teardown, unlink));
    }

    /** Everything a live VM holds is given back. */
    method Dismantle(id: string, removes: Key -> bool, teardown: VmChains.TeardownRuns, unlink: bool)
      returns (gone: seq<PortForward>)
      requires id in vms && numa.Valid() && ipv6.Valid() && portForwards.Valid()
      modifies this, numa, ipv6, portForwards, firewall.nft
      ensures Lists(gone, OfVm(old(portForwards.forwards), id))
      ensures State() == Delete(Site(), old(State()), id, DeleteEnv(gone, removes, teardown, unlink)).0
    {
      var handle := vms[id];
      vms := vms - {id};
      if handle.numaNode.Some? {
        var size := if handle.config.hugepageSize.Some? then handle.config.hugepageSize.value else Numa.Size2M;
        numa.Release(handle.numaNode.value, handle.config.vcpus, handle.config.memoryMb, size);
      }
      gone := portForwards.RemoveAllForVm(id);
      RemoveRules(gone, removes);
      if handle.ipv6.Some? && firewall.config.ipv6Enabled {
        var freed := ipv6.Release(id);
      }
      var torn := firewall.TeardownVm(id, teardown);
      usedIpOffsets := usedIpOffsets - {Ipv4.OffsetOf(gateway, handle.ip)};
      if unlink { disk := disk - {id}; }
    }

    /** Failures are ignored. */
    method RemoveRules(gone: seq<PortForward>, removes: Key -> bool)
      modifies firewall.nft
      ensures firewall.nft.kernel == Translations.RemoveAll(firewall.config, old(firewall.nft.kernel), gone, removes)
    {
      var i := 0;
      while i < |gone|
        invariant 0 <= i <= |gone|
        invariant Translations.RemoveAll(firewall.config, firewall.nft.kernel, gone[i..], removes)
               == Translations.RemoveAll(firewall.config, old(firewall.nft.kernel), gone, removes)
      {
        assert gone[i..][0] == gone[i] && gone[i..][1..] == gone[i + 1..];
        var ignored := firewall.RemovePortForward(gone[i].hostPort, gone[i].protocol, removes(KeyOf(gone[i])));
        i := i + 1;
      }
    }

    // ---- port forwards ----

    /** Rewrites the VM's file with its forwards, if the file is there. */
    method UpdatePersistedPortForwards(id: string, save: bool) returns (listed: seq<PortForward>)
      requires portForwards.Valid()
      modifies this
      ensures vms == old(vms) && usedIpOffsets == old(usedIpOffsets)
      ensures Lists(listed, OfVm(portForwards.forwards, id))
      ensures forall up :: disk == Repersisted(old(disk), id, ForwardEnv(up, save, listed))
    {
      listed := portForwards.ListForVm(id);
      if id in disk && save {
        disk := disk[id := disk[id].(forwards := listed)];
      }
    }

    /** The port is chosen, checked and reserved under one lock. */
    method Reserve(id: string, hostPort: U16, vmPort: U16, protocol: Protocol) returns (r: Result<PortForward, OpError>)
      requires portForwards.Valid()
      modifies portForwards
      ensures portForwards.Valid()
      ensures match ChosenPort(old(portForwards.forwards), hostPort, protocol)
              case Err(e) => r == Err(e) && portForwards.forwards == old(portForwards.forwards)
              case Ok(port) =>
                && r == Ok(PortForward(id, port, vmPort, protocol)) && KeyOf(r.value) !in old(portForwards.forwards)
                && portForwards.forwards == old(portForwards.forwards)[KeyOf(r.value) := r.value]
    {
      var port := hostPort;
      if hostPort == 0 {
        var free := portForwards.AutoAllocate(protocol, AUTO_START);
        if free.None? { return Err(NoFreePort); }
        port := free.value;
      } else if !portForwards.IsAvailable(hostPort, protocol) {
        return Err(PortInUse);
      }
      var forward := PortForward(id, port, vmPort, protocol);
      portForwards.Add(forward);
      r := Ok(forward);
    }

    method AddPortForward(id: string, hostPort: U16, vmPort: U16, protocol: Protocol, nft: bool, save: bool)
      returns (r: Result<PortForward, OpError>, listed: seq<PortForward>)
      requires Valid()
      modifies this, portForwards, firewall.nft
      ensures Valid()
      ensures Possible(Site(), old(State()), DoAdd(id, hostPort, vmPort, protocol, ForwardEnv(nft, save, listed)))
      ensures (State(), r)
              == AddForwardTo(Site(), old(State()), id, hostPort, vmPort, protocol, ForwardEnv(nft, save, listed))
    {
      ghost var before := State();
      r, listed := TryAdd(id, hostPort, vmPort, protocol, nft, save);
      AddIsSound(Site(), before, id, hostPort, vmPort, protocol, ForwardEnv(nft, save, listed));
    }

    method TryAdd(id: string, hostPort: U16, vmPort: U16, protocol: Protocol, nft: bool, save: bool)
      returns (r: Result<PortForward, OpError>, listed: seq<PortForward>)
      requires portForwards.Valid()
      modifies this, portForwards, firewall.nft
      ensures r.Ok? ==> Lists(listed, OfVm(portForwards.forwards, id))
      ensures (State(), r)
              == AddForwardTo(Site(), old(State()), id, hostPort, vmPort, protocol, ForwardEnv(nft, save, listed))
    {
      if id !in vms { return Err(NotFound), []; }
      var guestIp := vms[id].ip;
      var reserved := Reserve(id, hostPort, vmPort, protocol);
      if reserved.Err? { return reserved, []; }
      var forward := reserved.value;
      var installed := firewall.AddPortForward(id, guestIp, forward.hostPort, vmPort, protocol, nft);
      if installed.Err? {
        var back := portForwards.Remove(forward.hostPort, forward.protocol);
        assert portForwards.forwards == old(portForwards.forwards);
        return Err(NftFailure(installed.error)), [];
      }
      listed := UpdatePersistedPortForwards(id, save);
      r := Ok(forward);
    }

    method RemovePortForward(hostPort: U16, protocol: Protocol, nft: bool, save: bool)
      returns (r: Result<(), OpError>, listed: seq<PortForward>)
      requires Valid()
      modifies this, portForwards, firewall.nft
      ensures Valid()
      ensures Possible(Site(), old(State()), DoRemove(hostPort, protocol, ForwardEnv(nft, save, listed)))
      ensures (State(), r) == RemoveForwardFrom(Site(), old(State()), hostPort, protocol, ForwardEnv(nft, save, listed))
    {
      ghost var before := State();
      r, listed := TryRemove(hostPort, protocol, nft, save);
      RemoveIsSound(Site(), before, hostPort, protocol, ForwardEnv(nft, save, listed));
    }

    method TryRemove(hostPort: U16, protocol: Protocol, nft: bool, save: bool)
      returns (r: Result<(), OpError>, listed: seq<PortForward>)
      requires portForwards.Valid()
      modifies this, portForwards, firewall.nft
      ensures var key := (hostPort, protocol);
              key in old(portForwards.forwards) && r.Ok? ==>
                Lists(listed, OfVm(portForwards.forwards, old(portForwards.forwards)[key].vmId))
      ensures (State(), r) == RemoveForwardFrom(Site(), old(State()), hostPort, protocol, ForwardEnv(nft, save, listed))
    {
      var forward := portForwards.Remove(hostPort, protocol);
      if forward.None? {
        assert portForwards.forwards == old(portForwards.forwards);
        return Err(NoSuchForward), [];
      }
      var removed := firewall.RemovePortForward(hostPort, protocol, nft);
      if removed.Err? { return Err(NftFailure(removed.error)), []; }
      listed := UpdatePersistedPortForwards(forward.value.vmId, save);
      r := Ok(());
    }

    // ---- recovery ----

    /** The files of the state directory that can be read, in the arbitrary order of a directory
        listing; the others are skipped. */
    method LoadAllVms(readable: string -> bool) returns (order: seq<string>)
      ensures ListsIds(order, set id | id in disk && readable(id))
    {
      order := [];
      var rest := disk.Keys;
      while rest != {}
        invariant ReadOnce(order) && rest <= disk.Keys
        invariant Elements(order) == set id | id in disk && id !in rest && readable(id)
        decreases |rest|
      {
        var id :| id in rest;
        if readable(id) {
          assert id !in order by { assert id !in Elements(order); }
          ElementsAppend(order, id);
          order := order + [id];
        }
        rest := rest - {id};
      }
      assert Elements(order) == set id | id in disk && readable(id);
    }

    method RestoreForwards(fs: seq<PortForward>)
      requires portForwards.Valid()
      modifies portForwards
      ensures portForwards.Valid() && portForwards.forwards == Added(old(portForwards.forwards), fs)
    {
      var i := 0;
      while i < |fs|
        invariant 0 <= i <= |fs| && portForwards.Valid()
        invariant Added(portForwards.forwards, fs[i..]) == Added(old(portForwards.forwards), fs)
      {
        assert fs[i..][0] == fs[i] && fs[i..][1..] == fs[i + 1..];
        portForwards.Add(fs[i]);
        i := i + 1;
      }
    }

    /** Replays a running VM's rules; failures are only logged. */
    method RestoreRules(id: string, saved: Saved, env: RecoverEnv)
      requires env.running(id)
      modifies firewall.nft
      ensures firewall.nft.kernel == RestoredKernel(firewall.config, old(firewall.nft.kernel), id, saved, env)
    {
      var setup := firewall.SetupVm(id, saved.tap, env.setup(id));
      ghost var ready := firewall.nft.kernel;
      var fs := saved.forwards;
      var i := 0;
      while i < |fs|
        invariant 0 <= i <= |fs|
        invariant Replayed(firewall.config, firewall.nft.kernel, id, saved.ip, fs[i..], env.forward)
               == Replayed(firewall.config, ready, id, saved.ip, fs, env.forward)
      {
        assert fs[i..][0] == fs[i] && fs[i..][1..] == fs[i + 1..];
        var ignored := firewall.AddPortForward(id, saved.ip, fs[i].hostPort, fs[i].vmPort, fs[i].protocol,
                                               env.forward(KeyOf(fs[i])));
        i := i + 1;
      }
    }

    /** Ranges are parsed from text, so they are well formed. */
    predicate ValidRange(saved: Saved) { saved.ipv6.Some? ==> saved.ipv6.value.Valid() }

    /** One saved VM is brought back. */
    method Restore(id: string, env: RecoverEnv)
      requires numa.Valid() && ipv6.Valid() && portForwards.Valid() && id in disk && ValidRange(disk[id])
      modifies this, numa, ipv6, portForwards, firewall.nft
      ensures numa.Valid() && ipv6.Valid() && portForwards.Valid()
      ensures State() == RecoverOne(Site(), old(State()), id, env)
    {
      var saved := disk[id];
      usedIpOffsets := usedIpOffsets + {Ipv4.OffsetOf(gateway, saved.ip)};
      if env.running(id) && saved.numaNode.Some? {
        var placed := numa.Allocate(saved.config.vcpus, saved.config.memoryMb, saved.numaNode,
                                    saved.config.confidential);
      }
      if saved.ipv6.Some? && firewall.config.ipv6Enabled {
        var granted := ipv6.Allocate(id, Some(saved.ipv6.value));
      }
      RestoreForwards(saved.forwards);
      if env.running(id) { RestoreRules(id, saved, env); }
      vms := vms[id := Restored(saved, StateOf(id, env))];
    }

    /** recover_vms; order is the order in which the files were read. */
    method RecoverVms(env: RecoverEnv) returns (order: seq<string>)
      requires numa.Valid() && ipv6.Valid() && portForwards.Valid()
      requires forall id :: id in disk ==> ValidRange(disk[id])
      modifies this, numa, ipv6, portForwards, firewall.nft
      ensures ListsIds(order, set id | id in old(disk) && env.readable(id))
      ensures State() == RecoverAll(Site(), old(State()), order, env)
    {
      ghost var before := State();
      order := LoadAllVms(env.readable);
      assert forall id :: id in order ==> id in Elements(order) && id in before.disk;
      var i := 0;
      while i < |order|
        invariant 0 <= i <= |order| && numa.Valid() && ipv6.Valid() && portForwards.Valid()
        invariant State() == RecoverAll(Site(), before, order[..i], env)
      {
        RecoverNext(Site(), before, order, i, env);
        Restore(order[i], env);
        i := i + 1;
      }
      assert order[..i] == order;
    }
  }
}
