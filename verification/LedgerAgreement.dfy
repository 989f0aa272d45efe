/** How far kernel and disk agree with the ledger in memory: what each operation does to that
    agreement, and exactly when it is kept. */
module LedgerAgreement {
  import opened Wrappers
  import opened Words
  import opened PortForwards
  import opened DnatRules
  import opened Translations
  import opened Packets
  import opened Routes
  import opened Ledger
  import opened LedgerSafety
  import Ipv4
  import Ipv6
  import Nft
  import Numa
  import VmChains

  // ---- agreement ----

  function TargetFor(f: PortForward, ip: Ipv4.Addr): Target { Target(f.protocol, f.hostPort, ip, f.vmPort) }

  /** The translations the port-forward map calls for. */
  ghost function Targets(vms: map<string, Handle>, m: Forwards): set<Target> {
    set k | k in m && m[k].vmId in vms :: TargetFor(m[k], vms[m[k].vmId].ip)
  }

  /** Where the port-forward map sends a packet. */
  function Wanted(vms: map<string, Handle>, m: Forwards, p: Packet): set<Destination> {
    set k | k in m && m[k].vmId in vms && Hits(p, m[k].protocol, m[k].hostPort) :: (vms[m[k].vmId].ip, m[k].vmPort)
  }

  /** The kernel sends every packet exactly where the port-forward map does, by rules of the
      program's own shape. */
  ghost predicate FirewallAgrees(g: Setting, n: Node) {
    var chain := g.firewall.SupervisorPrerouting();
    && Nft.WellFormed(n.kernel) && NoStray(n.kernel.rules, chain)
    && forall p :: Destinations(n.kernel.rules, chain, p) == Wanted(n.vms, n.forwards, p)
  }

  lemma WantedIsSent(vms: map<string, Handle>, m: Forwards, p: Packet)
    ensures Wanted(vms, m, p) == Sent(Targets(vms, m), p)
  {
    forall k | k in m && m[k].vmId in vms && Hits(p, m[k].protocol, m[k].hostPort)
      ensures (vms[m[k].vmId].ip, m[k].vmPort) in Sent(Targets(vms, m), p)
    {
      assert TargetFor(m[k], vms[m[k].vmId].ip) in Targets(vms, m);
    }
  }

  /** Sending alike means having installed exactly the map's forwards. */
  lemma AgreesExactlyWhen(g: Setting, n: Node)
    ensures FirewallAgrees(g, n) <==> Translated(g.firewall, n.kernel, Targets(n.vms, n.forwards))
  {
    var chain := g.firewall.SupervisorPrerouting();
    forall p ensures Wanted(n.vms, n.forwards, p) == Sent(Targets(n.vms, n.forwards), p) {
      WantedIsSent(n.vms, n.forwards, p);
    }
    if NoStray(n.kernel.rules, chain) {
      SendsAlikeExactlyWhen(n.kernel.rules, chain, Targets(n.vms, n.forwards));
    }
  }

  lemma WantedOne(n: Node, p: Packet, k: Key)
    requires ForwardsOwned(n) && k in n.forwards && Hits(p, k.1, k.0)
    ensures Wanted(n.vms, n.forwards, p) == {(n.vms[n.forwards[k].vmId].ip, n.forwards[k].vmPort)}
  {
    ProtocolTextInjective();
    forall j | j in n.forwards && Hits(p, n.forwards[j].protocol, n.forwards[j].hostPort) ensures j == k {}
  }

  /** In agreement, where the prerouting chain holds nothing but forwards, a packet for a
      forwarded port goes to the owner's address and port, and any other passes. */
  lemma AgreedPacketsArrive(g: Setting, n: Node, f: Nft.Family, t: string, p: Packet, depth: nat)
    requires ForwardsOwned(n) && FirewallAgrees(g, n)
    requires OnlyForwards(n.kernel.rules, f, t, g.firewall.SupervisorPrerouting())
    ensures var fate := ChainFate(n.kernel.rules, f, t, g.firewall.SupervisorPrerouting(), p, depth);
            && (forall k | k in n.forwards && Hits(p, k.1, k.0) ::
                  fate == Redirects(n.vms[n.forwards[k].vmId].ip, n.forwards[k].vmPort))
            && ((forall k | k in n.forwards :: !Hits(p, k.1, k.0)) ==> fate == Falls)
  {
    OnlyForwardsSends(n.kernel.rules, f, t, g.firewall.SupervisorPrerouting(), p, depth);
    forall k | k in n.forwards && Hits(p, k.1, k.0)
      ensures Wanted(n.vms, n.forwards, p) == {(n.vms[n.forwards[k].vmId].ip, n.forwards[k].vmPort)}
    {
      WantedOne(n, p, k);
    }
  }

  ghost predicate Matches(s: Saved, h: Handle) {
    && s.config == h.config && s.ip == h.ip && s.ipv6 == h.ipv6 && s.tap == h.tap && s.numaNode == h.numaNode
    && s.mac == Ipv4.MacForVmIp(h.ip)
  }

  /** The state directory holds exactly the live VMs, each with its own forwards. */
  ghost predicate Mirrored(n: Node) {
    && n.disk.Keys == n.vms.Keys
    && forall id :: id in n.vms ==> Matches(n.disk[id], n.vms[id]) && Lists(n.disk[id].forwards, OfVm(n.forwards, id))
  }

  /** The rules the operation has to remove are removed; anything may fail to be added, written
      or unlinked. */
  ghost predicate RemovalsWork(n: Node, op: Op) {
    match op
    case DoCreate(_, _) => true
    case DoDelete(id, env) => forall k :: k in n.forwards && n.forwards[k].vmId == id && id in n.vms ==> env.removes(k)
    case DoAdd(_, _, _, _, _) => true
    case DoRemove(hostPort, protocol, env) => env.nft || (hostPort, protocol) !in n.forwards
  }

  /** The files the operation has to change are changed, or it changes nothing. */
  ghost predicate FilesWork(g: Setting, n: Node, op: Op)
  {
    match op
    case DoCreate(ask, env) => env.save || Create(g, n, ask, env).1.Err?
    case DoDelete(id, env) => env.unlink || id !in n.vms
    case DoAdd(id, hostPort, vmPort, protocol, env) =>
      env.save || AddForwardTo(g, n, id, hostPort, vmPort, protocol, env).1.Err?
    case DoRemove(hostPort, protocol, env) => (env.nft && env.save) || (hostPort, protocol) !in n.forwards
  }

  // ---- the kernel: create ----

  /** Whatever a creation comes to, the translations stay as they were. */
  lemma CreateKeepsTranslations(g: Setting, n: Node, ask: Ask, env: CreateEnv, end: (Node, Result<(), CreateError>),
                                want: set<Target>)
    requires CreateOutcome(g, n, ask, env, end) && Translated(g.firewall, n.kernel, want)
    ensures Translated(g.firewall, end.0.kernel, want)
    ensures OneRuleEach(g.firewall, n.kernel) ==> OneRuleEach(g.firewall, end.0.kernel)
  {
    var setup := VmChains.SetupVm(g.firewall, n.kernel, ask.id, TapName(ask.id), env.setup);
    if setup.Ok? {
      SetupKeeps(g.firewall, n.kernel, ask.id, TapName(ask.id), env.setup, want);
      TeardownKeeps(g.firewall, setup.value, ask.id, env.teardown, want);
    }
  }

  lemma CreateKeepsTargets(g: Setting, n: Node, ask: Ask, env: CreateEnv, end: (Node, Result<(), CreateError>))
    requires CreateOutcome(g, n, ask, env, end) && ForwardsOwned(n)
    ensures Targets(end.0.vms, end.0.forwards) == Targets(n.vms, n.forwards)
  {
    assert forall k :: k in n.forwards ==>
      n.forwards[k].vmId in end.0.vms && end.0.vms[n.forwards[k].vmId] == n.vms[n.forwards[k].vmId];
  }

  // ---- the kernel: delete ----

  /** The translations of forwards whose removal failed. */
  ghost function Leftover(vms: map<string, Handle>, m: Forwards, id: string, removes: Key -> bool): set<Target>
    requires id in vms
  {
    set k | k in m && m[k].vmId == id && !removes(k) :: TargetFor(m[k], vms[id].ip)
  }

  /** What a deletion leaves translated: the other VMs' forwards, and the removals that failed. */
  lemma SparedTargets(vms: map<string, Handle>, m: Forwards, id: string, gone: seq<PortForward>, removes: Key -> bool)
    requires Keyed(m) && Lists(gone, OfVm(m, id)) && id in vms
    ensures Spared(Targets(vms, m), gone, removes)
            == Targets(vms - {id}, WithoutVm(m, id)) + Leftover(vms, m, id, removes)
  {
    var left := WithoutVm(m, id);
    forall k | k in m && m[k].vmId == id ensures exists i :: 0 <= i < |gone| && KeyOf(gone[i]) == k {
      assert OfVm(m, id)[k] in gone;
    }
    forall d ensures d in Spared(Targets(vms, m), gone, removes)
      <==> d in Targets(vms - {id}, left) + Leftover(vms, m, id, removes) {
      if d in Spared(Targets(vms, m), gone, removes) {
        var k :| k in m && m[k].vmId in vms && d == TargetFor(m[k], vms[m[k].vmId].ip);
        assert k == (d.hostPort, d.protocol);
        assert m[k].vmId == id ==> !removes(k);
        assert m[k].vmId != id ==> k in left;
      }
      if d in Targets(vms - {id}, left) {
        var k :| k in left && left[k].vmId in vms - {id} && d == TargetFor(left[k], vms[left[k].vmId].ip);
        assert k == (d.hostPort, d.protocol) && k in m;
        assert k !in OfVm(m, id);
      }
    }
  }

  lemma LeftoverEmptyExactlyWhen(vms: map<string, Handle>, m: Forwards, id: string, removes: Key -> bool)
    requires Keyed(m) && id in vms
    ensures Targets(vms - {id}, WithoutVm(m, id))
            == Targets(vms - {id}, WithoutVm(m, id)) + Leftover(vms, m, id, removes)
            <==> forall k :: k in m && m[k].vmId == id ==> removes(k)
  {
    var left := Targets(vms - {id}, WithoutVm(m, id));
    forall k | k in m && m[k].vmId == id && !removes(k)
      ensures TargetFor(m[k], vms[id].ip) in Leftover(vms, m, id, removes) && TargetFor(m[k], vms[id].ip) !in left
    {
    }
  }

  /** A deletion leaves installed exactly the other VMs' forwards and the removals that failed;
      so kernel and memory agree exactly when every removal of this VM's forwards succeeded. */
  lemma DeleteAgreesExactlyWhen(g: Setting, n: Node, id: string, env: DeleteEnv)
    requires ForwardsOwned(n) && FirewallAgrees(g, n)
    requires id in n.vms && Lists(env.gone, OfVm(n.forwards, id))
    ensures var n' := Delete(g, n, id, env).0;
            var left := Leftover(n.vms, n.forwards, id, env.removes);
            && Translated(g.firewall, n'.kernel, Targets(n'.vms, n'.forwards) + left)
            && (OneRuleEach(g.firewall, n.kernel) ==> OneRuleEach(g.firewall, n'.kernel))
            && (FirewallAgrees(g, n') <==> forall k :: k in n.forwards && n.forwards[k].vmId == id ==> env.removes(k))
  {
    var want := Targets(n.vms, n.forwards);
    var cleared := RemoveAll(g.firewall, n.kernel, env.gone, env.removes);
    AgreesExactlyWhen(g, n);
    RemoveAllClears(g.firewall, n.kernel, env.gone, env.removes, want);
    TeardownKeeps(g.firewall, cleared, id, env.teardown, Spared(want, env.gone, env.removes));
    SparedTargets(n.vms, n.forwards, id, env.gone, env.removes);
    LeftoverEmptyExactlyWhen(n.vms, n.forwards, id, env.removes);
    var n' := Delete(g, n, id, env).0;
    AgreesExactlyWhen(g, n');
    if FirewallAgrees(g, n') {
      TranslatedOnce(g.firewall, n'.kernel, Targets(n'.vms, n'.forwards),
                     Targets(n'.vms, n'.forwards) + Leftover(n.vms, n.forwards, id, env.removes));
    }
  }

  // ---- the kernel: port forwards ----

  lemma TargetsWith(vms: map<string, Handle>, m: Forwards, f: PortForward)
    requires Keyed(m) && KeyOf(f) !in m && f.vmId in vms
    ensures Targets(vms, m[KeyOf(f) := f]) == Targets(vms, m) + {TargetFor(f, vms[f.vmId].ip)}
    ensures TargetFor(f, vms[f.vmId].ip) !in Targets(vms, m)
  {
    var m' := m[KeyOf(f) := f];
    var d := TargetFor(f, vms[f.vmId].ip);
    assert d !in Targets(vms, m);
    forall x ensures x in Targets(vms, m') <==> x in Targets(vms, m) + {d} {
      if x in Targets(vms, m) {
        var k :| k in m && m[k].vmId in vms && x == TargetFor(m[k], vms[m[k].vmId].ip);
        assert k in m' && m'[k] == m[k];
      }
      if x == d { assert KeyOf(f) in m'; }
    }
  }

  lemma AddKeepsFirewall(g: Setting, n: Node, id: string, hostPort: U16, vmPort: U16, protocol: Protocol,
                         env: ForwardEnv)
    requires ForwardsOwned(n) && FirewallAgrees(g, n)
    ensures var n' := AddForwardTo(g, n, id, hostPort, vmPort, protocol, env).0;
            FirewallAgrees(g, n') && (OneRuleEach(g.firewall, n.kernel) ==> OneRuleEach(g.firewall, n'.kernel))
  {
    var (n', r) := AddForwardTo(g, n, id, hostPort, vmPort, protocol, env);
    AgreesExactlyWhen(g, n);
    AgreesExactlyWhen(g, n');
    if r.Ok? {
      var d := TargetFor(r.value, n.vms[id].ip);
      TargetsWith(n.vms, n.forwards, r.value);
      AddForwardInstalls(g.firewall, n.kernel, id, d, env.nft, Targets(n.vms, n.forwards));
    }
  }

  lemma TargetsLess(vms: map<string, Handle>, m: Forwards, hostPort: U16, protocol: Protocol)
    requires Keyed(m)
    ensures Targets(vms, m - {(hostPort, protocol)})
            == set d | d in Targets(vms, m) && !(d.hostPort == hostPort && d.protocol == protocol)
  {
    var m' := m - {(hostPort, protocol)};
    forall d ensures d in Targets(vms, m')
      <==> d in Targets(vms, m) && !(d.hostPort == hostPort && d.protocol == protocol) {
      if d in Targets(vms, m) && !(d.hostPort == hostPort && d.protocol == protocol) {
        var k :| k in m && m[k].vmId in vms && d == TargetFor(m[k], vms[m[k].vmId].ip);
        assert k in m' && m'[k] == m[k];
      }
    }
  }

  /** Removing a forward keeps kernel and memory in agreement exactly when nft ran or there was
      nothing to remove: memory forgets the forward before the kernel is asked. */
  lemma RemoveAgreesExactlyWhen(g: Setting, n: Node, hostPort: U16, protocol: Protocol, env: ForwardEnv)
    requires ForwardsOwned(n) && FirewallAgrees(g, n)
    ensures var n' := RemoveForwardFrom(g, n, hostPort, protocol, env).0;
            && (FirewallAgrees(g, n') <==> env.nft || (hostPort, protocol) !in n.forwards)
            && (OneRuleEach(g.firewall, n.kernel) ==> OneRuleEach(g.firewall, n'.kernel))
  {
    var key := (hostPort, protocol);
    AgreesExactlyWhen(g, n);
    RemoveForwardClears(g.firewall, n.kernel, hostPort, protocol, Targets(n.vms, n.forwards));
    TargetsLess(n.vms, n.forwards, hostPort, protocol);
    var n' := RemoveForwardFrom(g, n, hostPort, protocol, env).0;
    AgreesExactlyWhen(g, n');
    assert key in n.forwards ==>
      TargetFor(n.forwards[key], n.vms[n.forwards[key].vmId].ip) in Targets(n.vms, n.forwards);
    if !env.nft && FirewallAgrees(g, n') {
      TranslatedOnce(g.firewall, n.kernel, Targets(n.vms, n.forwards), Targets(n'.vms, n'.forwards));
    }
  }

  /** One operation keeps the kernel in agreement exactly when the removals it needs succeed, and
      never adds a second rule for a forward. */
  lemma StepAgreesExactlyWhen(g: Setting, n: Node, op: Op)
    requires Sound(g, n) && Possible(g, n, op) && FirewallAgrees(g, n)
    ensures FirewallAgrees(g, Apply(g, n, op)) <==> RemovalsWork(n, op)
    ensures OneRuleEach(g.firewall, n.kernel) ==> OneRuleEach(g.firewall, Apply(g, n, op).kernel)
  {
    match op
    case DoCreate(ask, env) =>
      CreateEffect(g, n, ask, env);
      AgreesExactlyWhen(g, n);
      AgreesExactlyWhen(g, Create(g, n, ask, env).0);
      CreateKeepsTargets(g, n, ask, env, Create(g, n, ask, env));
      CreateKeepsTranslations(g, n, ask, env, Create(g, n, ask, env), Targets(n.vms, n.forwards));
    case DoDelete(id, env) => if id in n.vms { DeleteAgreesExactlyWhen(g, n, id, env); }
    case DoAdd(id, hostPort, vmPort, protocol, env) => AddKeepsFirewall(g, n, id, hostPort, vmPort, protocol, env);
    case DoRemove(hostPort, protocol, env) => RemoveAgreesExactlyWhen(g, n, hostPort, protocol, env);
  }

  lemma InitialAgrees(g: Setting, n: Node)
    requires Initial(g, n)
    ensures FirewallAgrees(g, n)
  {
    AgreesExactlyWhen(g, n);
    assert Targets(n.vms, n.forwards) == {};
  }

  /** In every run in which the rule removals that are needed succeed, whatever else fails, the
      installed translations are exactly the port-forward map after every operation, by one rule
      each. */
  lemma {:induction false} EveryRunTranslatesItsForwards(g: Setting, states: seq<Node>, ops: seq<Op>, i: nat)
    requires IsRun(g, states, ops) && i < |states| && forall j :: 0 <= j < i ==> RemovalsWork(states[j], ops[j])
    ensures Sound(g, states[i]) && FirewallAgrees(g, states[i]) && OneRuleEach(g.firewall, states[i].kernel)
  {
    if i == 0 {
      InitialIsSound(g, states[0]);
      InitialAgrees(g, states[0]);
    } else {
      EveryRunTranslatesItsForwards(g, states, ops, i - 1);
      assert IsStep(g, states[i - 1], ops[i - 1], states[i]);
      StepIsSound(g, states[i - 1], ops[i - 1]);
      StepAgreesExactlyWhen(g, states[i - 1], ops[i - 1]);
    }
  }

  // ---- the kernel stays well formed ----

  lemma CreateWellFormed(g: Setting, n: Node, ask: Ask, env: CreateEnv, end: (Node, Result<(), CreateError>))
    requires CreateOutcome(g, n, ask, env, end) && Nft.WellFormed(n.kernel)
    ensures Nft.WellFormed(end.0.kernel)
  {
    var setup := VmChains.SetupVm(g.firewall, n.kernel, ask.id, TapName(ask.id), env.setup);
    if setup.Ok? {
      VmChains.SetupIsAccepted(g.firewall, n.kernel, ask.id, TapName(ask.id));
      VmChains.TeardownWellFormed(g.firewall, setup.value, ask.id, env.teardown);
    }
  }

  lemma StepWellFormed(g: Setting, n: Node, op: Op)
    requires Nft.WellFormed(n.kernel)
    ensures Nft.WellFormed(Apply(g, n, op).kernel)
  {
    match op
    case DoCreate(ask, env) =>
      CreateEffect(g, n, ask, env);
      CreateWellFormed(g, n, ask, env, Create(g, n, ask, env));
    case DoDelete(id, env) =>
      RemoveAllWellFormed(g.firewall, n.kernel, env.gone, env.removes);
      VmChains.TeardownWellFormed(g.firewall, RemoveAll(g.firewall, n.kernel, env.gone, env.removes), id, env.teardown);
    case DoAdd(id, hostPort, vmPort, protocol, env) => AddWellFormed(g, n, id, hostPort, vmPort, protocol, env);
    case DoRemove(hostPort, protocol, env) => RemoveForwardAccepted(g.firewall, n.kernel, hostPort, protocol);
  }

  lemma AddWellFormed(g: Setting, n: Node, id: string, hostPort: U16, vmPort: U16, protocol: Protocol, env: ForwardEnv)
    requires Nft.WellFormed(n.kernel)
    ensures Nft.WellFormed(AddForwardTo(g, n, id, hostPort, vmPort, protocol, env).0.kernel)
  {
    var port := ChosenPort(n.forwards, hostPort, protocol);
    if id in n.vms && port.Ok? {
      var d := Target(protocol, port.value, n.vms[id].ip, vmPort);
      if AddForward(g.firewall, n.kernel, id, d, env.nft).Ok? {
        AddForwardWellFormed(g.firewall, n.kernel, id, d, env.nft);
      }
    }
  }

  // ---- the disk ----

  lemma BornIsMirrored(g: Setting, n: Node, n': Node, id: string, offset: Ipv4.Offset, net: Option<Ipv6.Net>)
    requires Born(g, n, n', id, offset, net, true) && id !in n.vms
    requires ForwardsOwned(n) && Mirrored(n) && n'.forwards == n.forwards
    ensures Mirrored(n')
  {
    assert OfVm(n.forwards, id) == map[];
  }

  lemma CreateMirrorsExactlyWhen(g: Setting, n: Node, ask: Ask, env: CreateEnv, end: (Node, Result<(), CreateError>))
    requires CreateOutcome(g, n, ask, env, end) && ForwardsOwned(n) && Mirrored(n)
    ensures Mirrored(end.0) <==> env.save || end.1.Err?
  {
    if end.1.Ok? && env.save {
      BornIsMirrored(g, Taken(g, n, ask, env), end.0, ask.id, LowestFree(n.used, FIRST_OFFSET).value,
                     if g.firewall.ipv6Enabled then Some(env.draw.value) else None);
    } else if end.1.Ok? {
      assert ask.id in end.0.vms && ask.id !in end.0.disk;
    }
  }

  lemma OthersKeepWithoutVm(m: Forwards, id: string)
    ensures forall other :: other != id ==> OfVm(WithoutVm(m, id), other) == OfVm(m, other)
  {
    forall other | other != id ensures OfVm(WithoutVm(m, id), other) == OfVm(m, other) {}
  }

  lemma DroppingMirrors(n: Node, n': Node, id: string)
    requires Mirrored(n) && n'.vms == n.vms - {id} && n'.disk == n.disk - {id}
             && n'.forwards == WithoutVm(n.forwards, id)
    ensures Mirrored(n')
  {
    OthersKeepWithoutVm(n.forwards, id);
  }

  lemma DeleteMirrorsExactlyWhen(g: Setting, n: Node, id: string, env: DeleteEnv)
    requires Mirrored(n)
    ensures Mirrored(Delete(g, n, id, env).0) <==> env.unlink || id !in n.vms
  {
    if id in n.vms && env.unlink { DroppingMirrors(n, Delete(g, n, id, env).0, id); }
  }

  /** Rewriting one VM's file with its own forwards restores the mirror. */
  lemma RepersistMirrors(n: Node, n': Node, id: string, listed: seq<PortForward>)
    requires Mirrored(n) && id in n.vms && n'.vms == n.vms
    requires n'.disk == n.disk[id := n.disk[id].(forwards := listed)] && Lists(listed, OfVm(n'.forwards, id))
    requires forall other :: other != id ==> OfVm(n'.forwards, other) == OfVm(n.forwards, other)
    ensures Mirrored(n')
  {
  }

  lemma OthersKeepForwards(m: Forwards, f: PortForward)
    requires KeyOf(f) !in m
    ensures forall other :: other != f.vmId ==> OfVm(m[KeyOf(f) := f], other) == OfVm(m, other)
  {
  }

  lemma OthersKeepWithout(m: Forwards, key: Key)
    requires key in m
    ensures forall other :: other != m[key].vmId ==> OfVm(m - {key}, other) == OfVm(m, other)
  {
  }

  /** What an accepted addition does to the disk. */
  lemma AddWrites(g: Setting, n: Node, id: string, hostPort: U16, vmPort: U16, protocol: Protocol, env: ForwardEnv)
    ensures var (n', r) := AddForwardTo(g, n, id, hostPort, vmPort, protocol, env);
            r.Ok? ==> n'.disk == Repersisted(n.disk, id, env)
  {
  }

  lemma AddMirrorsExactlyWhen(g: Setting, n: Node, id: string, hostPort: U16, vmPort: U16, protocol: Protocol,
                              env: ForwardEnv)
    requires Mirrored(n)
    requires var r := AddForwardTo(g, n, id, hostPort, vmPort, protocol, env);
             r.1.Ok? ==> Lists(env.listed, OfVm(r.0.forwards, id))
    ensures var (n', r) := AddForwardTo(g, n, id, hostPort, vmPort, protocol, env);
            Mirrored(n') <==> env.save || r.Err?
  {
    AddForwardEffect(g, n, id, hostPort, vmPort, protocol, env);
    AddWrites(g, n, id, hostPort, vmPort, protocol, env);
    var (n', r) := AddForwardTo(g, n, id, hostPort, vmPort, protocol, env);
    if r.Ok? && env.save {
      OthersKeepForwards(n.forwards, r.value);
      RepersistMirrors(n, n', id, env.listed);
    } else if r.Ok? {
      ListsSameKeys(n.disk[id].forwards, OfVm(n.forwards, id), OfVm(n'.forwards, id));
      assert KeyOf(r.value) in OfVm(n'.forwards, id) && KeyOf(r.value) !in OfVm(n.forwards, id);
    }
  }

  /** What a removal does to memory and disk. */
  lemma RemoveWrites(g: Setting, n: Node, hostPort: U16, protocol: Protocol, env: ForwardEnv)
    requires Nft.WellFormed(n.kernel) && (hostPort, protocol) in n.forwards
    ensures var n' := RemoveForwardFrom(g, n, hostPort, protocol, env).0;
            && n'.vms == n.vms && n'.forwards == n.forwards - {(hostPort, protocol)}
            && n'.disk == if env.nft then Repersisted(n.disk, n.forwards[(hostPort, protocol)].vmId, env) else n.disk
  {
    RemoveForwardAccepted(g.firewall, n.kernel, hostPort, protocol);
  }

  lemma RemoveMirrorsExactlyWhen(g: Setting, n: Node, hostPort: U16, protocol: Protocol, env: ForwardEnv)
    requires ForwardsOwned(n) && Mirrored(n) && Nft.WellFormed(n.kernel)
    requires var r := RemoveForwardFrom(g, n, hostPort, protocol, env);
             var key := (hostPort, protocol);
             r.1.Ok? && key in n.forwards ==> Lists(env.listed, OfVm(r.0.forwards, n.forwards[key].vmId))
    ensures Mirrored(RemoveForwardFrom(g, n, hostPort, protocol, env).0)
            <==> (env.nft && env.save) || (hostPort, protocol) !in n.forwards
  {
    var key := (hostPort, protocol);
    if key in n.forwards {
      RemoveForwardAccepted(g.firewall, n.kernel, hostPort, protocol);
      RemoveWrites(g, n, hostPort, protocol, env);
      var n', id := RemoveForwardFrom(g, n, hostPort, protocol, env).0, n.forwards[key].vmId;
      if env.nft && env.save {
        OthersKeepWithout(n.forwards, key);
        RepersistMirrors(n, n', id, env.listed);
      } else {
        ListsSameKeys(n.disk[id].forwards, OfVm(n.forwards, id), OfVm(n'.forwards, id));
        assert key in OfVm(n.forwards, id) && key !in OfVm(n'.forwards, id);
      }
    }
  }

  /** One operation keeps the disk a mirror of memory exactly when the files it has to change are
      changed; failing rule removals in a deletion do not matter, but a removal of one forward
      that nft refuses leaves its file behind. */
  lemma StepMirrorsExactlyWhen(g: Setting, n: Node, op: Op)
    requires Sound(g, n) && Possible(g, n, op) && Nft.WellFormed(n.kernel) && Mirrored(n)
    ensures Mirrored(Apply(g, n, op)) <==> FilesWork(g, n, op)
  {
    match op
    case DoCreate(ask, env) =>
      CreateEffect(g, n, ask, env);
      CreateMirrorsExactlyWhen(g, n, ask, env, Create(g, n, ask, env));
    case DoDelete(id, env) => DeleteMirrorsExactlyWhen(g, n, id, env);
    case DoAdd(id, hostPort, vmPort, protocol, env) =>
      AddMirrorsExactlyWhen(g, n, id, hostPort, vmPort, protocol, env);
    case DoRemove(hostPort, protocol, env) => RemoveMirrorsExactlyWhen(g, n, hostPort, protocol, env);
  }
}
