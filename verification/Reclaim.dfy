/** What a creation takes and a deletion gives back. */
module Reclaim {
  import opened Wrappers
  import opened Words
  import opened VmConfigs
  import opened PortForwards
  import opened DnatRules
  import opened Translations
  import opened Ledger
  import opened LedgerSafety
  import opened Recovery
  import opened Nft
  import opened Firewall
  import opened VmChains
  import HostBoot
  import Ipv4
  import Ipv6
  import Numa

  // ---- the kernel ----

  predicate MatchesOne(c: Config, e: Entry, key: Key) {
    IsDnatRuleMatching(e, c.SupervisorPrerouting(), key.0, key.1)
  }

  function ListedTest(c: Config, gone: seq<PortForward>, up: Key -> bool): Entry -> bool {
    e => exists i :: 0 <= i < |gone| && up(KeyOf(gone[i])) && MatchesOne(c, e, KeyOf(gone[i]))
  }

  lemma ListedHead(c: Config, gone: seq<PortForward>, up: Key -> bool, e: Entry)
    requires gone != []
    ensures ListedTest(c, gone, up)(e)
       <==> (up(KeyOf(gone[0])) && MatchesOne(c, e, KeyOf(gone[0]))) || ListedTest(c, gone[1..], up)(e)
  {
    if i :| 0 <= i < |gone| && up(KeyOf(gone[i])) && MatchesOne(c, e, KeyOf(gone[i])) {
      assert i > 0 ==> gone[1..][i - 1] == gone[i];
    }
    if i :| 0 <= i < |gone[1..]| && up(KeyOf(gone[1..][i])) && MatchesOne(c, e, KeyOf(gone[1..][i])) {
      assert gone[i + 1] == gone[1..][i];
    }
  }

  lemma RemoveOneDrops(c: Config, k: Kernel, hostPort: U16, protocol: Protocol)
    requires WellFormed(k)
    ensures RemoveForward(c, k, hostPort, protocol, true)
         == Ok(k.(rules := Without(k.rules, MatchingTest(c.SupervisorPrerouting(), hostPort, protocol))))
  {
    DeleteSelected(k.rules, k.next, MatchingTest(c.SupervisorPrerouting(), hostPort, protocol));
  }

  /** A series of removals drops the rules for the ports it reaches and nothing else. */
  lemma {:induction false} RemoveAllDrops(c: Config, k: Kernel, gone: seq<PortForward>, up: Key -> bool)
    requires WellFormed(k)
    ensures WellFormed(RemoveAll(c, k, gone, up))
    ensures RemoveAll(c, k, gone, up) == k.(rules := Without(k.rules, ListedTest(c, gone, up)))
    decreases |gone|
  {
    RemoveAllWellFormed(c, k, gone, up);
    if gone == [] {
      WithoutNone(k.rules, ListedTest(c, gone, up));
    } else {
      var f, rest := gone[0], ListedTest(c, gone[1..], up);
      forall e ensures ListedTest(c, gone, up)(e) <==> (up(KeyOf(f)) && MatchesOne(c, e, KeyOf(f))) || rest(e) {
        ListedHead(c, gone, up, e);
      }
      if up(KeyOf(f)) {
        var drop := MatchingTest(c.SupervisorPrerouting(), f.hostPort, f.protocol);
        RemoveOneDrops(c, k, f.hostPort, f.protocol);
        RemoveForwardAccepted(c, k, f.hostPort, f.protocol);
        RemoveAllDrops(c, k.(rules := Without(k.rules, drop)), gone[1..], up);
        WithoutTwice(k.rules, drop, rest, ListedTest(c, gone, up));
      } else {
        RemoveAllDrops(c, k, gone[1..], up);
        SameWithout(k.rules, rest, ListedTest(c, gone, up));
      }
    }
  }

  lemma {:induction false} SameWithout(rs: Ruleset, p: Entry -> bool, q: Entry -> bool)
    requires forall e :: e in rs ==> (p(e) <==> q(e))
    ensures Without(rs, p) == Without(rs, q)
  {
    if rs != [] {
      SameWithout(rs[1..], p, q);
    }
  }

  /** The prerouting rules for the VM's ports whose removal goes through. */
  function ForwardTest(c: Config, m: Forwards, id: string, removes: Key -> bool): Entry -> bool {
    e => exists k :: k in m && m[k].vmId == id && removes(k) && MatchesOne(c, e, k)
  }

  function EitherTest(p: Entry -> bool, q: Entry -> bool): Entry -> bool { e => p(e) || q(e) }

  lemma ListedIsForward(c: Config, m: Forwards, id: string, gone: seq<PortForward>, removes: Key -> bool, e: Entry)
    requires Keyed(m) && Lists(gone, OfVm(m, id))
    ensures ListedTest(c, gone, removes)(e) <==> ForwardTest(c, m, id, removes)(e)
  {
    if i :| 0 <= i < |gone| && removes(KeyOf(gone[i])) && MatchesOne(c, e, KeyOf(gone[i])) {
      assert KeyOf(gone[i]) in OfVm(m, id);
    }
    if k :| k in m && m[k].vmId == id && removes(k) && MatchesOne(c, e, k) {
      assert k in OfVm(m, id) && m[k] in gone;
      var i :| 0 <= i < |gone| && gone[i] == m[k];
      assert KeyOf(gone[i]) == k;
    }
  }

  /** A deletion drops the rules of the VM's forwards whose removal goes through and, exactly when
      no goto from elsewhere holds on to a chain of the VM, every trace of the VM. Nothing else
      goes, also when nft is away, and nothing new comes. */
  lemma DeleteClears(g: Setting, n: Node, id: string, env: DeleteEnv)
    requires id in n.vms && ForwardsOwned(n) && WellFormed(n.kernel) && Lists(env.gone, OfVm(n.forwards, id))
    ensures var c, forwards := g.firewall, ForwardTest(g.firewall, n.forwards, id, env.removes);
            var rules, rules' := n.kernel.rules, Apply(g, n, DoDelete(id, env)).kernel.rules;
            && (env.teardown == BOTH_RUN ==> (NoTrace(c, id, rules') <==> !Blocked(c, id, Without(rules, forwards))))
            && (env.teardown == BOTH_RUN && NoTrace(c, id, rules')
                ==> rules' == Without(rules, EitherTest(forwards, TraceOfTest(c, id))))
            && (forall e :: e in rules && !forwards(e) && !TraceOf(c, id, e) ==> e in rules')
            && (forall e :: e in rules' ==> e in rules)
  {
    var c, rules, forwards := g.firewall, n.kernel.rules, ForwardTest(g.firewall, n.forwards, id, env.removes);
    var k := RemoveAll(c, n.kernel, env.gone, env.removes);
    RemovedForwards(g, n, id, env);
    if env.teardown == BOTH_RUN {
      TeardownExactly(c, k, id);
      TeardownClearsExactlyWhen(c, k, id);
      WithoutTwice(rules, forwards, TraceOfTest(c, id), EitherTest(forwards, TraceOfTest(c, id)));
    }
    forall e | e in rules && !forwards(e) && !TraceOf(c, id, e)
      ensures e in TeardownVm(c, k, id, env.teardown).0.rules
    {
      InWithout(rules, forwards, e);
      TeardownSpares(c, k, id, e, env.teardown);
    }
    forall e | e in TeardownVm(c, k, id, env.teardown).0.rules ensures e in rules {
      TeardownAddsNone(c, k, id, env.teardown, e);
      InWithout(rules, forwards, e);
    }
  }

  lemma RemovedForwards(g: Setting, n: Node, id: string, env: DeleteEnv)
    requires ForwardsOwned(n) && WellFormed(n.kernel) && Lists(env.gone, OfVm(n.forwards, id))
    ensures var k := RemoveAll(g.firewall, n.kernel, env.gone, env.removes);
            && WellFormed(k)
            && k.rules == Without(n.kernel.rules, ForwardTest(g.firewall, n.forwards, id, env.removes))
  {
    var listed := ListedTest(g.firewall, env.gone, env.removes);
    RemoveAllDrops(g.firewall, n.kernel, env.gone, env.removes);
    forall e ensures listed(e) <==> ForwardTest(g.firewall, n.forwards, id, env.removes)(e) {
      ListedIsForward(g.firewall, n.forwards, id, env.gone, env.removes, e);
    }
    SameWithout(n.kernel.rules, listed, ForwardTest(g.firewall, n.forwards, id, env.removes));
  }

  lemma TeardownAddsNone(c: Config, k: Kernel, vm: string, runs: TeardownRuns, e: Entry)
    requires WellFormed(k) && e in TeardownVm(c, k, vm, runs).0.rules
    ensures e in k.rules
  {
    var r := RemoveChain(k, c.VmNat(vm), runs.natChain);
    RemoveEverywhereExactly(k, c.VmNat(vm));
    if r.Some? {
      ExecWellFormed(k, RemoveEverywhere(k.rules, c.VmNat(vm)));
      RemoveEverywhereExactly(r.value, c.VmFilter(vm));
      InWithout(k.rules, TraceTest(c.VmNat(vm)), e);
      InWithout(r.value.rules, TraceTest(c.VmFilter(vm)), e);
    }
  }

  /** With nft running and no goto to a chain of the VM to begin with, nothing of the VM is left. */
  lemma DeleteLeavesNoTrace(g: Setting, n: Node, id: string, env: DeleteEnv)
    requires id in n.vms && ForwardsOwned(n) && WellFormed(n.kernel) && Lists(env.gone, OfVm(n.forwards, id))
    requires env.teardown == BOTH_RUN && !Blocked(g.firewall, id, n.kernel.rules)
    ensures NoTrace(g.firewall, id, Apply(g, n, DoDelete(id, env)).kernel.rules)
  {
    var forwards := ForwardTest(g.firewall, n.forwards, id, env.removes);
    if Blocked(g.firewall, id, Without(n.kernel.rules, forwards)) {
      FewerBlockLess(g.firewall, id, n.kernel.rules, forwards);
    }
    DeleteClears(g, n, id, env);
  }

  // ---- addresses and forwards ----

  /** A deletion takes away the VM's entries in every table and no other's. */
  lemma DeleteFreesEntries(g: Setting, n: Node, id: string, env: DeleteEnv)
    requires Sound(g, n) && id in n.vms
    ensures var n' := Apply(g, n, DoDelete(id, env));
            && n'.vms == n.vms - {id}
            && OffsetFor(g, n.vms[id]) in n.used && n'.used == n.used - {OffsetFor(g, n.vms[id])}
            && (g.firewall.ipv6Enabled ==> id in n.ipv6)
            && n'.ipv6 == (if g.firewall.ipv6Enabled then n.ipv6 - {id} else n.ipv6)
            && n'.disk == (if env.unlink then n.disk - {id} else n.disk)
            && (forall k :: k in n'.forwards <==> k in n.forwards && n.forwards[k].vmId != id)
            && (forall k :: k in n'.forwards ==> n'.forwards[k] == n.forwards[k])
  {
  }

  // ---- the NUMA share ----

  /** The page size a release goes by. */
  function ReleasedSize(h: Handle): Numa.HugePageSize {
    if h.config.hugepageSize.Some? then h.config.hugepageSize.value else Numa.Size2M
  }

  /** A deletion takes the VM's vCPUs and pages off the counters of the node it ran on, down to
      zero at most, and nothing off any other node. */
  lemma DeleteReleasesShare(g: Setting, n: Node, id: string, env: DeleteEnv, i: nat, kind: Numa.Resource)
    requires Sound(g, n) && id in n.vms && Numa.DistinctIds(n.numa.nodes) && i < |n.numa.nodes|
    ensures var n', h := Apply(g, n, DoDelete(id, env)), n.vms[id];
            var claim := Numa.Claim(h.config.vcpus, h.config.memoryMb, ReleasedSize(h), kind);
            && Numa.WellFormed(n'.numa) && n'.numa.nodes == n.numa.nodes
            && Numa.Counter(n'.numa, i, kind)
               == if h.numaNode != Some(n.numa.nodes[i].id) then Numa.Counter(n.numa, i, kind)
                  else if claim <= Numa.Counter(n.numa, i, kind) then Numa.Counter(n.numa, i, kind) - claim
                  else 0
  {
    var h := n.vms[id];
    if h.numaNode.Some? {
      Numa.ReleaseTakesClaim(n.numa, h.numaNode.value, h.config.vcpus, h.config.memoryMb, ReleasedSize(h), i, kind);
    }
  }

  // ---- what a successful creation takes ----

  ghost function PlacementFor(st: Numa.State, ask: Ask): Result<Numa.Placement, Numa.NumaError> {
    Numa.PlacementOf(st, NumaRequest(ask.config), ask.numaHint)
  }

  /** The VM's record names the placement it was given. */
  ghost predicate Records(st: Numa.State, h: Handle, ask: Ask) {
    var p := PlacementFor(st, ask);
    && p.Ok? && h.numaNode == Some(p.value.node) && h.config.hugepageSize == Some(p.value.hugepageSize)
    && h.config.vcpus == ask.config.vcpus && h.config.memoryMb == ask.config.memoryMb && h.tap == TapName(ask.id)
  }

  lemma ConnectedTakes(g: Setting, n: Node, ask: Ask, offset: Ipv4.Offset, net: Option<Ipv6.Net>, env: CreateEnv)
    requires CreateConnected(g, n, ask, offset, net, env).1.Ok?
    ensures var n' := CreateConnected(g, n, ask, offset, net, env).0;
            && n'.kernel == n.kernel && ask.id in n'.vms && Records(n.numa, n'.vms[ask.id], ask)
            && n'.numa == Numa.AllocateState(n.numa, NumaRequest(ask.config), ask.numaHint)
            && RunsPlan(n.numa, n'.vms[ask.id], ask, env)
  {
  }

  /** The VM's configuration has the disks it was booted with and, on a host of several nodes, the
      node it was placed on. */
  ghost predicate RunsPlan(st: Numa.State, h: Handle, ask: Ask, env: CreateEnv) {
    var plan := HostBoot.Prepared(ask.config, env.verity);
    && plan.Ok? && h.config.disks == plan.value.disks && HostBoot.FirstPanic(plan.value.disks).None?
    && (|st.nodes| > 1 ==> h.config.numaNode == h.numaNode)
  }

  /** A successful creation leaves the VM's chains set up and its share taken, and its record
      names the share. */
  lemma CreateTakes(g: Setting, n: Node, ask: Ask, env: CreateEnv)
    requires Create(g, n, ask, env).1.Ok?
    ensures var n' := Create(g, n, ask, env).0;
            var setup := SetupVm(g.firewall, n.kernel, ask.id, TapName(ask.id), env.setup);
            && setup.Ok? && env.setup && n'.kernel == setup.value
            && ask.id in n'.vms && Records(n.numa, n'.vms[ask.id], ask) && RunsPlan(n.numa, n'.vms[ask.id], ask, env)
            && n'.numa == Numa.AllocateState(n.numa, NumaRequest(ask.config), ask.numaHint)
  {
    CreateUnfolds(g, n, ask, env);
    var taken, offset := Taken(g, n, ask, env), LowestFree(n.used, FIRST_OFFSET).value;
    var net := if g.firewall.ipv6Enabled then Some(env.draw.value) else None;
    var k := SetupVm(g.firewall, n.kernel, ask.id, TapName(ask.id), env.setup).value;
    ConnectedTakes(g, taken.(kernel := k), ask, offset, net, env);
  }

  /** A successful creation adds to the counters of the node it names the VM's vCPUs and, for a
      confidential VM, its pages, and nothing to any other's. */
  lemma CreateChargesShare(g: Setting, n: Node, ask: Ask, env: CreateEnv, i: nat, kind: Numa.Resource)
    requires Sound(g, n) && Numa.DistinctIds(n.numa.nodes) && i < |n.numa.nodes| && Create(g, n, ask, env).1.Ok?
    ensures var n' := Create(g, n, ask, env).0;
            && ask.id in n'.vms && n'.vms[ask.id].config.hugepageSize.Some?
            && Numa.WellFormed(n'.numa) && n'.numa.nodes == n.numa.nodes
            && var h := n'.vms[ask.id];
               Numa.Counter(n'.numa, i, kind)
               == Numa.Counter(n.numa, i, kind)
                  + if h.numaNode == Some(n.numa.nodes[i].id) && (kind == Numa.Vcpus || ask.config.confidential)
                    then Numa.Claim(ask.config.vcpus, ask.config.memoryMb, h.config.hugepageSize.value, kind) else 0
  {
    CreateTakes(g, n, ask, env);
    Numa.PlacementCharges(n.numa, NumaRequest(ask.config), ask.numaHint, i, kind);
  }

  /** A running VM that is recovered takes its share again, on the node its file names, when that
      node has room; otherwise, and for a stopped VM, the counters stay. */
  lemma RecoveryTakesShareAgain(g: Setting, n: Node, id: string, env: RecoverEnv, i: nat, kind: Numa.Resource)
    requires id in n.disk && Numa.WellFormed(n.numa) && Numa.DistinctIds(n.numa.nodes) && i < |n.numa.nodes|
    ensures var n', s := RecoverOne(g, n, id, env), n.disk[id];
            var p := Numa.PlacementOf(n.numa, NumaRequest(s.config), s.numaNode);
            && Numa.WellFormed(n'.numa) && n'.numa.nodes == n.numa.nodes
            && (s.numaNode == Some(n.numa.nodes[i].id) ==> (p.Ok? <==> Numa.Fits(n.numa, i, NumaRequest(s.config))))
            && Numa.Counter(n'.numa, i, kind)
               == Numa.Counter(n.numa, i, kind)
                  + if env.running(id) && s.numaNode == Some(n.numa.nodes[i].id) && p.Ok?
                       && (kind == Numa.Vcpus || s.config.confidential)
                    then Numa.Claim(s.config.vcpus, s.config.memoryMb, p.value.hugepageSize, kind) else 0
  {
    var s := n.disk[id];
    assert Numa.NodeIndex(n.numa.nodes, n.numa.nodes[i].id) == i;
    Numa.FitsIffPool(n.numa, i, NumaRequest(s.config));
    if s.numaNode.Some? && Numa.PlacementOf(n.numa, NumaRequest(s.config), s.numaNode).Ok? {
      Numa.PlacementNames(n.numa, NumaRequest(s.config), s.numaNode);
      Numa.PlacementCharges(n.numa, NumaRequest(s.config), s.numaNode, i, kind);
    }
  }

  // ---- there and back ----

  lemma ShareComesBackExactlyWhen(st: Numa.State, h: Handle, ask: Ask)
    requires Numa.WellFormed(st) && Numa.DistinctIds(st.nodes) && Records(st, h, ask)
    ensures ReleasedNuma(Numa.AllocateState(st, NumaRequest(ask.config), ask.numaHint), h) == st
       <==> !TakesPagesOf(st, ask)
  {
    FailedStartGivesBackExactlyWhen(st, ask);
  }

  lemma RulesComeBack(g: Setting, n: Node, ask: Ask, env: CreateEnv, delete: DeleteEnv)
    requires WellFormed(n.kernel) && NoTrace(g.firewall, ask.id, n.kernel.rules) && Create(g, n, ask, env).1.Ok?
    requires delete.gone == [] && delete.teardown == BOTH_RUN
    ensures Delete(g, Create(g, n, ask, env).0, ask.id, delete).0.kernel.rules == n.kernel.rules
  {
    CreateTakes(g, n, ask, env);
    TeardownUndoesSetup(g.firewall, n.kernel, ask.id, TapName(ask.id));
  }

  lemma EntriesComeBack(g: Setting, n: Node, ask: Ask, env: CreateEnv, delete: DeleteEnv)
    requires ForwardsOwned(n) && Create(g, n, ask, env).1.Ok? && ask.id !in n.disk && ask.id !in n.ipv6 && delete.unlink
    ensures var back := Delete(g, Create(g, n, ask, env).0, ask.id, delete).0;
            && back.vms == n.vms && back.used == n.used && back.disk == n.disk && back.ipv6 == n.ipv6
            && back.forwards == n.forwards
  {
    var taken, made := Taken(g, n, ask, env), Create(g, n, ask, env).0;
    var offset, net := CreateBirth(g, n, ask, env);
    BornGoes(g, taken, made, ask.id, offset, net, env.save, delete);
  }

  lemma CreateBirth(g: Setting, n: Node, ask: Ask, env: CreateEnv) returns (offset: Ipv4.Offset, net: Option<Ipv6.Net>)
    requires Create(g, n, ask, env).1.Ok?
    ensures var taken, made := Taken(g, n, ask, env), Create(g, n, ask, env).0;
            && Born(g, taken, made, ask.id, offset, net, env.save)
            && (net.Some? <==> g.firewall.ipv6Enabled) && ask.id !in n.vms
            && offset !in n.used && made.used == taken.used == n.used + {offset}
            && made.forwards == n.forwards && taken == n.(used := taken.used, ipv6 := taken.ipv6)
            && (ask.id !in n.ipv6 ==> (if net.Some? then taken.ipv6 - {ask.id} else taken.ipv6) == n.ipv6)
  {
    CreateEffect(g, n, ask, env);
    offset := LowestFree(n.used, FIRST_OFFSET).value;
    net := if g.firewall.ipv6Enabled then Some(env.draw.value) else None;
  }

  /** Deleting a new VM takes away what its birth brought and its addresses. */
  lemma BornGoes(g: Setting, n: Node, n': Node, id: string, offset: Ipv4.Offset, net: Option<Ipv6.Net>, save: bool,
                 delete: DeleteEnv)
    requires Born(g, n, n', id, offset, net, save) && n'.used == n.used && n'.forwards == n.forwards
    requires id !in n.vms && id !in n.disk && ForwardsOwned(n) && delete.unlink
    requires net.Some? <==> g.firewall.ipv6Enabled
    ensures var back := Delete(g, n', id, delete).0;
            && back.vms == n.vms && back.disk == n.disk && back.forwards == n.forwards && back.used == n.used - {offset}
            && back.ipv6 == if net.Some? then n.ipv6 - {id} else n.ipv6
  {
    Ipv4.OffsetRecovered(g.gateway, offset);
    assert n'.vms - {id} == n.vms && n'.disk - {id} == n.disk;
    assert WithoutVm(n.forwards, id) == n.forwards;
  }

  lemma ListedIsThere(listed: seq<PortForward>, m: Forwards)
    requires Lists(listed, m)
    ensures listed != [] ==> m != map[]
  {
    if listed != [] { assert KeyOf(listed[0]) in m; }
  }

  /** Creating a VM of which nothing was there and deleting it again, with nft running and the
      file removed, restores everything but the handle counter: the tables and the rules always,
      the NUMA counters exactly when giving its share back takes no pages of others. */
  lemma DeleteUndoesCreate(g: Setting, n: Node, ask: Ask, env: CreateEnv, delete: DeleteEnv)
    requires Sound(g, n) && WellFormed(n.kernel) && Numa.DistinctIds(n.numa.nodes) && Create(g, n, ask, env).1.Ok?
    requires NoTrace(g.firewall, ask.id, n.kernel.rules) && ask.id !in n.disk && ask.id !in n.ipv6
    requires var made := Create(g, n, ask, env).0;
             delete.unlink && delete.teardown == BOTH_RUN && Lists(delete.gone, OfVm(made.forwards, ask.id))
    ensures var made := Create(g, n, ask, env).0;
            var back := Delete(g, made, ask.id, delete).0;
            && back.vms == n.vms && back.used == n.used && back.disk == n.disk && back.ipv6 == n.ipv6
            && back.forwards == n.forwards && back.kernel.rules == n.kernel.rules
            && ask.id in made.vms
            && (back.numa == n.numa <==> !TakesPagesOf(n.numa, ask))
  {
    var made := Create(g, n, ask, env).0;
    CreateTakes(g, n, ask, env);
    CreateEffect(g, n, ask, env);
    assert OfVm(made.forwards, ask.id) == map[];
    ListedIsThere(delete.gone, OfVm(made.forwards, ask.id));
    EntriesComeBack(g, n, ask, env, delete);
    RulesComeBack(g, n, ask, env, delete);
    ShareComesBackExactlyWhen(n.numa, made.vms[ask.id], ask);
  }

  // ---- what a failed creation leaves behind ----

  /** The errors that strike before the offset is taken. */
  predicate BeforeOffset(e: CreateError) { e.AlreadyExists? || e.AddressesExhausted? }

  /** The errors after which the IPv6 range is kept: no clean-up runs, or it finds the allocator's
      lock taken. */
  predicate KeepsRange(e: CreateError, unlocked: bool) {
    match e
    case AlreadyExists => false
    case AddressesExhausted => false
    case Ipv6Failed(_) => false
    case Dhcpv6Failed => false
    case TapFailed => !unlocked
    case FirewallFailed(_) => !unlocked
    case SpawnFailed => !unlocked
    case DhcpFailed => true
    case NoBackend => true
    case BootFailed(_) => true
    case NumaFailed(_) => true
    case BadDisk(_) => true
  }

  /** The errors after which the VM's chains stay as they were set up. */
  predicate KeepsChains(e: CreateError) { e.NoBackend? || e.BootFailed? || e.NumaFailed? || e.BadDisk? }

  ghost predicate LeavesAddresses(g: Setting, n: Node, n': Node, id: string, e: CreateError, unlocked: bool) {
    && n'.vms == n.vms && n'.disk == n.disk && n'.forwards == n.forwards
    && (n'.used == n.used <==> BeforeOffset(e))
    && (n'.ipv6 == n.ipv6 <==> !g.firewall.ipv6Enabled || !KeepsRange(e, unlocked))
  }

  lemma PlacedFails(g: Setting, n: Node, ask: Ask, disks: seq<Disk>, p: Numa.Placement, offset: Ipv4.Offset,
                    net: Option<Ipv6.Net>, env: CreateEnv)
    requires CreatePlaced(g, n, ask, disks, p, offset, net, env).1.Err?
    ensures var (n', r) := CreatePlaced(g, n, ask, disks, p, offset, net, env);
            && (r.error.BadDisk? || r.error.SpawnFailed?)
            && n'.ipv6 == (if net.Some? && r.error.SpawnFailed? && env.unlocked then n.ipv6 - {ask.id} else n.ipv6)
            && n'.kernel == (if r.error.SpawnFailed?
                             then TeardownVm(g.firewall, n.kernel, ask.id, env.teardown).0 else n.kernel)
            && n'.numa == (if r.error.SpawnFailed?
                           then Numa.ReleaseState(n.numa, p.node, ask.config.vcpus, ask.config.memoryMb, p.hugepageSize)
                           else n.numa)
  {
  }

  lemma ConnectedFails(g: Setting, n: Node, ask: Ask, offset: Ipv4.Offset, net: Option<Ipv6.Net>, env: CreateEnv)
    requires CreateConnected(g, n, ask, offset, net, env).1.Err?
    ensures var (n', r) := CreateConnected(g, n, ask, offset, net, env);
            && (KeepsChains(r.error) || r.error.SpawnFailed?)
            && n'.ipv6 == (if net.Some? && !KeepsRange(r.error, env.unlocked) then n.ipv6 - {ask.id} else n.ipv6)
            && n'.kernel == (if KeepsChains(r.error) then n.kernel
                             else TeardownVm(g.firewall, n.kernel, ask.id, env.teardown).0)
            && LeavesShare(n.numa, n'.numa, ask, r.error)
  {
    var p, boot := PlacementFor(n.numa, ask), HostBoot.Prepared(ask.config, env.verity);
    if env.backend && boot.Ok? && p.Ok? {
      var taken := n.(numa := Numa.AllocateState(n.numa, NumaRequest(ask.config), ask.numaHint));
      PlacedFails(g, taken, ask, boot.value.disks, p.value, offset, net, env);
    }
  }

  /** The share is kept after a disk QEMU cannot be given, given back after a failed start, and
      never taken before. */
  ghost predicate LeavesShare(st: Numa.State, st': Numa.State, ask: Ask, e: CreateError) {
    var p, taken := PlacementFor(st, ask), Numa.AllocateState(st, NumaRequest(ask.config), ask.numaHint);
    if e.BadDisk? then p.Ok? && st' == taken
    else if e.SpawnFailed? then
      && p.Ok?
      && st' == Numa.ReleaseState(taken, p.value.node, ask.config.vcpus, ask.config.memoryMb, p.value.hugepageSize)
    else st' == st
  }

  /** What is left of the kernel's side: the chains after some errors, what a teardown left after a
      failed start, and nothing of it otherwise. */
  ghost predicate LeavesKernel(g: Setting, k: Kernel, k': Kernel, ask: Ask, env: CreateEnv, e: CreateError) {
    var setup := SetupVm(g.firewall, k, ask.id, TapName(ask.id), env.setup);
    if KeepsChains(e) then setup.Ok? && k' == setup.value
    else if e.SpawnFailed? then
      setup.Ok? && env.setup && k' == TeardownVm(g.firewall, setup.value, ask.id, env.teardown).0
    else k' == k
  }

  lemma LeasedFails(g: Setting, n: Node, ask: Ask, offset: Ipv4.Offset, net: Option<Ipv6.Net>, env: CreateEnv)
    requires CreateLeased(g, n, ask, offset, net, env).1.Err?
    ensures var (n', r) := CreateLeased(g, n, ask, offset, net, env);
            && !BeforeOffset(r.error) && !r.error.Ipv6Failed?
            && n'.ipv6 == (if net.Some? && !KeepsRange(r.error, env.unlocked) then n.ipv6 - {ask.id} else n.ipv6)
            && LeavesKernel(g, n.kernel, n'.kernel, ask, env, r.error) && LeavesShare(n.numa, n'.numa, ask, r.error)
  {
    var setup := SetupVm(g.firewall, n.kernel, ask.id, TapName(ask.id), env.setup);
    if setup.Ok? && CreateConnected(g, n.(kernel := setup.value), ask, offset, net, env).1.Err? {
      ConnectedFails(g, n.(kernel := setup.value), ask, offset, net, env);
    }
  }

  lemma FailureUnfolds(g: Setting, n: Node, ask: Ask, env: CreateEnv)
    requires Create(g, n, ask, env).1.Err?
    ensures var (n', r) := Create(g, n, ask, env);
            if Proceeds(g, n, ask, env) then
              var net := if g.firewall.ipv6Enabled then Some(env.draw.value) else None;
              && !BeforeOffset(r.error) && !r.error.Ipv6Failed?
              && n'.ipv6 == (if net.Some? && !KeepsRange(r.error, env.unlocked)
                             then Taken(g, n, ask, env).ipv6 - {ask.id} else Taken(g, n, ask, env).ipv6)
              && LeavesKernel(g, n.kernel, n'.kernel, ask, env, r.error) && LeavesShare(n.numa, n'.numa, ask, r.error)
            else
              n' == Taken(g, n, ask, env) && (BeforeOffset(r.error) || r.error.Ipv6Failed?)
  {
    CreateUnfolds(g, n, ask, env);
    if Proceeds(g, n, ask, env) {
      LeasedFails(g, Taken(g, n, ask, env), ask, LowestFree(n.used, FIRST_OFFSET).value,
                  if g.firewall.ipv6Enabled then Some(env.draw.value) else None, env);
    }
  }

  lemma FailureLeavesAddresses(g: Setting, n: Node, ask: Ask, env: CreateEnv)
    requires Create(g, n, ask, env).1.Err? && ask.id !in n.ipv6
    ensures LeavesAddresses(g, n, Create(g, n, ask, env).0, ask.id, Create(g, n, ask, env).1.error, env.unlocked)
  {
    FailureUnfolds(g, n, ask, env);
    CreateEffect(g, n, ask, env);
    var n', e := Create(g, n, ask, env).0, Create(g, n, ask, env).1.error;
    OffsetStaysExactlyWhen(g, n, ask, env);
    if g.firewall.ipv6Enabled && env.draw.Ok? && Proceeds(g, n, ask, env) {
      assert Taken(g, n, ask, env).ipv6 - {ask.id} == n.ipv6;
      assert ask.id in Taken(g, n, ask, env).ipv6;
    }
  }

  lemma OffsetStaysExactlyWhen(g: Setting, n: Node, ask: Ask, env: CreateEnv)
    requires Create(g, n, ask, env).1.Err?
    ensures Taken(g, n, ask, env).used == n.used <==> BeforeOffset(Create(g, n, ask, env).1.error)
  {
    FailureUnfolds(g, n, ask, env);
    var free := LowestFree(n.used, FIRST_OFFSET);
    if ask.id !in n.vms && free.Some? {
      assert free.value in Taken(g, n, ask, env).used;
    }
  }

  /** What a creation that fails leaves behind, error by error: no VM, file or forward ever; its
      offset after every error that strikes later than the offset is taken; its range where no
      clean-up releases it; its chains after the errors between firewall and start; and of its
      NUMA share all after a bad disk, and after a failed start exactly what giving it back loses
      for others. */
  lemma FailedCreateLeaves(g: Setting, n: Node, ask: Ask, env: CreateEnv)
    requires Sound(g, n) && WellFormed(n.kernel) && Numa.DistinctIds(n.numa.nodes)
    requires Create(g, n, ask, env).1.Err? && ask.id !in n.ipv6 && NoTrace(g.firewall, ask.id, n.kernel.rules)
    ensures var n', e := Create(g, n, ask, env).0, Create(g, n, ask, env).1.error;
            && LeavesAddresses(g, n, n', ask.id, e, env.unlocked)
            && (if KeepsChains(e)
                then SetupVm(g.firewall, n.kernel, ask.id, TapName(ask.id), env.setup) == Ok(n'.kernel)
                else (e.SpawnFailed? && env.teardown != BOTH_RUN) || n'.kernel.rules == n.kernel.rules)
            && (if e.BadDisk? then n'.numa == Numa.AllocateState(n.numa, NumaRequest(ask.config), ask.numaHint)
                else if e.SpawnFailed? then n'.numa == n.numa <==> !TakesPagesOf(n.numa, ask)
                else n'.numa == n.numa)
  {
    FailureLeavesAddresses(g, n, ask, env);
    FailureUnfolds(g, n, ask, env);
    if Create(g, n, ask, env).1.error.SpawnFailed? {
      TeardownUndoesSetup(g.firewall, n.kernel, ask.id, TapName(ask.id));
      FailedStartGivesBackExactlyWhen(n.numa, ask);
    }
  }

  /** The node the VM would be placed on has 2M pages in use, and the VM, using none, would be
      taken to give some back. */
  ghost predicate TakesPagesOf(st: Numa.State, ask: Ask)
    requires Numa.WellFormed(st)
  {
    && !ask.config.confidential && ask.config.memoryMb > 0 && PlacementFor(st, ask).Ok?
    && exists i: nat :: i < |st.nodes| && PlacementFor(st, ask).value.node == st.nodes[i].id && st.pages2m[i] > 0
  }

  lemma FailedStartGivesBackExactlyWhen(st: Numa.State, ask: Ask)
    requires Numa.WellFormed(st) && Numa.DistinctIds(st.nodes) && PlacementFor(st, ask).Ok?
    ensures var p, taken := PlacementFor(st, ask).value, Numa.AllocateState(st, NumaRequest(ask.config), ask.numaHint);
            Numa.ReleaseState(taken, p.node, ask.config.vcpus, ask.config.memoryMb, p.hugepageSize) == st
            <==> !TakesPagesOf(st, ask)
  {
    var req := NumaRequest(ask.config);
    Numa.ReleaseUndoesAllocateExactlyWhen(st, req, ask.numaHint);
    var c := Numa.Choose(st, req, ask.numaHint).value;
    assert Numa.NodeIndex(st.nodes, st.nodes[c].id) == c;
    forall i: nat | i < |st.nodes| && PlacementFor(st, ask).value.node == st.nodes[i].id ensures i == c {
      assert Numa.NodeIndex(st.nodes, st.nodes[i].id) == i;
    }
  }
}
