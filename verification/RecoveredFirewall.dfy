/** The firewall after a recovery: which translations the replay installs, exactly. */
module RecoveredFirewall {
  import opened PortForwards
  import opened DnatRules
  import opened Translations
  import opened Routes
  import opened Ledger
  import opened LedgerSafety
  import opened LedgerAgreement
  import opened Recovery
  import opened Nft
  import opened Firewall
  import opened VmChains
  import Ipv4

  // ---- what a replay may start from and what it adds ----

  /** The supervisor chains are where setup and forwards look for them, and the prerouting chain
      holds no translation of another shape. */
  ghost predicate Anchored(c: Config, k: Kernel) {
    && WellFormed(k) && NoStray(k.rules, c.SupervisorPrerouting())
    && TableOf(k.rules, Ip, c.SupervisorNat()).Some?
    && TableOf(k.rules, Ip, c.SupervisorFilter()).Some?
    && TableOf(k.rules, Ip, c.SupervisorPrerouting()).Some?
  }

  ghost predicate HasFilter(c: Config, k: Kernel, id: string) { TableOf(k.rules, Ip, c.VmFilter(id)).Some? }

  /** How many rules translate this forward. */
  ghost function Count(c: Config, k: Kernel, d: Target): nat { Installed(k.rules, c.SupervisorPrerouting(), d) }

  /** k' has one rule more than k for each of these forwards and none more for any other. */
  ghost predicate Adds(c: Config, k: Kernel, k': Kernel, more: set<Target>) {
    Anchored(c, k') && forall d :: Count(c, k', d) == Count(c, k, d) + if d in more then 1 else 0
  }

  /** No VM's filter chain but this one's comes or goes. */
  ghost predicate OnlyFilterOf(c: Config, k: Kernel, k': Kernel, id: string) {
    forall v :: v != id ==> (HasFilter(c, k', v) <==> HasFilter(c, k, v))
  }

  lemma AnchoredStays(c: Config, k: Kernel, k': Kernel)
    requires Anchored(c, k) && k.rules <= k'.rules && WellFormed(k') && NoStray(k'.rules, c.SupervisorPrerouting())
    ensures Anchored(c, k')
  {
    var rest := k'.rules[|k.rules|..];
    assert k'.rules == k.rules + rest;
    TableOfAppend(k.rules, rest, Ip, c.SupervisorNat());
    TableOfAppend(k.rules, rest, Ip, c.SupervisorFilter());
    TableOfAppend(k.rules, rest, Ip, c.SupervisorPrerouting());
  }

  /** What the kernel translates. */
  ghost function TargetsOfKernel(c: Config, k: Kernel): set<Target> { TargetsIn(k.rules, c.SupervisorPrerouting()) }

  lemma KernelTranslates(c: Config, k: Kernel)
    requires Anchored(c, k)
    ensures Translated(c, k, TargetsOfKernel(c, k))
  {
    TargetsInIs(k.rules, c.SupervisorPrerouting());
  }

  // ---- one VM ----

  lemma SetupAdds(c: Config, k: Kernel, id: string, tap: string)
    requires Anchored(c, k)
    ensures var r := SetupVm(c, k, id, tap, true);
            r.Ok? && Adds(c, k, r.value, {}) && HasFilter(c, r.value, id) && OnlyFilterOf(c, k, r.value, id)
  {
    SetupAddsNone(c, k, id, tap);
    SetupMakesFilterChain(c, k, id, tap);
    var k' := SetupVm(c, k, id, tap, true).value;
    assert k'.rules == k.rules + k'.rules[|k.rules|..];
    BystandersKeepCounts(k.rules, k'.rules[|k.rules|..], c.SupervisorPrerouting());
    AnchoredStays(c, k, k');
    forall v | v != id ensures HasFilter(c, k', v) <==> HasFilter(c, k, v) {
      SetupLeavesFilter(c, k, id, tap, v);
    }
  }

  lemma SetupLeavesFilter(c: Config, k: Kernel, id: string, tap: string, other: string)
    requires WellFormed(k) && SetupWants(c, k.rules, id, tap).Ok? && other != id
    ensures SetupVm(c, k, id, tap, true).Ok?
    ensures HasFilter(c, SetupVm(c, k, id, tap, true).value, other) <==> HasFilter(c, k, other)
  {
    SetupIsAccepted(c, k, id, tap);
    VmNamesInjective(c, id, other);
    TableOfStable(c, k, id, tap, Ip, c.VmFilter(other));
  }

  /** One forward is replayed exactly when nft runs and the VM's filter chain is there. */
  lemma ForwardAdds(c: Config, k: Kernel, id: string, d: Target, up: bool)
    requires Anchored(c, k)
    ensures var r := AddForward(c, k, id, d, up);
            && (r.Ok? <==> up && HasFilter(c, k, id))
            && (r.Ok? ==> Adds(c, k, r.value, {d}) && forall v :: HasFilter(c, r.value, v) <==> HasFilter(c, k, v))
  {
    AddForwardAccepted(c, k, id, d, up);
    if AddForward(c, k, id, d, up).Ok? {
      AddForwardCounts(c, k, id, d, up);
      var k' := AddForward(c, k, id, d, up).value;
      AnchoredStays(c, k, k');
      var rest := k'.rules[|k.rules|..];
      assert k'.rules == k.rules + rest;
      forall v ensures HasFilter(c, k', v) <==> HasFilter(c, k, v) {
        TableOfAppend(k.rules, rest, Ip, c.VmFilter(v));
        NoTableOf(rest, Ip, c.VmFilter(v));
      }
    }
  }

  /** The forwards of a list whose replay finds nft running. */
  function Tried(fs: seq<PortForward>, ip: Ipv4.Addr, up: Key -> bool): set<Target> {
    set i | 0 <= i < |fs| && up(KeyOf(fs[i])) :: TargetFor(fs[i], ip)
  }

  ghost predicate DistinctKeys(fs: seq<PortForward>) {
    forall i, j :: 0 <= i < j < |fs| ==> KeyOf(fs[i]) != KeyOf(fs[j])
  }

  lemma TriedHead(fs: seq<PortForward>, ip: Ipv4.Addr, up: Key -> bool)
    requires fs != [] && DistinctKeys(fs)
    ensures DistinctKeys(fs[1..])
    ensures Tried(fs, ip, up) == (if up(KeyOf(fs[0])) then {TargetFor(fs[0], ip)} else {}) + Tried(fs[1..], ip, up)
    ensures TargetFor(fs[0], ip) !in Tried(fs[1..], ip, up)
  {
    assert forall i :: 0 < i < |fs| ==> fs[i] == fs[1..][i - 1];
    assert forall i :: 0 <= i < |fs| - 1 ==> fs[1..][i] == fs[i + 1];
  }

  lemma AddsBoth(c: Config, k: Kernel, k1: Kernel, k2: Kernel, a: set<Target>, b: set<Target>)
    requires Adds(c, k, k1, a) && Adds(c, k1, k2, b) && a !! b
    ensures Adds(c, k, k2, a + b)
  {
    forall d ensures Count(c, k2, d) == Count(c, k, d) + if d in a + b then 1 else 0 {
      assert Count(c, k1, d) == Count(c, k, d) + if d in a then 1 else 0;
    }
  }

  lemma {:induction false} ReplayAdds(c: Config, k: Kernel, id: string, ip: Ipv4.Addr, fs: seq<PortForward>,
                                      up: Key -> bool)
    requires Anchored(c, k) && DistinctKeys(fs)
    ensures var k' := Replayed(c, k, id, ip, fs, up);
            && Adds(c, k, k', if HasFilter(c, k, id) then Tried(fs, ip, up) else {})
            && forall v :: HasFilter(c, k', v) <==> HasFilter(c, k, v)
    decreases |fs|
  {
    if fs != [] {
      var d := TargetFor(fs[0], ip);
      var r := AddForward(c, k, id, d, up(KeyOf(fs[0])));
      ForwardAdds(c, k, id, d, up(KeyOf(fs[0])));
      TriedHead(fs, ip, up);
      ReplayAdds(c, if r.Ok? then r.value else k, id, ip, fs[1..], up);
      if r.Ok? { AddsBoth(c, k, r.value, Replayed(c, k, id, ip, fs, up), {d}, Tried(fs[1..], ip, up)); }
    }
  }

  /** What the replay of one saved VM installs: nothing for a stopped VM, and nothing when its
      filter chain is missing. */
  ghost function BackOf(c: Config, k: Kernel, id: string, s: Saved, env: RecoverEnv): set<Target> {
    if env.running(id) && (env.setup(id) || HasFilter(c, k, id)) then Tried(s.forwards, s.ip, env.forward) else {}
  }

  lemma OneAdds(c: Config, k: Kernel, id: string, s: Saved, env: RecoverEnv)
    requires Anchored(c, k) && DistinctKeys(s.forwards)
    ensures var k' := RestoredKernel(c, k, id, s, env);
            Adds(c, k, k', BackOf(c, k, id, s, env)) && OnlyFilterOf(c, k, k', id)
  {
    if env.running(id) {
      var setup := SetupVm(c, k, id, s.tap, env.setup(id));
      if env.setup(id) {
        SetupAdds(c, k, id, s.tap);
        ReplayAdds(c, setup.value, id, s.ip, s.forwards, env.forward);
        AddsBoth(c, k, setup.value, RestoredKernel(c, k, id, s, env), {}, Tried(s.forwards, s.ip, env.forward));
        assert {} + Tried(s.forwards, s.ip, env.forward) == Tried(s.forwards, s.ip, env.forward);
      } else {
        ReplayAdds(c, k, id, s.ip, s.forwards, env.forward);
      }
    }
  }

  // ---- every VM ----

  /** The replay reaches this forward: its VM runs, the VM's filter chain is set up or was there,
      and nft runs for it. */
  ghost predicate IsReplayed(c: Config, start: Kernel, f: PortForward, env: RecoverEnv) {
    env.running(f.vmId) && (env.setup(f.vmId) || HasFilter(c, start, f.vmId)) && env.forward(KeyOf(f))
  }

  /** The translations the recovery of these VMs brings back. */
  ghost function Back(c: Config, start: Kernel, n: Node, done: set<string>, env: RecoverEnv): set<Target>
    requires done <= n.vms.Keys
  {
    set k | k in n.forwards && n.forwards[k].vmId in done && IsReplayed(c, start, n.forwards[k], env)
      :: TargetFor(n.forwards[k], n.vms[n.forwards[k].vmId].ip)
  }

  lemma BackNext(c: Config, start: Kernel, n: Node, done: set<string>, id: string, env: RecoverEnv)
    requires ForwardsOwned(n) && Mirrored(n) && done <= n.vms.Keys && id in n.vms && id !in done
    ensures DistinctKeys(n.disk[id].forwards)
    ensures Back(c, start, n, done + {id}, env) == Back(c, start, n, done, env) + BackOf(c, start, id, n.disk[id], env)
    ensures Back(c, start, n, done, env) !! BackOf(c, start, id, n.disk[id], env)
  {
    var fs, m := n.disk[id].forwards, OfVm(n.forwards, id);
    assert Lists(fs, m) && n.disk[id].ip == n.vms[id].ip by { assert Matches(n.disk[id], n.vms[id]); }
    ListedTargets(n.forwards, id, fs, n.vms[id].ip, env.forward);
  }

  lemma ListedTargets(m: Forwards, id: string, fs: seq<PortForward>, ip: Ipv4.Addr, up: Key -> bool)
    requires Keyed(m) && Lists(fs, OfVm(m, id))
    ensures DistinctKeys(fs)
    ensures Tried(fs, ip, up) == set k | k in m && m[k].vmId == id && up(k) :: TargetFor(m[k], ip)
  {
    var all := set k | k in m && m[k].vmId == id && up(k) :: TargetFor(m[k], ip);
    forall d | d in Tried(fs, ip, up) ensures d in all {
      var i :| 0 <= i < |fs| && up(KeyOf(fs[i])) && d == TargetFor(fs[i], ip);
      assert KeyOf(fs[i]) in OfVm(m, id);
    }
    forall k | k in m && m[k].vmId == id && up(k) ensures TargetFor(m[k], ip) in Tried(fs, ip, up) {
      assert k in OfVm(m, id) && OfVm(m, id)[k] in fs;
    }
  }

  /** Filter chains of VMs not recovered yet are as they were. */
  ghost predicate OthersWait(c: Config, start: Kernel, k: Kernel, done: set<string>) {
    forall v :: v !in done ==> (HasFilter(c, k, v) <==> HasFilter(c, start, v))
  }

  lemma NextAdds(g: Setting, n: Node, start: Kernel, r: Node, done: set<string>, id: string, env: RecoverEnv)
    requires ForwardsOwned(n) && Mirrored(n) && done <= n.vms.Keys && id in n.vms && id !in done
    requires r.disk == n.disk && Anchored(g.firewall, r.kernel)
    requires Adds(g.firewall, start, r.kernel, Back(g.firewall, start, n, done, env))
    requires OthersWait(g.firewall, start, r.kernel, done)
    ensures Adds(g.firewall, start, RecoverOne(g, r, id, env).kernel, Back(g.firewall, start, n, done + {id}, env))
    ensures OthersWait(g.firewall, start, RecoverOne(g, r, id, env).kernel, done + {id})
  {
    var c, s := g.firewall, n.disk[id];
    var k' := RestoredKernel(c, r.kernel, id, s, env);
    BackNext(c, start, n, done, id, env);
    OneAdds(c, r.kernel, id, s, env);
    AddsBoth(c, start, r.kernel, k', Back(c, start, n, done, env), BackOf(c, start, id, s, env));
  }

  lemma NothingBack(c: Config, start: Kernel, n: Node, env: RecoverEnv)
    requires Anchored(c, start)
    ensures Adds(c, start, start, Back(c, start, n, {}, env)) && OthersWait(c, start, start, {})
  {
    assert Back(c, start, n, {}, env) == {};
  }

  lemma {:induction false} PrefixAdds(g: Setting, n: Node, f: Node, order: seq<string>, env: RecoverEnv)
    requires ForwardsOwned(n) && Mirrored(n) && f.disk == n.disk && Anchored(g.firewall, f.kernel)
    requires ReadOnce(order) && Elements(order) <= n.vms.Keys
    ensures var k' := RecoverAll(g, f, order, env).kernel;
            && Adds(g.firewall, f.kernel, k', Back(g.firewall, f.kernel, n, Elements(order), env))
            && OthersWait(g.firewall, f.kernel, k', Elements(order))
  {
    if order == [] {
      NothingBack(g.firewall, f.kernel, n, env);
      assert Elements([]) == {};
    } else {
      SplitLast(order);
      var before, id := order[..|order| - 1], order[|order| - 1];
      PrefixAdds(g, n, f, before, env);
      RecoverLast(g, f, before, id, env);
      NextAdds(g, n, f.kernel, RecoverAll(g, f, before, env), Elements(before), id, env);
    }
  }

  /** Recovery adds exactly one rule for each forward it reaches, and no other translation,
      whatever the kernel held before. */
  lemma RecoveryInstalls(g: Setting, n: Node, f: Node, order: seq<string>, env: RecoverEnv)
    requires Sound(g, n) && Mirrored(n) && Blank(g, f, n.disk) && Anchored(g.firewall, f.kernel)
    requires ReadOnce(order) && Elements(order) <= n.vms.Keys
    ensures Adds(g.firewall, f.kernel, RecoverAll(g, f, order, env).kernel,
                 Back(g.firewall, f.kernel, n, Elements(order), env))
  {
    RecoveryRebuilds(g, n, f, order, env);
    PrefixAdds(g, n, f, order, env);
  }

  // ---- when memory and kernel agree again ----

  lemma AddsTranslates(c: Config, k: Kernel, k': Kernel, want: set<Target>, more: set<Target>)
    requires Translated(c, k, want) && Adds(c, k, k', more)
    ensures Translated(c, k', want + more)
    ensures OneRuleEach(c, k') <==> OneRuleEach(c, k) && want !! more
  {
    var chain := c.SupervisorPrerouting();
    forall d ensures Installed(k'.rules, chain, d) == Installed(k.rules, chain, d) + if d in more then 1 else 0 {
      assert Count(c, k', d) == Count(c, k, d) + if d in more then 1 else 0;
    }
    if OneRuleEach(c, k') {
      forall d ensures Installed(k.rules, chain, d) <= 1 && !(d in want && d in more) {
        assert Installed(k'.rules, chain, d) <= 1 && (Installed(k.rules, chain, d) > 0 <==> d in want);
      }
    }
    if OneRuleEach(c, k) && want !! more {
      forall d ensures Installed(k'.rules, chain, d) <= 1 {
        assert Installed(k.rules, chain, d) <= 1 && (Installed(k.rules, chain, d) > 0 <==> d in want);
      }
    }
  }

  /** The translations the recovered VMs' forwards call for. */
  ghost function Called(n: Node, done: set<string>): set<Target> { Targets(n.vms, ForwardsOf(n.forwards, done)) }

  lemma RebuiltTargets(g: Setting, n: Node, r: Node, done: set<string>, env: RecoverEnv)
    requires ForwardsOwned(n) && Rebuilt(g, n, r, done, env)
    ensures Targets(r.vms, r.forwards) == Called(n, done)
  {
    assert forall id :: id in done ==> r.vms[id].ip == n.vms[id].ip;
  }

  lemma BackIsCalled(c: Config, start: Kernel, n: Node, done: set<string>, env: RecoverEnv)
    requires done <= n.vms.Keys
    ensures Back(c, start, n, done, env) <= Called(n, done)
  {
    forall d | d in Back(c, start, n, done, env) ensures d in Called(n, done) {
      var k :| k in n.forwards && n.forwards[k].vmId in done
        && d == TargetFor(n.forwards[k], n.vms[n.forwards[k].vmId].ip);
      assert k in ForwardsOf(n.forwards, done);
    }
  }

  /** Each recovered forward is reached by the replay or was installed already. */
  ghost predicate EachBackOrThere(c: Config, start: Kernel, n: Node, done: set<string>, env: RecoverEnv,
                                  want: set<Target>) {
    forall k :: k in n.forwards && n.forwards[k].vmId in done && n.forwards[k].vmId in n.vms ==>
      || IsReplayed(c, start, n.forwards[k], env)
      || TargetFor(n.forwards[k], n.vms[n.forwards[k].vmId].ip) in want
  }

  lemma AllCalledExactlyWhen(c: Config, start: Kernel, n: Node, done: set<string>, env: RecoverEnv, want: set<Target>)
    requires ForwardsOwned(n) && done <= n.vms.Keys
    ensures Called(n, done) <= want + Back(c, start, n, done, env)
            <==> EachBackOrThere(c, start, n, done, env, want)
  {
    var back := Back(c, start, n, done, env);
    if EachBackOrThere(c, start, n, done, env, want) {
      forall d | d in Called(n, done) ensures d in want + back {
        var m := ForwardsOf(n.forwards, done);
        var k :| k in m && m[k].vmId in n.vms && d == TargetFor(m[k], n.vms[m[k].vmId].ip);
      }
    }
    forall k | k in n.forwards && n.forwards[k].vmId in done
      ensures TargetFor(n.forwards[k], n.vms[n.forwards[k].vmId].ip) in Called(n, done)
      ensures TargetFor(n.forwards[k], n.vms[n.forwards[k].vmId].ip) in back
              ==> IsReplayed(c, start, n.forwards[k], env)
    {
      assert k in ForwardsOf(n.forwards, done);
      if TargetFor(n.forwards[k], n.vms[n.forwards[k].vmId].ip) in back { OneKeyEach(c, start, n, done, env, k); }
    }
  }

  /** A target in Back belongs to one forward only. */
  lemma OneKeyEach(c: Config, start: Kernel, n: Node, done: set<string>, env: RecoverEnv, key: Key)
    requires ForwardsOwned(n) && done <= n.vms.Keys && key in n.forwards && n.forwards[key].vmId in done
    requires TargetFor(n.forwards[key], n.vms[n.forwards[key].vmId].ip) in Back(c, start, n, done, env)
    ensures IsReplayed(c, start, n.forwards[key], env)
  {
    var d := TargetFor(n.forwards[key], n.vms[n.forwards[key].vmId].ip);
    var k :| k in n.forwards && n.forwards[k].vmId in done && IsReplayed(c, start, n.forwards[k], env)
             && d == TargetFor(n.forwards[k], n.vms[n.forwards[k].vmId].ip);
    assert k == (d.hostPort, d.protocol) == key;
  }

  /** After a recovery the kernel translates exactly the recovered port-forward map if and only if
      nothing foreign was installed and each recovered forward was replayed or had survived. Each
      has a single rule if and only if none was replayed over a surviving one. */
  lemma RecoveryAgreesExactlyWhen(g: Setting, n: Node, f: Node, order: seq<string>, env: RecoverEnv)
    requires Sound(g, n) && Mirrored(n) && Blank(g, f, n.disk) && Anchored(g.firewall, f.kernel)
    requires ReadOnce(order) && Elements(order) <= n.vms.Keys
    ensures var r, done := RecoverAll(g, f, order, env), Elements(order);
            var want, back := TargetsOfKernel(g.firewall, f.kernel), Back(g.firewall, f.kernel, n, done, env);
            && Translated(g.firewall, r.kernel, want + back)
            && (FirewallAgrees(g, r)
                <==> want <= Called(n, done) && EachBackOrThere(g.firewall, f.kernel, n, done, env, want))
            && (OneRuleEach(g.firewall, r.kernel) <==> OneRuleEach(g.firewall, f.kernel) && want !! back)
  {
    var want := TargetsOfKernel(g.firewall, f.kernel);
    KernelTranslates(g.firewall, f.kernel);
    RecoveryRebuilds(g, n, f, order, env);
    RecoveryInstalls(g, n, f, order, env);
    var c, r, done := g.firewall, RecoverAll(g, f, order, env), Elements(order);
    var back := Back(c, f.kernel, n, done, env);
    AddsTranslates(c, f.kernel, r.kernel, want, back);
    RebuiltTargets(g, n, r, done, env);
    BackIsCalled(c, f.kernel, n, done, env);
    AllCalledExactlyWhen(c, f.kernel, n, done, env, want);
    TranslatesExactlyWhen(c, r.kernel, want, back, Called(n, done));
    AgreesExactlyWhen(g, r);
  }

  /** A kernel that translates two sets together translates a set around the second exactly when
      that set is the two. */
  lemma TranslatesExactlyWhen(c: Config, k: Kernel, want: set<Target>, back: set<Target>, all: set<Target>)
    requires Translated(c, k, want + back) && back <= all
    ensures Translated(c, k, all) <==> want <= all && all <= want + back
  {
    if Translated(c, k, all) { TranslatedOnce(c, k, want + back, all); }
    if want <= all && all <= want + back { assert want + back == all; }
  }

  /** After a host reboot, with the rules flushed and every unit stopped, no packet is sent
      anywhere, although all forwards are in memory. */
  lemma RebootLosesTranslations(g: Setting, n: Node, f: Node, order: seq<string>, env: RecoverEnv)
    requires Sound(g, n) && Mirrored(n) && Blank(g, f, n.disk) && Anchored(g.firewall, f.kernel)
    requires ListsIds(order, n.vms.Keys) && TargetsOfKernel(g.firewall, f.kernel) == {}
    requires (forall id :: !env.running(id)) && n.forwards != map[]
    ensures var r := RecoverAll(g, f, order, env);
            && r.forwards == n.forwards && !FirewallAgrees(g, r)
            && forall p :: Destinations(r.kernel.rules, g.firewall.SupervisorPrerouting(), p) == {}
  {
    RecoveryRebuilds(g, n, f, order, env);
    RecoveryAgreesExactlyWhen(g, n, f, order, env);
    var back := Back(g.firewall, f.kernel, n, Elements(order), env);
    assert back == {} && {} + back == {};
    SendsAlikeExactlyWhen(RecoverAll(g, f, order, env).kernel.rules, g.firewall.SupervisorPrerouting(), {});
    var k :| k in n.forwards;
    assert n.forwards[k].vmId in Elements(order);
    assert !IsReplayed(g.firewall, f.kernel, n.forwards[k], env);
  }
}
