/** The VM chains after a recovery: which running VMs are set up again. */
module RecoveredChains {
  import opened Wrappers
  import opened PortForwards
  import opened DnatRules
  import opened Ledger
  import opened LedgerSafety
  import opened LedgerAgreement
  import opened Recovery
  import opened RecoveredFirewall
  import opened Nft
  import opened Firewall
  import opened VmChains
  import Ipv4

  /** k' continues k, and the supervisor chains are found where they were. */
  ghost predicate Continues(c: Config, k: Kernel, k': Kernel) {
    && WellFormed(k') && k.rules <= k'.rules
    && forall f, name :: c.IsSupervisor(name) ==> TableOf(k'.rules, f, name) == TableOf(k.rules, f, name)
  }

  lemma ContinuesOn(c: Config, k: Kernel, k1: Kernel, k2: Kernel)
    requires Continues(c, k, k1) && Continues(c, k1, k2)
    ensures Continues(c, k, k2)
  {
  }

  lemma SetupContinues(c: Config, k: Kernel, id: string, tap: string)
    requires WellFormed(k) && SetupWants(c, k.rules, id, tap).Ok?
    ensures SetupVm(c, k, id, tap, true).Ok? && Continues(c, k, SetupVm(c, k, id, tap, true).value)
  {
    SetupIsAccepted(c, k, id, tap);
    LandAppends(k, k.rules, SetupWants(c, k.rules, id, tap).value);
    Names(c, id);
    var k' := SetupVm(c, k, id, tap, true).value;
    forall f, name | c.IsSupervisor(name) ensures TableOf(k'.rules, f, name) == TableOf(k.rules, f, name) {
      TableOfStable(c, k, id, tap, f, name);
    }
  }

  lemma ForwardContinues(c: Config, k: Kernel, id: string, d: Target, up: bool)
    requires WellFormed(k) && AddForward(c, k, id, d, up).Ok?
    ensures Continues(c, k, AddForward(c, k, id, d, up).value)
  {
    AddForwardCounts(c, k, id, d, up);
    var k' := AddForward(c, k, id, d, up).value;
    var rest := k'.rules[|k.rules|..];
    assert k'.rules == k.rules + rest;
    forall f, name ensures TableOf(k'.rules, f, name) == TableOf(k.rules, f, name) {
      TableOfAppend(k.rules, rest, f, name);
      NoTableOf(rest, f, name);
    }
  }

  lemma {:induction false} ReplayContinues(c: Config, k: Kernel, id: string, ip: Ipv4.Addr, fs: seq<PortForward>,
                                           up: Key -> bool)
    requires WellFormed(k)
    ensures Continues(c, k, Replayed(c, k, id, ip, fs, up))
    decreases |fs|
  {
    if fs != [] {
      var d, t := TargetFor(fs[0], ip), up(KeyOf(fs[0]));
      var r := AddForward(c, k, id, d, t);
      if r.Ok? {
        ForwardContinues(c, k, id, d, t);
        ReplayContinues(c, r.value, id, ip, fs[1..], up);
        ContinuesOn(c, k, r.value, Replayed(c, k, id, ip, fs, up));
      } else {
        ReplayContinues(c, k, id, ip, fs[1..], up);
      }
    }
  }

  lemma OneContinues(c: Config, k: Kernel, id: string, s: Saved, env: RecoverEnv)
    requires RecoveredFirewall.Anchored(c, k)
    ensures Continues(c, k, RestoredKernel(c, k, id, s, env))
    ensures env.running(id) && env.setup(id) ==>
              && SetupVm(c, k, id, s.tap, true).Ok?
              && Continues(c, SetupVm(c, k, id, s.tap, true).value, RestoredKernel(c, k, id, s, env))
  {
    if env.running(id) {
      if env.setup(id) {
        SetupContinues(c, k, id, s.tap);
        var k' := SetupVm(c, k, id, s.tap, true).value;
        ReplayContinues(c, k', id, s.ip, s.forwards, env.forward);
        ContinuesOn(c, k, k', RestoredKernel(c, k, id, s, env));
      } else {
        ReplayContinues(c, k, id, s.ip, s.forwards, env.forward);
      }
    }
  }

  lemma {:induction false} RestContinues(g: Setting, f: Node, order: seq<string>, i: nat, env: RecoverEnv)
    requires i <= |order| && WellFormed(RecoverAll(g, f, order[..i], env).kernel)
    requires forall j | i <= j < |order| ::
               RecoveredFirewall.Anchored(g.firewall, RecoverAll(g, f, order[..j], env).kernel)
    ensures Continues(g.firewall, RecoverAll(g, f, order[..i], env).kernel, RecoverAll(g, f, order, env).kernel)
    decreases |order| - i
  {
    if i == |order| {
      assert order[..i] == order;
    } else {
      var c, here, next := g.firewall, RecoverAll(g, f, order[..i], env), RecoverAll(g, f, order[..i + 1], env);
      RecoverNext(g, f, order, i, env);
      if order[i] in f.disk { OneContinues(c, here.kernel, order[i], f.disk[order[i]], env); }
      RestContinues(g, f, order, i + 1, env);
      ContinuesOn(c, here.kernel, next.kernel, RecoverAll(g, f, order, env).kernel);
    }
  }

  /** Everything the VM is set up with is found. */
  ghost predicate IsSetUp(c: Config, rs: Ruleset, id: string, tap: string) {
    var wants := SetupWants(c, rs, id, tap);
    wants.Ok? && forall w :: w in wants.value ==> Recognised(rs, w)
  }

  lemma SetUpStays(c: Config, k: Kernel, id: string, tap: string, end: Kernel)
    requires WellFormed(k) && SetupVm(c, k, id, tap, true).Ok?
    requires Continues(c, SetupVm(c, k, id, tap, true).value, end)
    ensures IsSetUp(c, end.rules, id, tap)
  {
    SetupContinues(c, k, id, tap);
    SetupIsAccepted(c, k, id, tap);
    var wants := SetupWants(c, k.rules, id, tap).value;
    assert SetupWants(c, end.rules, id, tap) == Ok(wants);
    forall w | w in wants ensures Recognised(end.rules, w) {
      LandRecognises(k, k.rules, wants, w);
      RecognisedIn(Land(k, k.rules, wants).rules, end.rules, w);
    }
  }

  lemma PrefixAnchored(g: Setting, n: Node, f: Node, order: seq<string>, j: nat, env: RecoverEnv)
    requires ForwardsOwned(n) && Mirrored(n) && f.disk == n.disk && RecoveredFirewall.Anchored(g.firewall, f.kernel)
    requires ReadOnce(order) && Elements(order) <= n.vms.Keys && j <= |order|
    ensures RecoveredFirewall.Anchored(g.firewall, RecoverAll(g, f, order[..j], env).kernel)
  {
    assert Elements(order[..j]) <= Elements(order);
    PrefixAdds(g, n, f, order[..j], env);
  }

  /** After a recovery every running VM whose file was read and whose setup could run is set up on
      its own TAP device again, whatever the kernel held before. */
  lemma RecoverySetsUp(g: Setting, n: Node, f: Node, order: seq<string>, i: nat, env: RecoverEnv)
    requires Sound(g, n) && Mirrored(n) && f.disk == n.disk && RecoveredFirewall.Anchored(g.firewall, f.kernel)
    requires ReadOnce(order) && Elements(order) <= n.vms.Keys && i < |order|
    requires env.running(order[i]) && env.setup(order[i])
    ensures order[i] in n.vms
    ensures IsSetUp(g.firewall, RecoverAll(g, f, order, env).kernel.rules, order[i], n.vms[order[i]].tap)
  {
    var c, id := g.firewall, order[i];
    assert id in Elements(order);
    assert Matches(n.disk[id], n.vms[id]);
    forall j | 0 <= j <= |order| ensures RecoveredFirewall.Anchored(c, RecoverAll(g, f, order[..j], env).kernel) {
      PrefixAnchored(g, n, f, order, j, env);
    }
    var k := RecoverAll(g, f, order[..i], env).kernel;
    var next, end := RecoverAll(g, f, order[..i + 1], env).kernel, RecoverAll(g, f, order, env).kernel;
    RecoverNext(g, f, order, i, env);
    OneContinues(c, k, id, n.disk[id], env);
    RestContinues(g, f, order, i + 1, env);
    ContinuesOn(c, SetupVm(c, k, id, n.disk[id].tap, true).value, next, end);
    SetUpStays(c, k, id, n.disk[id].tap, end);
  }
}
