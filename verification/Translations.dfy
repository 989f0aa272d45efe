/** What VM setup, VM teardown and a series of removals do to the port translations. */
module Translations {
  import opened Words
  import opened PortForwards
  import opened Nft
  import opened Firewall
  import opened VmChains
  import opened DnatRules

  /** The supervisor prerouting chain translates exactly these forwards. */
  ghost predicate Translated(c: Config, k: Kernel, want: set<Target>) {
    WellFormed(k) && Translates(k.rules, c.SupervisorPrerouting(), want)
  }

  /** ... each by a single rule. */
  ghost predicate OneRuleEach(c: Config, k: Kernel) { Single(k.rules, c.SupervisorPrerouting()) }

  ghost predicate Agrees(c: Config, k: Kernel, want: set<Target>) { Translated(c, k, want) && OneRuleEach(c, k) }

  lemma GeneratedHasNoDnat(w: Want, h: nat, chain: string)
    ensures Bystander(EntryFor(w, h), chain)
  {
  }

  /** Setting a VM up changes the number of rules of no forward. */
  lemma SetupAddsNone(c: Config, k: Kernel, vm: string, tap: string)
    requires WellFormed(k) && SetupWants(c, k.rules, vm, tap).Ok?
    ensures SetupVm(c, k, vm, tap, true).Ok?
    ensures var k' := SetupVm(c, k, vm, tap, true).value;
            && WellFormed(k') && k.rules <= k'.rules
            && forall e :: e in k'.rules[|k.rules|..] ==> Bystander(e, c.SupervisorPrerouting())
  {
    SetupIsAccepted(c, k, vm, tap);
    var wants := SetupWants(c, k.rules, vm, tap).value;
    LandAppends(k, k.rules, wants);
    forall e | e in Land(k, k.rules, wants).rules[|k.rules|..] ensures Bystander(e, c.SupervisorPrerouting()) {
      var w, h :| w in wants && e == EntryFor(w, h);
      GeneratedHasNoDnat(w, h, c.SupervisorPrerouting());
    }
  }

  /** Setting a VM up leaves the translations alone. */
  lemma SetupKeeps(c: Config, k: Kernel, vm: string, tap: string, up: bool, want: set<Target>)
    requires Translated(c, k, want) && SetupVm(c, k, vm, tap, up).Ok?
    ensures var k' := SetupVm(c, k, vm, tap, up).value;
            Translated(c, k', want) && k.rules <= k'.rules && (OneRuleEach(c, k) ==> OneRuleEach(c, k'))
  {
    SetupAddsNone(c, k, vm, tap);
    var k' := SetupVm(c, k, vm, tap, up).value;
    var added := k'.rules[|k.rules|..];
    assert k'.rules == k.rules + added;
    AppendBystanders(k.rules, added, c.SupervisorPrerouting(), want);
  }

  /** Removing a VM's chain leaves the translations alone. */
  lemma RemoveChainKeeps(c: Config, k: Kernel, name: string, up: bool, want: set<Target>)
    requires Translated(c, k, want) && name != c.SupervisorPrerouting() && RemoveChain(k, name, up).Some?
    ensures var k' := RemoveChain(k, name, up).value;
            Translated(c, k', want) && (OneRuleEach(c, k) ==> OneRuleEach(c, k'))
  {
    var chain := c.SupervisorPrerouting();
    ExecWellFormed(k, RemoveEverywhere(k.rules, name));
    RemoveEverywhereExactly(k, name);
    forall e | e in k.rules && TraceTest(name)(e) ensures Bystander(e, chain) {
      if !Bystander(e, chain) {
        var d :| e.expr == DnatExpr(d);
        DnatExprParts(d);
      }
    }
    DropBystanders(k.rules, TraceTest(name), chain, want);
  }

  /** So does tearing the VM down, also when nft is gone for either half of it. */
  lemma TeardownKeeps(c: Config, k: Kernel, vm: string, runs: TeardownRuns, want: set<Target>)
    requires Translated(c, k, want)
    ensures var k' := TeardownVm(c, k, vm, runs).0;
            Translated(c, k', want) && (OneRuleEach(c, k) ==> OneRuleEach(c, k'))
  {
    Names(c, vm);
    var r := RemoveChain(k, c.VmNat(vm), runs.natChain);
    if r.Some? {
      RemoveChainKeeps(c, k, c.VmNat(vm), runs.natChain, want);
      if RemoveChain(r.value, c.VmFilter(vm), runs.filterChain).Some? {
        RemoveChainKeeps(c, r.value, c.VmFilter(vm), runs.filterChain, want);
      }
    }
  }

  // ---- a series of removals ----

  /** The removals of a deletion: failures are ignored. up says, per forward, whether nft runs. */
  function RemoveAll(c: Config, k: Kernel, gone: seq<PortForward>, up: Key -> bool): Kernel
    decreases |gone|
  {
    if gone == [] then k
    else
      var f := gone[0];
      match RemoveForward(c, k, f.hostPort, f.protocol, up(KeyOf(f)))
      case Ok(k') => RemoveAll(c, k', gone[1..], up)
      case Err(_) => RemoveAll(c, k, gone[1..], up)
  }

  /** The translations left when the removals that succeed have cleared their ports. */
  function Spared(want: set<Target>, gone: seq<PortForward>, up: Key -> bool): set<Target> {
    set d | d in want && forall i | 0 <= i < |gone| && KeyOf(gone[i]) == (d.hostPort, d.protocol) :: !up(KeyOf(gone[i]))
  }

  lemma {:induction false} RemoveAllClears(c: Config, k: Kernel, gone: seq<PortForward>, up: Key -> bool,
                                           want: set<Target>)
    requires Translated(c, k, want)
    ensures var k' := RemoveAll(c, k, gone, up);
            Translated(c, k', Spared(want, gone, up)) && (OneRuleEach(c, k) ==> OneRuleEach(c, k'))
    decreases |gone|
  {
    if gone == [] {
      assert Spared(want, gone, up) == want;
    } else {
      var f := gone[0];
      if up(KeyOf(f)) {
        RemoveForwardClears(c, k, f.hostPort, f.protocol, want);
        var rest := set d | d in want && !(d.hostPort == f.hostPort && d.protocol == f.protocol);
        RemoveAllClears(c, RemoveForward(c, k, f.hostPort, f.protocol, true).value, gone[1..], up, rest);
        SparedHead(want, rest, gone, up);
      } else {
        RemoveAllClears(c, k, gone[1..], up, want);
        SparedHead(want, want, gone, up);
      }
    }
  }

  lemma SparedHead(want: set<Target>, rest: set<Target>, gone: seq<PortForward>, up: Key -> bool)
    requires gone != []
    requires rest == if up(KeyOf(gone[0])) then set d | d in want
             && !(d.hostPort == gone[0].hostPort && d.protocol == gone[0].protocol)
                     else want
    ensures Spared(rest, gone[1..], up) == Spared(want, gone, up)
  {
    assert forall i :: 0 < i < |gone| ==> gone[i] == gone[1..][i - 1];
    assert forall i :: 0 <= i < |gone| - 1 ==> gone[1..][i] == gone[i + 1];
  }

  /** A kernel translates one set only. */
  lemma TranslatedOnce(c: Config, k: Kernel, a: set<Target>, b: set<Target>)
    requires Translated(c, k, a) && Translated(c, k, b)
    ensures a == b
  {
    forall d ensures d in a <==> d in b {
      assert Installed(k.rules, c.SupervisorPrerouting(), d) > 0 <==> d in a;
    }
  }

  // ---- well-formed kernels ----

  lemma AddForwardWellFormed(c: Config, k: Kernel, vm: string, d: Target, up: bool)
    requires WellFormed(k) && AddForward(c, k, vm, d, up).Ok?
    ensures WellFormed(AddForward(c, k, vm, d, up).value)
  {
    ExecWellFormed(k, ForwardCommands(c, k.rules, vm, d).value);
  }

  /** A removal is accepted whenever nft runs, on any well-formed kernel. */
  lemma RemoveForwardAccepted(c: Config, k: Kernel, hostPort: U16, protocol: Protocol)
    requires WellFormed(k)
    ensures RemoveForward(c, k, hostPort, protocol, true).Ok?
    ensures WellFormed(RemoveForward(c, k, hostPort, protocol, true).value)
  {
    var drop := MatchingTest(c.SupervisorPrerouting(), hostPort, protocol);
    DeleteSelected(k.rules, k.next, drop);
    DropRulesWellFormed(k, drop);
  }

  lemma {:induction false} RemoveAllWellFormed(c: Config, k: Kernel, gone: seq<PortForward>, up: Key -> bool)
    requires WellFormed(k)
    ensures WellFormed(RemoveAll(c, k, gone, up))
    decreases |gone|
  {
    if gone != [] {
      var f := gone[0];
      RemoveForwardAccepted(c, k, f.hostPort, f.protocol);
      var k' := if up(KeyOf(f)) then RemoveForward(c, k, f.hostPort, f.protocol, true).value else k;
      RemoveAllWellFormed(c, k', gone[1..], up);
    }
  }
}
