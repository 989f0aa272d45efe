/** Setup and teardown of one VM's chains: acceptance, idempotence, inverse and frame. */
module VmChains {
  import opened Wrappers
  import opened Nft
  import opened Firewall

  /** setup_vm on the kernel; up says whether nft can be run. */
  function SetupVm(c: Config, k: Kernel, vm: string, tap: string, up: bool): Result<Kernel, FirewallError> {
    if !up then Err(NftFailed)
    else
      match SetupWants(c, k.rules, vm, tap)
      case Err(e) => Err(e)
      case Ok(wants) =>
        match Exec(k, Missing(k.rules, wants))
        case None => Err(NftFailed)
        case Some(k') => Ok(k')
  }

  /** Whether nft can be run for each of the two batches of a teardown. */
  datatype TeardownRuns = TeardownRuns(natChain: bool, filterChain: bool)

  const BOTH_RUN := TeardownRuns(true, true)

  /** teardown_vm on the kernel: two batches, the second skipped when the first fails. */
  function TeardownVm(c: Config, k: Kernel, vm: string, runs: TeardownRuns): (Kernel, bool) {
    match RemoveChain(k, c.VmNat(vm), runs.natChain)
    case None => (k, false)
    case Some(k1) =>
      match RemoveChain(k1, c.VmFilter(vm), runs.filterChain)
      case None => (k1, false)
      case Some(k2) => (k2, true)
  }

  /** One batch of a teardown. */
  function RemoveChain(k: Kernel, name: string, up: bool): Option<Kernel> {
    if up then Exec(k, RemoveEverywhere(k.rules, name)) else None
  }

  lemma LandedChain(k: Kernel, snapshot: Ruleset, wants: seq<Want>, f: Family, t: string, n: string)
    requires HasChain(Land(k, snapshot, wants).rules, f, t, n)
    ensures HasChain(k.rules, f, t, n) || WantChain(f, t, n) in wants
  {
    var end := Land(k, snapshot, wants).rules;
    LandAppends(k, snapshot, wants);
    var e :| e in end && IsChain(e, f, t, n);
    if e !in k.rules {
      assert end == k.rules + end[|k.rules|..];
      var w, h :| w in wants && e == EntryFor(w, h);
    }
  }

  lemma BlockStays(k: Kernel, snapshot: Ruleset, wants: seq<Want>, f: Family, t: string, supervisor: string)
    requires Table(f, t) in k.rules && HasChain(k.rules, f, t, supervisor)
    ensures Table(f, t) in Land(k, snapshot, wants).rules
    ensures HasChain(Land(k, snapshot, wants).rules, f, t, supervisor)
  {
    LandAppends(k, snapshot, wants);
    HasChainIn(k.rules, Land(k, snapshot, wants).rules, f, t, supervisor);
  }

  lemma Anchored(k: Kernel, f: Family, name: string)
    requires WellFormed(k) && TableOf(k.rules, f, name).Some?
    ensures var t := TableOf(k.rules, f, name).value;
            HasChain(k.rules, f, t, name) && Table(f, t) in k.rules
  {
    TableOfMeans(k.rules, f, name);
    var t := TableOf(k.rules, f, name).value;
    var e :| e in k.rules && IsChain(e, f, t, name);
    assert HousedEntry(k, e);
  }

  lemma AppendBlock(k: Kernel, snapshot: Ruleset, wants: seq<Want>, supervisor: string, rule: Want)
    requires !rule.WantChain? && !rule.WantJump? && snapshot <= k.rules
    requires AllReady(k, snapshot, wants)
    requires Table(rule.family, rule.table) in k.rules
    requires HasChain(k.rules, rule.family, rule.table, supervisor)
    requires HasChain(k.rules, rule.family, rule.table, rule.chain)
             ==> HasChain(snapshot, rule.family, rule.table, rule.chain)
    requires WantChain(rule.family, rule.table, rule.chain) !in wants
    ensures AllReady(k, snapshot, wants + Block(supervisor, rule))
  {
    var mid := Land(k, snapshot, wants);
    LandAppends(k, snapshot, wants);
    BlockStays(k, snapshot, wants, rule.family, rule.table, supervisor);
    if HasChain(mid.rules, rule.family, rule.table, rule.chain) {
      LandedChain(k, snapshot, wants, rule.family, rule.table, rule.chain);
    }
    BlockReady(mid, snapshot, supervisor, rule);
    LandConcat(k, snapshot, wants, Block(supervisor, rule));
  }

  lemma FirstBlock(k: Kernel, supervisor: string, rule: Want)
    requires !rule.WantChain? && !rule.WantJump?
    requires Table(rule.family, rule.table) in k.rules && HasChain(k.rules, rule.family, rule.table, supervisor)
    ensures AllReady(k, k.rules, Block(supervisor, rule))
  {
    AppendBlock(k, k.rules, [], supervisor, rule);
    assert [] + Block(supervisor, rule) == Block(supervisor, rule);
  }

  lemma NotInBlock(supervisor: string, rule: Want, w: Want)
    requires !rule.WantChain? && w.WantChain? && w.chain != rule.chain
    ensures w !in Block(supervisor, rule)
  {
  }

  lemma V4WantsReady(c: Config, k: Kernel, vm: string, natRule: Want, filterRule: Want)
    requires WellFormed(k) && natRule.WantMasquerade? && filterRule.WantForward?
             && natRule.family == filterRule.family == Ip
    requires TableOf(k.rules, Ip, c.SupervisorNat()) == Some(natRule.table)
    requires TableOf(k.rules, Ip, c.SupervisorFilter()) == Some(filterRule.table)
    requires natRule.chain == c.VmNat(vm) && filterRule.chain == c.VmFilter(vm)
    ensures AllReady(k, k.rules, Block(c.SupervisorNat(), natRule) + Block(c.SupervisorFilter(), filterRule))
  {
    Anchored(k, Ip, c.SupervisorNat());
    Anchored(k, Ip, c.SupervisorFilter());
    FirstBlock(k, c.SupervisorNat(), natRule);
    Names(c, vm);
    NotInBlock(c.SupervisorNat(), natRule, WantChain(Ip, filterRule.table, filterRule.chain));
    AppendBlock(k, k.rules, Block(c.SupervisorNat(), natRule), c.SupervisorFilter(), filterRule);
  }

  lemma SetupWantsReady(c: Config, k: Kernel, vm: string, tap: string)
    requires WellFormed(k) && SetupWants(c, k.rules, vm, tap).Ok?
    ensures AllReady(k, k.rules, SetupWants(c, k.rules, vm, tap).value)
  {
    var t1, t2 := TableOf(k.rules, Ip, c.SupervisorNat()).value, TableOf(k.rules, Ip, c.SupervisorFilter()).value;
    var natRule, filterRule := WantMasquerade(Ip, t1, c.VmNat(vm), tap, c.external),
        WantForward(Ip, t2, c.VmFilter(vm), tap, c.external);
    V4WantsReady(c, k, vm, natRule, filterRule);
    if c.ipv6Enabled && TableOf(k.rules, Ip6, c.SupervisorFilter()).Some? {
      Anchored(k, Ip6, c.SupervisorFilter());
      var t6 := TableOf(k.rules, Ip6, c.SupervisorFilter()).value;
      AppendBlock(k, k.rules, Block(c.SupervisorNat(), natRule) + Block(c.SupervisorFilter(), filterRule),
                  c.SupervisorFilter(),
                  WantForward(Ip6, t6, c.VmFilter(vm), tap, c.external));
    }
  }

  /** On a well-formed kernel with the supervisor chains, setup is always accepted: it
      appends the items that are missing and changes nothing that is there. */
  lemma SetupIsAccepted(c: Config, k: Kernel, vm: string, tap: string)
    requires WellFormed(k) && SetupWants(c, k.rules, vm, tap).Ok?
    ensures SetupVm(c, k, vm, tap, true) == Ok(Land(k, k.rules, SetupWants(c, k.rules, vm, tap).value))
    ensures WellFormed(SetupVm(c, k, vm, tap, true).value)
  {
    var wants := SetupWants(c, k.rules, vm, tap).value;
    SetupWantsReady(c, k, vm, tap);
    MissingLands(k, k.rules, wants);
    ExecWellFormed(k, Missing(k.rules, wants));
  }

  /** Where a chain is found does not change when chains of other names are appended. */
  lemma TableOfStable(c: Config, k: Kernel, vm: string, tap: string, f: Family, name: string)
    requires SetupWants(c, k.rules, vm, tap).Ok?
    requires name != c.VmNat(vm) && name != c.VmFilter(vm)
    ensures TableOf(Land(k, k.rules, SetupWants(c, k.rules, vm, tap).value).rules, f, name) == TableOf(k.rules, f, name)
  {
    var wants := SetupWants(c, k.rules, vm, tap).value;
    var end := Land(k, k.rules, wants).rules;
    LandAppends(k, k.rules, wants);
    var added := end[|k.rules|..];
    assert end == k.rules + added;
    TableOfAppend(k.rules, added, f, name);
    forall e | e in added
      ensures !(e.Chain? && e.family == f && e.name == name)
    {
      var w, h :| w in wants && e == EntryFor(w, h);
      SetupWritesTraces(c, k.rules, vm, tap, w, h);
    }
    NoTableOf(added, f, name);
  }

  lemma {:induction false} NoTableOf(rs: Ruleset, f: Family, name: string)
    requires forall e :: e in rs ==> !(e.Chain? && e.family == f && e.name == name)
    ensures TableOf(rs, f, name) == None
  {
    if rs != [] {
      NoTableOf(rs[1..], f, name);
    }
  }

  /** Running setup again finds everything and emits no command. */
  lemma SetupIsIdempotent(c: Config, k: Kernel, vm: string, tap: string)
    requires WellFormed(k) && SetupVm(c, k, vm, tap, true).Ok?
    ensures var k' := SetupVm(c, k, vm, tap, true).value;
            var again := SetupWants(c, k'.rules, vm, tap);
            again.Ok? && Missing(k'.rules, again.value) == [] && SetupVm(c, k', vm, tap, true) == Ok(k')
  {
    SetupIsAccepted(c, k, vm, tap);
    var wants := SetupWants(c, k.rules, vm, tap).value;
    var k' := Land(k, k.rules, wants);
    Names(c, vm);
    TableOfStable(c, k, vm, tap, Ip, c.SupervisorNat());
    TableOfStable(c, k, vm, tap, Ip, c.SupervisorFilter());
    TableOfStable(c, k, vm, tap, Ip6, c.SupervisorFilter());
    assert SetupWants(c, k'.rules, vm, tap) == Ok(wants);
    forall w | w in wants
      ensures Recognised(k'.rules, w)
    {
      LandRecognises(k, k.rules, wants, w);
    }
    NothingMissing(k'.rules, wants);
  }

  /** After setup the VM's filter chain is found in the ip family. */
  lemma SetupMakesFilterChain(c: Config, k: Kernel, vm: string, tap: string)
    requires WellFormed(k) && SetupWants(c, k.rules, vm, tap).Ok?
    ensures SetupVm(c, k, vm, tap, true).Ok?
    ensures TableOf(SetupVm(c, k, vm, tap, true).value.rules, Ip, c.VmFilter(vm)).Some?
  {
    SetupIsAccepted(c, k, vm, tap);
    var wants := SetupWants(c, k.rules, vm, tap).value;
    var end := Land(k, k.rules, wants).rules;
    var want := wants[3];
    assert want.WantChain? && want.family == Ip && want.chain == c.VmFilter(vm);
    LandRecognises(k, k.rules, wants, want);
    TableOfMeans(end, Ip, c.VmFilter(vm));
  }

  // ---- teardown ----

  predicate Blocked(c: Config, vm: string, rs: Ruleset) {
    ForeignGoto(rs, c.VmNat(vm)) || ForeignGoto(Without(rs, TraceTest(c.VmNat(vm))), c.VmFilter(vm))
  }

  /** Teardown is accepted exactly when no foreign goto holds on to a chain of the VM, and
      then it removes the trace of the VM and nothing else. */
  lemma TeardownExactly(c: Config, k: Kernel, vm: string)
    requires WellFormed(k)
    ensures var (k', ok) := TeardownVm(c, k, vm, BOTH_RUN);
            && WellFormed(k')
            && (ok <==> !Blocked(c, vm, k.rules))
            && (ok ==> k' == k.(rules := Without(k.rules, TraceOfTest(c, vm))))
  {
    RemoveEverywhereExactly(k, c.VmNat(vm));
    if !ForeignGoto(k.rules, c.VmNat(vm)) {
      var k1 := k.(rules := Without(k.rules, TraceTest(c.VmNat(vm))));
      ExecWellFormed(k, RemoveEverywhere(k.rules, c.VmNat(vm)));
      RemoveEverywhereExactly(k1, c.VmFilter(vm));
      if !ForeignGoto(k1.rules, c.VmFilter(vm)) {
        ExecWellFormed(k1, RemoveEverywhere(k1.rules, c.VmFilter(vm)));
        WithoutTwice(k.rules, TraceTest(c.VmNat(vm)), TraceTest(c.VmFilter(vm)), TraceOfTest(c, vm));
      }
    }
  }

  /** Nothing of the VM is left exactly when the teardown was accepted. */
  lemma TeardownClearsExactlyWhen(c: Config, k: Kernel, vm: string)
    requires WellFormed(k)
    ensures NoTrace(c, vm, TeardownVm(c, k, vm, BOTH_RUN).0.rules) <==> !Blocked(c, vm, k.rules)
  {
    var k' := TeardownVm(c, k, vm, BOTH_RUN).0;
    TeardownExactly(c, k, vm);
    if !Blocked(c, vm, k.rules) {
      forall e | e in k'.rules ensures !TraceOf(c, vm, e) { InWithout(k.rules, TraceOfTest(c, vm), e); }
    } else {
      BlockedLeavesChain(c, k, vm);
    }
  }

  lemma BlockedLeavesChain(c: Config, k: Kernel, vm: string)
    requires WellFormed(k) && Blocked(c, vm, k.rules)
    ensures !NoTrace(c, vm, TeardownVm(c, k, vm, BOTH_RUN).0.rules)
  {
    RemoveEverywhereExactly(k, c.VmNat(vm));
    if ForeignGoto(k.rules, c.VmNat(vm)) {
      HeldChain(k.rules, c.VmNat(vm));
    } else {
      var k1 := k.(rules := Without(k.rules, TraceTest(c.VmNat(vm))));
      ExecWellFormed(k, RemoveEverywhere(k.rules, c.VmNat(vm)));
      RemoveEverywhereExactly(k1, c.VmFilter(vm));
      HeldChain(k1.rules, c.VmFilter(vm));
    }
  }

  lemma HeldChain(rs: Ruleset, name: string)
    requires ForeignGoto(rs, name)
    ensures exists e :: e in rs && Trace(e, name)
  {
    var e :| e in rs && e.Rule? && Goto(name) in e.expr && HasChain(rs, e.family, e.table, name);
    assert HasChain(rs, e.family, e.table, name);
    var b :| b in rs && IsChain(b, e.family, e.table, name);
    assert Trace(b, name);
  }

  /** Fewer rules cannot block more. */
  lemma FewerBlockLess(c: Config, vm: string, rs: Ruleset, drop: Entry -> bool)
    requires Blocked(c, vm, Without(rs, drop))
    ensures Blocked(c, vm, rs)
  {
    var less, test := Without(rs, drop), TraceTest(c.VmNat(vm));
    forall e | e in less ensures e in rs { InWithout(rs, drop, e); }
    if ForeignGoto(less, c.VmNat(vm)) {
      GotoInMore(less, rs, c.VmNat(vm));
    } else {
      forall e | e in Without(less, test) ensures e in Without(rs, test) {
        InWithout(less, test, e);
        InWithout(rs, test, e);
      }
      GotoInMore(Without(less, test), Without(rs, test), c.VmFilter(vm));
    }
  }

  lemma GotoInMore(rs: Ruleset, more: Ruleset, name: string)
    requires ForeignGoto(rs, name) && forall e :: e in rs ==> e in more
    ensures ForeignGoto(more, name)
  {
    var e :| e in rs && e.Rule? && Goto(name) in e.expr && !(Jump(name) in e.expr)
             && e.chain != name && HasChain(rs, e.family, e.table, name);
    assert HasChain(more, e.family, e.table, name);
  }

  lemma NoGotoBeforeSetup(c: Config, k: Kernel, vm: string, e: Entry, name: string)
    requires WellFormed(k) && NoTrace(c, vm, k.rules) && e in k.rules && e.Rule?
    requires name == c.VmNat(vm) || name == c.VmFilter(vm)
    ensures Goto(name) !in e.expr
  {
    assert HousedEntry(k, e);
    assert forall x :: x in k.rules && IsChain(x, e.family, e.table, name) ==> TraceOf(c, vm, x);
    assert !HasChain(k.rules, e.family, e.table, name);
  }

  lemma NoGotoAfterSetup(c: Config, k: Kernel, vm: string, wants: seq<Want>, name: string)
    requires WellFormed(k) && NoTrace(c, vm, k.rules)
    requires name == c.VmNat(vm) || name == c.VmFilter(vm)
    ensures forall e :: e in Land(k, k.rules, wants).rules && e.Rule? ==> Goto(name) !in e.expr
  {
    var end := Land(k, k.rules, wants).rules;
    LandAppends(k, k.rules, wants);
    forall e | e in end && e.Rule?
      ensures Goto(name) !in e.expr
    {
      if e in k.rules {
        NoGotoBeforeSetup(c, k, vm, e, name);
      } else {
        assert end == k.rules + end[|k.rules|..];
        var w, h :| w in wants && e == EntryFor(w, h);
      }
    }
  }

  lemma NotBlockedAfterSetup(c: Config, k: Kernel, vm: string, wants: seq<Want>)
    requires WellFormed(k) && NoTrace(c, vm, k.rules)
    ensures !Blocked(c, vm, Land(k, k.rules, wants).rules)
  {
    var end := Land(k, k.rules, wants).rules;
    NoGotoAfterSetup(c, k, vm, wants, c.VmNat(vm));
    NoGotoAfterSetup(c, k, vm, wants, c.VmFilter(vm));
    forall e | e in Without(end, TraceTest(c.VmNat(vm)))
      ensures e in end
    {
      InWithout(end, TraceTest(c.VmNat(vm)), e);
    }
  }

  lemma SetupTracesGo(c: Config, k: Kernel, vm: string, tap: string)
    requires NoTrace(c, vm, k.rules) && SetupWants(c, k.rules, vm, tap).Ok?
    ensures Without(Land(k, k.rules, SetupWants(c, k.rules, vm, tap).value).rules, TraceOfTest(c, vm)) == k.rules
  {
    var wants := SetupWants(c, k.rules, vm, tap).value;
    var end := Land(k, k.rules, wants).rules;
    LandAppends(k, k.rules, wants);
    var added := end[|k.rules|..];
    assert end == k.rules + added;
    WithoutConcat(k.rules, added, TraceOfTest(c, vm));
    WithoutNone(k.rules, TraceOfTest(c, vm));
    forall e | e in added
      ensures TraceOf(c, vm, e)
    {
      var w, h :| w in wants && e == EntryFor(w, h);
      SetupWritesTraces(c, k.rules, vm, tap, w, h);
    }
    WithoutAll(added, TraceOfTest(c, vm));
  }

  /** From any ruleset with the supervisor chains and no trace of the VM, setup followed by
      teardown restores the ruleset exactly; only the handle counter has moved. */
  lemma TeardownUndoesSetup(c: Config, k: Kernel, vm: string, tap: string)
    requires WellFormed(k) && NoTrace(c, vm, k.rules) && SetupWants(c, k.rules, vm, tap).Ok?
    ensures SetupVm(c, k, vm, tap, true).Ok?
    ensures var (k', ok) := TeardownVm(c, SetupVm(c, k, vm, tap, true).value, vm, BOTH_RUN);
            ok && k'.rules == k.rules
  {
    SetupIsAccepted(c, k, vm, tap);
    var wants := SetupWants(c, k.rules, vm, tap).value;
    TeardownExactly(c, Land(k, k.rules, wants), vm);
    NotBlockedAfterSetup(c, k, vm, wants);
    SetupTracesGo(c, k, vm, tap);
  }

  lemma {:induction false} WithoutAll(rs: Ruleset, drop: Entry -> bool)
    requires forall e :: e in rs ==> drop(e)
    ensures Without(rs, drop) == []
  {
    if rs != [] {
      WithoutAll(rs[1..], drop);
    }
  }

  // ---- frame ----

  /** Teardown leaves every entry that is no trace of its VM, whether or not it succeeds. */
  lemma TeardownSpares(c: Config, k: Kernel, vm: string, e: Entry, runs: TeardownRuns)
    requires WellFormed(k) && e in k.rules && !TraceOf(c, vm, e)
    ensures e in TeardownVm(c, k, vm, runs).0.rules
  {
    var r := RemoveChain(k, c.VmNat(vm), runs.natChain);
    if r.Some? {
      RemoveChainSpares(k, c.VmNat(vm), e);
      RemoveChainSpares(r.value, c.VmFilter(vm), e);
    }
  }

  lemma RemoveChainSpares(k: Kernel, name: string, e: Entry)
    requires WellFormed(k) && e in k.rules && !Trace(e, name)
    ensures var r := RemoveChain(k, name, true); r.Some? ==> WellFormed(r.value) && e in r.value.rules
  {
    RemoveEverywhereExactly(k, name);
    InWithout(k.rules, TraceTest(name), e);
    if RemoveChain(k, name, true).Some? { ExecWellFormed(k, RemoveEverywhere(k.rules, name)); }
  }

  lemma TeardownWellFormed(c: Config, k: Kernel, vm: string, runs: TeardownRuns)
    requires WellFormed(k)
    ensures WellFormed(TeardownVm(c, k, vm, runs).0)
  {
    var r := RemoveChain(k, c.VmNat(vm), runs.natChain);
    if r.Some? {
      ExecWellFormed(k, RemoveEverywhere(k.rules, c.VmNat(vm)));
      if RemoveChain(r.value, c.VmFilter(vm), runs.filterChain).Some? {
        ExecWellFormed(r.value, RemoveEverywhere(r.value.rules, c.VmFilter(vm)));
      }
    }
  }

  /** What setup can want: a chain of the VM, a jump to one from a supervisor chain, or a rule
      without jumps in one. */
  lemma SetupWantShape(c: Config, rs: Ruleset, vm: string, tap: string, w: Want)
    requires SetupWants(c, rs, vm, tap).Ok? && w in SetupWants(c, rs, vm, tap).value
    ensures w.WantJump? ==>
              && (w.chain == c.SupervisorNat() || w.chain == c.SupervisorFilter())
              && (w.target == c.VmNat(vm) || w.target == c.VmFilter(vm))
    ensures !w.WantJump? ==> w.chain == c.VmNat(vm) || w.chain == c.VmFilter(vm)
  {
  }

  lemma JumpsOfWant(w: Want, name: string)
    requires !w.WantChain?
    ensures Jump(name) in ExprFor(w) <==> w.WantJump? && w.target == name
  {
  }

  lemma OthersLeaveNoTrace(c: Config, vm: string, other: string, rs: Ruleset, tap: string, w: Want, h: nat)
    requires vm != other && SetupWants(c, rs, other, tap).Ok? && w in SetupWants(c, rs, other, tap).value
    ensures !TraceOf(c, vm, EntryFor(w, h))
  {
    Names(c, vm);
    VmNamesInjective(c, vm, other);
    SetupWantShape(c, rs, other, tap, w);
    if !w.WantChain? {
      JumpsOfWant(w, c.VmNat(vm));
      JumpsOfWant(w, c.VmFilter(vm));
    }
  }

  /** What setup wrote for another VM is never a trace of this one, so teardown spares it. */
  lemma OtherVmUntouched(c: Config, k: Kernel, vm: string, other: string, rs: Ruleset, tap: string, w: Want, h: nat,
                         runs: TeardownRuns)
    requires vm != other && WellFormed(k)
    requires SetupWants(c, rs, other, tap).Ok? && w in SetupWants(c, rs, other, tap).value
    requires EntryFor(w, h) in k.rules
    ensures EntryFor(w, h) in TeardownVm(c, k, vm, runs).0.rules
  {
    OthersLeaveNoTrace(c, vm, other, rs, tap, w, h);
    TeardownSpares(c, k, vm, EntryFor(w, h), runs);
  }
}
