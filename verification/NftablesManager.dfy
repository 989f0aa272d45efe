/** The manager that drives nft: each method reads the ruleset, builds a batch and executes it. */
module NftablesManager {
  import opened Wrappers
  import opened Words
  import opened PortForwards
  import opened Nft
  import opened Firewall
  import opened VmChains
  import opened DnatRules
  import S = Supervisor

  /** The kernel's ruleset behind the nft program; up says whether the program runs. */
  class Nftables {
    var kernel: Kernel

    constructor (k: Kernel)
      ensures kernel == k
    {
      kernel := k;
    }

    method Execute(commands: seq<Command>, up: bool) returns (ok: bool)
      modifies this
      ensures ok == (up && Exec(old(kernel), commands).Some?)
      ensures kernel == if ok then Exec(old(kernel), commands).value else old(kernel)
    {
      var after := Exec(kernel, commands);
      ok := up && after.Some?;
      if ok {
        kernel := after.value;
      }
    }
  }

  // ---- recognisers that are loops in the source ----

  method RuleJumpsTo(rule: Entry, target: string) returns (found: bool)
    ensures found == JumpsTo(rule, target)
  {
    if !rule.Rule? {
      return false;
    }
    for i := 0 to |rule.expr|
      invariant Jump(target) !in rule.expr[..i]
    {
      if rule.expr[i] == Jump(target) {
        return true;
      }
    }
    assert rule.expr[..|rule.expr|] == rule.expr;
    found := false;
  }

  method MatchesDnatRule(rule: Entry, chain: string, hostPort: U16, protocol: Protocol) returns (matches: bool)
    ensures matches == IsDnatRuleMatching(rule, chain, hostPort, protocol)
  {
    if !rule.Rule? || rule.chain != chain {
      return false;
    }
    var hasDportMatch, hasDnat := false, false;
    for i := 0 to |rule.expr|
      invariant hasDportMatch == HasPort(rule.expr[..i], hostPort, protocol)
      invariant hasDnat == HasDnat(rule.expr[..i])
    {
      var x := rule.expr[i];
      assert rule.expr[..i + 1] == rule.expr[..i] + [x];
      if MatchesPort(x, hostPort, protocol) {
        hasDportMatch := true;
      }
      if x.Dnat? {
        hasDnat := true;
      }
    }
    assert rule.expr[..|rule.expr|] == rule.expr;
    matches := hasDportMatch && hasDnat;
  }

  predicate HasMeta(expr: seq<Expr>, key: string, name: string) {
    exists x :: x in expr && MatchesMeta(x, key, name)
  }

  method HasIifnameOifnameAccept(expr: seq<Expr>, iif: string, oif: string) returns (found: bool)
    ensures found == HasInterfaceAccept(expr, iif, oif)
  {
    var foundIif, foundOif, foundAccept := false, false, false;
    for i := 0 to |expr|
      invariant foundIif == HasMeta(expr[..i], "iifname", iif)
      invariant foundOif == HasMeta(expr[..i], "oifname", oif)
      invariant foundAccept == (Accept in expr[..i])
    {
      var x := expr[i];
      assert expr[..i + 1] == expr[..i] + [x];
      if MatchesMeta(x, "iifname", iif) {
        foundIif := true;
      }
      if MatchesMeta(x, "oifname", oif) {
        foundOif := true;
      }
      if x == Accept {
        foundAccept := true;
      }
    }
    assert expr[..|expr|] == expr;
    assert HasInterfaceAccept(expr, iif, oif)
           <==> HasMeta(expr, "iifname", iif) && HasMeta(expr, "oifname", oif) && Accept in expr;
    found := foundIif && foundOif && foundAccept;
  }

  method GetTableForChain(ruleset: Ruleset, family: Family, name: string) returns (table: Option<string>)
    ensures table == TableOf(ruleset, family, name)
  {
    var i := 0;
    while i < |ruleset|
      invariant i <= |ruleset|
      invariant TableOf(ruleset, family, name) == TableOf(ruleset[i..], family, name)
    {
      assert ruleset[i..][0] == ruleset[i] && ruleset[i..][1..] == ruleset[i + 1..];
      if ruleset[i].Chain? && ruleset[i].family == family && ruleset[i].name == name {
        return Some(ruleset[i].table);
      }
      i := i + 1;
    }
    assert ruleset[i..] == [];
    table := None;
  }

  method FindBaseChainName(ruleset: Ruleset, family: Family, table: string, hook: S.Hook) returns (name: string)
    ensures name == S.BaseChain(ruleset, family, table, hook)
  {
    var i := 0;
    while i < |ruleset|
      invariant i <= |ruleset|
      invariant S.BaseChain(ruleset, family, table, hook) == S.BaseChain(ruleset[i..], family, table, hook)
    {
      assert ruleset[i..][0] == ruleset[i] && ruleset[i..][1..] == ruleset[i + 1..];
      if S.OnHook(ruleset[i], family, hook) && ruleset[i].table == table {
        return ruleset[i].name;
      }
      i := i + 1;
    }
    assert ruleset[i..] == [];
    name := S.HookName(hook);
  }

  method FindTableForHook(ruleset: Ruleset, family: Family, hook: S.Hook) returns (table: Option<string>)
    ensures table == S.HookTable(ruleset, family, hook)
  {
    var i := 0;
    while i < |ruleset|
      invariant i <= |ruleset|
      invariant S.HookTable(ruleset, family, hook) == S.HookTable(ruleset[i..], family, hook)
    {
      assert ruleset[i..][0] == ruleset[i] && ruleset[i..][1..] == ruleset[i + 1..];
      if S.OnHook(ruleset[i], family, hook) {
        return Some(ruleset[i].table);
      }
      i := i + 1;
    }
    assert ruleset[i..] == [];
    table := None;
  }

  lemma {:induction false} MissingConcat(rs: Ruleset, a: seq<Want>, b: seq<Want>)
    ensures Missing(rs, a + b) == Missing(rs, a) + Missing(rs, b)
  {
    if a == [] {
      assert a + b == b;
    } else {
      assert (a + b)[1..] == a[1..] + b && (a + b)[0] == a[0];
      MissingConcat(rs, a[1..], b);
    }
  }

  lemma {:induction false} RuleDeletesAppend(rs: Ruleset, e: Entry, select: Entry -> bool)
    ensures RuleDeletes(rs + [e], select)
            == RuleDeletes(rs, select)
               + if e.Rule? && select(e) then [DeleteRule(e.family, e.table, e.chain, e.handle)] else []
  {
    if rs == [] {
      assert rs + [e] == [e];
    } else {
      assert (rs + [e])[1..] == rs[1..] + [e] && (rs + [e])[0] == rs[0];
      RuleDeletesAppend(rs[1..], e, select);
    }
  }

  function ChainDelete(e: Entry, name: string): seq<Command> {
    if e.Chain? && e.name == name then [DeleteChain(e.family, e.table, name)] else []
  }

  lemma {:induction false} ChainDeletesAppend(rs: Ruleset, e: Entry, name: string)
    ensures ChainDeletes(Homes(rs + [e], name), name) == ChainDeletes(Homes(rs, name), name) + ChainDelete(e, name)
  {
    if rs == [] {
      assert rs + [e] == [e];
    } else {
      assert (rs + [e])[1..] == rs[1..] + [e] && (rs + [e])[0] == rs[0];
      ChainDeletesAppend(rs[1..], e, name);
    }
  }

  class NftablesManager {
    const config: Config
    const nft: Nftables

    constructor (config: Config, nft: Nftables)
      ensures this.config == config && this.nft == nft
    {
      this.config := config;
      this.nft := nft;
    }

    method FindOrCreateTableForHook(ruleset: Ruleset, hook: S.Hook, family: Family, up: bool)
      returns (table: Option<string>)
      modifies nft
      ensures match S.TryHook(ruleset, old(nft.kernel), family, hook, up)
              case None => table == None && nft.kernel == old(nft.kernel)
              case Some(found) => table == Some(found.0) && nft.kernel == found.1
    {
      table := FindTableForHook(ruleset, family, hook);
      if table.None? {
        var ok := nft.Execute([AddTable(family, S.DefaultTable(hook)),
                               AddChain(family, S.DefaultTable(hook), S.HookName(hook), Some(S.HookText(hook)))], up);
        if ok {
          table := Some(S.DefaultTable(hook));
        }
      }
    }

    /** Chains and rules of the ip family, looked for in one snapshot. */
    method SupervisorCommands(ruleset: Ruleset, natTable: string, filterTable: string, preTable: string)
      returns (commands: seq<Command>)
      ensures commands == Missing(ruleset, S.WantsV4(config, ruleset, natTable, filterTable, preTable))
    {
      var postrouting := FindBaseChainName(ruleset, Ip, natTable, S.Postrouting);
      var natWants := [WantChain(Ip, natTable, config.SupervisorNat()),
                       WantJump(Ip, natTable, postrouting, config.SupervisorNat())];
      var forward := FindBaseChainName(ruleset, Ip, filterTable, S.Forward);
      var filter := BlockCommands(ruleset, forward, WantConntrack(Ip, filterTable, config.SupervisorFilter()));
      var prerouting := FindBaseChainName(ruleset, Ip, preTable, S.Prerouting);
      var pre := [WantChain(Ip, preTable, config.SupervisorPrerouting()),
                  WantJump(Ip, preTable, prerouting, config.SupervisorPrerouting())];
      commands := Missing(ruleset, natWants) + filter + Missing(ruleset, pre);
      ghost var block := Block(forward, WantConntrack(Ip, filterTable, config.SupervisorFilter()));
      MissingConcat(ruleset, natWants + block, pre);
      MissingConcat(ruleset, natWants, block);
    }

    /** From the second listing on. */
    method FinishInitialize(natTable: string, filterTable: string, preTable: string, runs: S.InitRuns)
      returns (ok: bool)
      modifies nft
      ensures (nft.kernel, ok) == S.InitializeRest(config, old(nft.kernel), natTable, filterTable, preTable, runs)
    {
      if !runs.relist { return false; }
      var ruleset := nft.kernel.rules;
      var commands := SupervisorCommands(ruleset, natTable, filterTable, preTable);
      if config.ipv6Enabled {
        if !runs.list6 { return false; }
        var filter6 := FindOrCreateTableForHook(ruleset, S.Forward, Ip6, runs.forward6);
        if filter6.None? || !runs.relist6 { return false; }
        var ruleset6 := nft.kernel.rules;
        var base6 := FindBaseChainName(ruleset6, Ip6, filter6.value, S.Forward);
        var more := BlockCommands(ruleset6, base6, WantConntrack(Ip6, filter6.value, config.SupervisorFilter()));
        commands := commands + more;
      }
      ok := true;
      if commands != [] {
        ok := nft.Execute(commands, runs.batch);
      }
    }

    /** Base chains are created one call at a time, everything else in one batch. Any call may find
        nft missing; then what was created before stays. */
    method Initialize(runs: S.InitRuns) returns (ok: bool)
      modifies nft
      ensures (nft.kernel, ok) == S.InitializeWith(config, old(nft.kernel), runs)
    {
      if !runs.list { return false; }
      var first := nft.kernel.rules;
      var natTable := FindOrCreateTableForHook(first, S.Postrouting, Ip, runs.postrouting);
      if natTable.None? { return false; }
      var filterTable := FindOrCreateTableForHook(first, S.Forward, Ip, runs.forward);
      if filterTable.None? { return false; }
      var preTable := FindOrCreateTableForHook(first, S.Prerouting, Ip, runs.prerouting);
      if preTable.None? { return false; }
      ok := FinishInitialize(natTable.value, filterTable.value, preTable.value, runs);
    }

    method BlockCommands(ruleset: Ruleset, supervisor: string, rule: Want) returns (commands: seq<Command>)
      requires !rule.WantChain?
      ensures commands == Missing(ruleset, Block(supervisor, rule))
    {
      commands := IfNotPresent(ruleset, WantChain(rule.family, rule.table, rule.chain));
      commands := commands + IfNotPresent(ruleset, WantJump(rule.family, rule.table, supervisor, rule.chain));
      commands := commands + IfNotPresent(ruleset, rule);
      var b := Block(supervisor, rule);
      MissingConcat(ruleset, [b[0]], [b[1]]);
      MissingConcat(ruleset, [b[0]] + [b[1]], [b[2]]);
      assert [b[0]] + [b[1]] + [b[2]] == b;
      assert forall w :: Missing(ruleset, [w]) == IfNotPresent(ruleset, w) + [] == IfNotPresent(ruleset, w);
    }

    method SetupVm(vmId: string, tap: string, up: bool) returns (r: Result<(), FirewallError>)
      modifies nft
      ensures match VmChains.SetupVm(config, old(nft.kernel), vmId, tap, up)
              case Ok(k) => r == Ok(()) && nft.kernel == k
              case Err(e) => r == Err(e) && nft.kernel == old(nft.kernel)
    {
      if !up {
        return Err(NftFailed);
      }
      var ruleset := nft.kernel.rules;
      var natTable := GetTableForChain(ruleset, Ip, config.SupervisorNat());
      if natTable.None? {
        return Err(NoSupervisorNat);
      }
      var filterTable := GetTableForChain(ruleset, Ip, config.SupervisorFilter());
      if filterTable.None? {
        return Err(NoSupervisorFilter);
      }
      var natRule := WantMasquerade(Ip, natTable.value, config.VmNat(vmId), tap, config.external);
      var commands := BlockCommands(ruleset, config.SupervisorNat(), natRule);
      var filterRule := WantForward(Ip, filterTable.value, config.VmFilter(vmId), tap, config.external);
      var more := BlockCommands(ruleset, config.SupervisorFilter(), filterRule);
      commands := commands + more;
      MissingConcat(ruleset, Block(config.SupervisorNat(), natRule), Block(config.SupervisorFilter(), filterRule));
      if config.ipv6Enabled {
        var filter6Table := GetTableForChain(ruleset, Ip6, config.SupervisorFilter());
        if filter6Table.Some? {
          var filter6Rule := WantForward(Ip6, filter6Table.value, config.VmFilter(vmId), tap, config.external);
          more := BlockCommands(ruleset, config.SupervisorFilter(), filter6Rule);
          commands := commands + more;
          MissingConcat(ruleset, Block(config.SupervisorNat(), natRule) + Block(config.SupervisorFilter(), filterRule),
                        Block(config.SupervisorFilter(), filter6Rule));
        }
      }
      if commands != [] {
        var ok := nft.Execute(commands, up);
        if !ok {
          return Err(NftFailed);
        }
      }
      r := Ok(());
    }

    method RemoveChainEverywhere(name: string, up: bool) returns (ok: bool)
      modifies nft
      ensures ok == (up && Exec(old(nft.kernel), RemoveEverywhere(old(nft.kernel).rules, name)).Some?)
      ensures nft.kernel == if ok then Exec(old(nft.kernel), RemoveEverywhere(old(nft.kernel).rules, name)).value
                            else old(nft.kernel)
    {
      if !up {
        return false;
      }
      var ruleset := nft.kernel.rules;
      var commands: seq<Command> := [];
      for i := 0 to |ruleset|
        invariant nft.kernel == old(nft.kernel)
        invariant commands == RuleDeletes(ruleset[..i], JumpTest(name))
      {
        assert ruleset[..i + 1] == ruleset[..i] + [ruleset[i]];
        RuleDeletesAppend(ruleset[..i], ruleset[i], JumpTest(name));
        var jumps := RuleJumpsTo(ruleset[i], name);
        if jumps {
          commands := commands + [DeleteRule(ruleset[i].family, ruleset[i].table, ruleset[i].chain, ruleset[i].handle)];
        }
      }
      assert ruleset[..|ruleset|] == ruleset;
      ghost var jumpDeletes := commands;
      for i := 0 to |ruleset|
        invariant nft.kernel == old(nft.kernel)
        invariant commands == jumpDeletes + ChainDeletes(Homes(ruleset[..i], name), name)
      {
        assert ruleset[..i + 1] == ruleset[..i] + [ruleset[i]];
        ChainDeletesAppend(ruleset[..i], ruleset[i], name);
        if ruleset[i].Chain? && ruleset[i].name == name {
          commands := commands + [DeleteChain(ruleset[i].family, ruleset[i].table, name)];
        }
      }
      if commands == [] {
        return true;
      }
      ok := nft.Execute(commands, up);
    }

    method TeardownVm(vmId: string, runs: TeardownRuns) returns (ok: bool)
      modifies nft
      ensures (nft.kernel, ok) == VmChains.TeardownVm(config, old(nft.kernel), vmId, runs)
    {
      ok := RemoveChainEverywhere(config.VmNat(vmId), runs.natChain);
      if ok {
        ok := RemoveChainEverywhere(config.VmFilter(vmId), runs.filterChain);
      }
    }

    method AddPortForward(vmId: string, guestIp: nat, hostPort: U16, vmPort: U16, protocol: Protocol, up: bool)
      returns (r: Result<(), FirewallError>)
      modifies nft
      ensures match AddForward(config, old(nft.kernel), vmId, Target(protocol, hostPort, guestIp, vmPort), up)
              case Ok(k) => r == Ok(()) && nft.kernel == k
              case Err(e) => r == Err(e) && nft.kernel == old(nft.kernel)
    {
      if !up {
        return Err(NftFailed);
      }
      var ruleset := nft.kernel.rules;
      var preroutingTable := GetTableForChain(ruleset, Ip, config.SupervisorPrerouting());
      if preroutingTable.None? {
        return Err(NoSupervisorPrerouting);
      }
      var filterTable := GetTableForChain(ruleset, Ip, config.VmFilter(vmId));
      if filterTable.None? {
        return Err(NoVmFilter);
      }
      var commands := [
        AddRule(Ip, preroutingTable.value, config.SupervisorPrerouting(),
                DnatExpr(Target(protocol, hostPort, guestIp, vmPort))),
        AddRule(Ip, filterTable.value, config.VmFilter(vmId), [PortMatch(protocol, vmPort), Accept])
      ];
      var ok := nft.Execute(commands, up);
      r := if ok then Ok(()) else Err(NftFailed);
    }

    method RemovePortForward(hostPort: U16, protocol: Protocol, up: bool) returns (r: Result<(), FirewallError>)
      modifies nft
      ensures match RemoveForward(config, old(nft.kernel), hostPort, protocol, up)
              case Ok(k) => r == Ok(()) && nft.kernel == k
              case Err(e) => r == Err(e) && nft.kernel == old(nft.kernel)
    {
      if !up {
        return Err(NftFailed);
      }
      var ruleset := nft.kernel.rules;
      var commands: seq<Command> := [];
      for i := 0 to |ruleset|
        invariant nft.kernel == old(nft.kernel)
        invariant commands == RuleDeletes(ruleset[..i], MatchingTest(config.SupervisorPrerouting(), hostPort, protocol))
      {
        assert ruleset[..i + 1] == ruleset[..i] + [ruleset[i]];
        RuleDeletesAppend(ruleset[..i], ruleset[i], MatchingTest(config.SupervisorPrerouting(), hostPort, protocol));
        var matches := MatchesDnatRule(ruleset[i], config.SupervisorPrerouting(), hostPort, protocol);
        if matches {
          commands := commands + [DeleteRule(ruleset[i].family, ruleset[i].table, ruleset[i].chain, ruleset[i].handle)];
        }
      }
      assert ruleset[..|ruleset|] == ruleset;
      if commands != [] {
        var ok := nft.Execute(commands, up);
        if !ok {
          return Err(NftFailed);
        }
      }
      r := Ok(());
    }
  }
}
