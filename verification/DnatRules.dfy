/** The kernel side of port forwards: one address-translation rule per forward in the
    supervisor prerouting chain. */
module DnatRules {
  import opened Wrappers
  import opened Words
  import opened PortForwards
  import opened Nft
  import opened Firewall

  /** A forward as the kernel sees it. */
  datatype Target = Target(protocol: Protocol, hostPort: U16, addr: nat, vmPort: U16)

  function ProtocolText(p: Protocol): string {
    match p
    case Tcp => "tcp"
    case Udp => "udp"
  }

  function PortMatch(protocol: Protocol, port: U16): Expr {
    Match("==", Payload(ProtocolText(protocol), "dport"), Number(port))
  }

  function DnatExpr(d: Target): seq<Expr> {
    [PortMatch(d.protocol, d.hostPort), Dnat(d.addr, d.vmPort)]
  }

  predicate MatchesPort(x: Expr, hostPort: U16, protocol: Protocol) {
    x.Match? && x.left == Payload(ProtocolText(protocol), "dport") && x.right == Number(hostPort)
  }

  predicate HasPort(expr: seq<Expr>, hostPort: U16, protocol: Protocol) {
    exists x :: x in expr && MatchesPort(x, hostPort, protocol)
  }

  predicate HasDnat(expr: seq<Expr>) {
    exists x :: x in expr && x.Dnat?
  }

  /** The removal test: chain, port, protocol and the presence of a translation; the VM port
      is not looked at. */
  predicate IsDnatRuleMatching(e: Entry, chain: string, hostPort: U16, protocol: Protocol) {
    e.Rule? && e.chain == chain && HasDnat(e.expr) && HasPort(e.expr, hostPort, protocol)
  }

  function MatchingTest(chain: string, hostPort: U16, protocol: Protocol): Entry -> bool {
    e => IsDnatRuleMatching(e, chain, hostPort, protocol)
  }

  // ---- operations on the kernel ----

  function ForwardCommands(c: Config, rs: Ruleset, vm: string, d: Target): Result<seq<Command>, FirewallError> {
    match TableOf(rs, Ip, c.SupervisorPrerouting())
    case None => Err(NoSupervisorPrerouting)
    case Some(preroutingTable) =>
      match TableOf(rs, Ip, c.VmFilter(vm))
      case None => Err(NoVmFilter)
      case Some(filterTable) =>
        Ok([AddRule(Ip, preroutingTable, c.SupervisorPrerouting(), DnatExpr(d)),
            AddRule(Ip, filterTable, c.VmFilter(vm), [PortMatch(d.protocol, d.vmPort), Accept])])
  }

  function AddForward(c: Config, k: Kernel, vm: string, d: Target, up: bool): Result<Kernel, FirewallError> {
    if !up then Err(NftFailed)
    else
      match ForwardCommands(c, k.rules, vm, d)
      case Err(e) => Err(e)
      case Ok(cs) =>
        match Exec(k, cs)
        case None => Err(NftFailed)
        case Some(k') => Ok(k')
  }

  function RemoveForward(c: Config, k: Kernel, hostPort: U16, protocol: Protocol, up: bool)
    : Result<Kernel, FirewallError>
  {
    if !up then Err(NftFailed)
    else
      match Exec(k, RuleDeletes(k.rules, MatchingTest(c.SupervisorPrerouting(), hostPort, protocol)))
      case None => Err(NftFailed)
      case Some(k') => Ok(k')
  }

  // ---- what is installed ----

  /** How many rules of the chain, in any table, are exactly the rule of this forward. */
  function Installed(rs: Ruleset, chain: string, d: Target): nat {
    if rs == [] then 0
    else
      (if rs[0].Rule? && rs[0].chain == chain && rs[0].expr == DnatExpr(d) then 1 else 0)
      + Installed(rs[1..], chain, d)
  }

  /** Every translation rule of the chain is the rule of some forward. */
  ghost predicate NoStray(rs: Ruleset, chain: string) {
    forall e :: e in rs && e.Rule? && e.chain == chain && HasDnat(e.expr) ==> exists d :: e.expr == DnatExpr(d)
  }

  /** The chain translates exactly these forwards. */
  ghost predicate Translates(rs: Ruleset, chain: string, want: set<Target>) {
    NoStray(rs, chain) && forall d :: Installed(rs, chain, d) > 0 <==> d in want
  }

  /** ... each by a single rule. */
  ghost predicate Single(rs: Ruleset, chain: string) {
    forall d :: Installed(rs, chain, d) <= 1
  }

  lemma {:induction false} InstalledConcat(a: Ruleset, b: Ruleset, chain: string, d: Target)
    ensures Installed(a + b, chain, d) == Installed(a, chain, d) + Installed(b, chain, d)
  {
    if a == [] {
      assert a + b == b;
    } else {
      InstalledConcat(a[1..], b, chain, d);
      assert (a + b)[1..] == a[1..] + b && (a + b)[0] == a[0];
    }
  }

  lemma {:induction false} InstalledMeans(rs: Ruleset, chain: string, d: Target)
    ensures Installed(rs, chain, d) > 0 <==> exists e :: e in rs && e.Rule? && e.chain == chain && e.expr == DnatExpr(d)
  {
    if rs != [] {
      InstalledMeans(rs[1..], chain, d);
      assert rs[0] in rs;
    }
  }

  /** Dropping entries keeps the count of rules the test spares and clears the rest. */
  lemma {:induction false} InstalledWithout(rs: Ruleset, drop: Entry -> bool, chain: string, d: Target, gone: bool)
    requires forall e :: e in rs && e.Rule? && e.chain == chain && e.expr == DnatExpr(d) ==> (drop(e) <==> gone)
    ensures Installed(Without(rs, drop), chain, d) == if gone then 0 else Installed(rs, chain, d)
  {
    if rs != [] {
      InstalledWithout(rs[1..], drop, chain, d, gone);
      if !drop(rs[0]) {
        assert Without(rs, drop)[1..] == Without(rs[1..], drop);
      }
    }
  }

  lemma DnatExprParts(d: Target)
    ensures HasDnat(DnatExpr(d)) && DnatExpr(d)[0] in DnatExpr(d)
    ensures forall x :: x in DnatExpr(d) ==> !x.Jump? && !x.Goto?
    ensures forall p, q :: HasPort(DnatExpr(d), p, q) <==> p == d.hostPort && q == d.protocol
  {
    var x := DnatExpr(d);
    assert x[0] in x && x[1] in x;
    assert MatchesPort(x[0], d.hostPort, d.protocol);
    assert forall y :: y in x ==> y == x[0] || y == x[1];
    ProtocolTextInjective();
  }

  lemma ProtocolTextInjective()
    ensures forall p, q :: ProtocolText(p) == ProtocolText(q) ==> p == q
  {
    assert ProtocolText(Tcp)[0] == 't' && ProtocolText(Udp)[0] == 'u';
  }

  /** The forwards that have a rule in the chain. */
  ghost function TargetsIn(rs: Ruleset, chain: string): set<Target> {
    if rs == [] then {}
    else if rs[0].Rule? && rs[0].chain == chain && exists d :: rs[0].expr == DnatExpr(d) then
      var d :| rs[0].expr == DnatExpr(d);
      {d} + TargetsIn(rs[1..], chain)
    else TargetsIn(rs[1..], chain)
  }

  lemma {:induction false} TargetsInIs(rs: Ruleset, chain: string)
    ensures forall d :: d in TargetsIn(rs, chain) <==> Installed(rs, chain, d) > 0
  {
    if rs != [] {
      TargetsInIs(rs[1..], chain);
      forall d, e | DnatExpr(d) == DnatExpr(e) ensures d == e { TargetOf(d, e); }
    }
  }

  // ---- effect of each operation ----

  /** Entries that leave the translations of the chain alone when appended or dropped. */
  predicate Bystander(e: Entry, chain: string) {
    !(e.Rule? && e.chain == chain && HasDnat(e.expr))
  }

  lemma {:induction false} BystandersCountNothing(rs: Ruleset, chain: string, d: Target)
    requires forall e :: e in rs ==> Bystander(e, chain)
    ensures Installed(rs, chain, d) == 0
  {
    DnatExprParts(d);
    if rs != [] {
      assert Bystander(rs[0], chain);
      BystandersCountNothing(rs[1..], chain, d);
    }
  }

  lemma BystandersKeepCounts(rs: Ruleset, more: Ruleset, chain: string)
    requires forall e :: e in more ==> Bystander(e, chain)
    ensures forall d :: Installed(rs + more, chain, d) == Installed(rs, chain, d)
    ensures NoStray(rs, chain) ==> NoStray(rs + more, chain)
  {
    forall d
      ensures Installed(rs + more, chain, d) == Installed(rs, chain, d)
    {
      InstalledConcat(rs, more, chain, d);
      BystandersCountNothing(more, chain, d);
    }
  }

  lemma AppendBystanders(rs: Ruleset, more: Ruleset, chain: string, want: set<Target>)
    requires Translates(rs, chain, want) && forall e :: e in more ==> Bystander(e, chain)
    ensures Translates(rs + more, chain, want)
    ensures Single(rs, chain) ==> Single(rs + more, chain)
  {
    BystandersKeepCounts(rs, more, chain);
  }

  lemma DropBystanders(rs: Ruleset, drop: Entry -> bool, chain: string, want: set<Target>)
    requires Translates(rs, chain, want)
    requires forall e :: e in rs && drop(e) ==> Bystander(e, chain)
    ensures Translates(Without(rs, drop), chain, want)
    ensures Single(rs, chain) ==> Single(Without(rs, drop), chain)
  {
    forall d
      ensures Installed(Without(rs, drop), chain, d) == Installed(rs, chain, d)
    {
      DnatExprParts(d);
      InstalledWithout(rs, drop, chain, d, false);
    }
    forall e | e in Without(rs, drop) ensures e in rs { InWithout(rs, drop, e); }
  }

  /** The two rules a forward appends. */
  function ForwardEntries(c: Config, preroutingTable: string, filterTable: string, vm: string, d: Target,
                          h: nat): Ruleset {
    [Rule(Ip, preroutingTable, c.SupervisorPrerouting(), h, DnatExpr(d)),
     Rule(Ip, filterTable, c.VmFilter(vm), h + 1, [PortMatch(d.protocol, d.vmPort), Accept])]
  }

  lemma RuleAccepted(k: Kernel, f: Family, t: string, chain: string, expr: seq<Expr>)
    requires HasChain(k.rules, f, t, chain) && forall x :: x in expr ==> !x.Jump? && !x.Goto?
    ensures Exec1(k, AddRule(f, t, chain, expr))
            == Some(Kernel(k.rules + [Rule(f, t, chain, k.next, expr)], k.next + 1))
  {
  }

  lemma AppendTwo(rs: Ruleset, e1: Entry, e2: Entry)
    ensures rs + [e1] + [e2] == rs + [e1, e2]
  {
  }

  lemma RuleLands(k: Kernel, t: string, chain: string, expr: seq<Expr>, k': Kernel)
    requires HasChain(k.rules, Ip, t, chain) && forall x :: x in expr ==> !x.Jump? && !x.Goto?
    requires k'.rules == k.rules + [Rule(Ip, t, chain, k.next, expr)] && k'.next == k.next + 1
    ensures Exec1(k, AddRule(Ip, t, chain, expr)) == Some(k')
    ensures forall t2, c2 :: HasChain(k.rules, Ip, t2, c2) ==> HasChain(k'.rules, Ip, t2, c2)
  {
    RuleAccepted(k, Ip, t, chain, expr);
    forall t2, c2 | HasChain(k.rules, Ip, t2, c2) ensures HasChain(k'.rules, Ip, t2, c2) {
      HasChainIn(k.rules, k'.rules, Ip, t2, c2);
    }
  }

  lemma TwoRulesLand(k: Kernel, t1: string, c1: string, x1: seq<Expr>, t2: string, c2: string, x2: seq<Expr>)
    requires HasChain(k.rules, Ip, t1, c1) && HasChain(k.rules, Ip, t2, c2)
    requires (forall x :: x in x1 ==> !x.Jump? && !x.Goto?) && (forall x :: x in x2 ==> !x.Jump? && !x.Goto?)
    ensures Exec(k, [AddRule(Ip, t1, c1, x1), AddRule(Ip, t2, c2, x2)])
            == Some(Kernel(k.rules + [Rule(Ip, t1, c1, k.next, x1), Rule(Ip, t2, c2, k.next + 1, x2)], k.next + 2))
  {
    var e1, e2 := Rule(Ip, t1, c1, k.next, x1), Rule(Ip, t2, c2, k.next + 1, x2);
    var k1 := Kernel(k.rules + [e1], k.next + 1);
    var k2 := Kernel(k.rules + [e1, e2], k.next + 2);
    RuleLands(k, t1, c1, x1, k1);
    AppendTwo(k.rules, e1, e2);
    RuleLands(k1, t2, c2, x2, k2);
    ExecPair(k, AddRule(Ip, t1, c1, x1), AddRule(Ip, t2, c2, x2));
  }

  lemma ForwardLands(c: Config, k: Kernel, vm: string, d: Target, t1: string, t2: string)
    requires TableOf(k.rules, Ip, c.SupervisorPrerouting()) == Some(t1)
    requires TableOf(k.rules, Ip, c.VmFilter(vm)) == Some(t2)
    ensures AddForward(c, k, vm, d, true) == Ok(Kernel(k.rules + ForwardEntries(c, t1, t2, vm, d, k.next), k.next + 2))
  {
    var accept := [PortMatch(d.protocol, d.vmPort), Accept];
    TableOfMeans(k.rules, Ip, c.SupervisorPrerouting());
    TableOfMeans(k.rules, Ip, c.VmFilter(vm));
    DnatExprParts(d);
    assert forall x :: x in accept ==> !x.Jump? && !x.Goto?;
    TwoRulesLand(k, t1, c.SupervisorPrerouting(), DnatExpr(d), t2, c.VmFilter(vm), accept);
  }

  /** The add is accepted exactly when nft runs and the prerouting chain and the VM's filter
      chain are there. */
  lemma AddForwardAccepted(c: Config, k: Kernel, vm: string, d: Target, up: bool)
    ensures AddForward(c, k, vm, d, up).Ok?
            <==> (&& up
                  && TableOf(k.rules, Ip, c.SupervisorPrerouting()).Some?
                  && TableOf(k.rules, Ip, c.VmFilter(vm)).Some?)
  {
    if up && TableOf(k.rules, Ip, c.SupervisorPrerouting()).Some? && TableOf(k.rules, Ip, c.VmFilter(vm)).Some? {
      ForwardLands(c, k, vm, d, TableOf(k.rules, Ip, c.SupervisorPrerouting()).value,
                   TableOf(k.rules, Ip, c.VmFilter(vm)).value);
    }
  }

  lemma ForwardEntriesCount(c: Config, t1: string, t2: string, vm: string, d: Target, h: nat, e: Target)
    ensures Installed(ForwardEntries(c, t1, t2, vm, d, h), c.SupervisorPrerouting(), e) == if e == d then 1 else 0
  {
    var es := ForwardEntries(c, t1, t2, vm, d, h);
    Names(c, vm);
    InstalledConcat([es[0]], [es[1]], c.SupervisorPrerouting(), e);
    assert [es[0]] + [es[1]] == es;
    if DnatExpr(d) == DnatExpr(e) {
      TargetOf(d, e);
    }
  }

  /** An accepted addition adds one rule for its own forward and touches no other, whatever is
      installed already. */
  lemma AddForwardCounts(c: Config, k: Kernel, vm: string, d: Target, up: bool)
    requires WellFormed(k) && AddForward(c, k, vm, d, up).Ok?
    ensures var k' := AddForward(c, k, vm, d, up).value;
            && WellFormed(k') && k.rules <= k'.rules
            && (NoStray(k.rules, c.SupervisorPrerouting()) ==> NoStray(k'.rules, c.SupervisorPrerouting()))
            && (forall e: Entry :: e in k'.rules[|k.rules|..] ==> e.Rule?)
            && (forall e :: Installed(k'.rules, c.SupervisorPrerouting(), e)
                            == Installed(k.rules, c.SupervisorPrerouting(), e) + if e == d then 1 else 0)
  {
    var t1, t2 := TableOf(k.rules, Ip, c.SupervisorPrerouting()).value, TableOf(k.rules, Ip, c.VmFilter(vm)).value;
    var es := ForwardEntries(c, t1, t2, vm, d, k.next);
    ForwardLands(c, k, vm, d, t1, t2);
    ExecWellFormed(k, ForwardCommands(c, k.rules, vm, d).value);
    Names(c, vm);
    assert (k.rules + es)[|k.rules|..] == es;
    forall e
      ensures Installed(k.rules + es, c.SupervisorPrerouting(), e)
              == Installed(k.rules, c.SupervisorPrerouting(), e) + if e == d then 1 else 0
    {
      InstalledConcat(k.rules, es, c.SupervisorPrerouting(), e);
      ForwardEntriesCount(c, t1, t2, vm, d, k.next, e);
    }
  }

  /** Adding a forward adds exactly one copy of its rule to what the chain translates. It is
      not idempotent: replaying it installs a further copy. */
  lemma AddForwardInstalls(c: Config, k: Kernel, vm: string, d: Target, up: bool, want: set<Target>)
    requires WellFormed(k) && AddForward(c, k, vm, d, up).Ok?
    requires Translates(k.rules, c.SupervisorPrerouting(), want)
    ensures var k' := AddForward(c, k, vm, d, up).value;
            && WellFormed(k') && k.rules <= k'.rules
            && Translates(k'.rules, c.SupervisorPrerouting(), want + {d})
            && (forall e :: Installed(k'.rules, c.SupervisorPrerouting(), e)
                            == Installed(k.rules, c.SupervisorPrerouting(), e) + if e == d then 1 else 0)
  {
    AddForwardCounts(c, k, vm, d, up);
  }

  lemma TargetOf(d: Target, e: Target)
    requires DnatExpr(d) == DnatExpr(e)
    ensures d == e
  {
    assert DnatExpr(d)[0] == DnatExpr(e)[0] && DnatExpr(d)[1] == DnatExpr(e)[1];
    ProtocolTextInjective();
  }

  /** Removing a forward is always accepted and clears every copy of every rule for that
      port and protocol, and no other translation. */
  lemma RemoveForwardClears(c: Config, k: Kernel, hostPort: U16, protocol: Protocol, want: set<Target>)
    requires WellFormed(k) && Translates(k.rules, c.SupervisorPrerouting(), want)
    ensures RemoveForward(c, k, hostPort, protocol, true).Ok?
    ensures var k' := RemoveForward(c, k, hostPort, protocol, true).value;
            && WellFormed(k')
            && Translates(k'.rules, c.SupervisorPrerouting(),
                          set d | d in want && !(d.hostPort == hostPort && d.protocol == protocol))
            && (Single(k.rules, c.SupervisorPrerouting()) ==> Single(k'.rules, c.SupervisorPrerouting()))
  {
    var chain := c.SupervisorPrerouting();
    var drop := MatchingTest(chain, hostPort, protocol);
    DeleteSelected(k.rules, k.next, drop);
    DropRulesWellFormed(k, drop);
    MatchingDropped(k.rules, chain, hostPort, protocol);
  }

  lemma MatchingDropped(rs: Ruleset, chain: string, hostPort: U16, protocol: Protocol)
    ensures var rs' := Without(rs, MatchingTest(chain, hostPort, protocol));
            && (NoStray(rs, chain) ==> NoStray(rs', chain))
            && forall d :: Installed(rs', chain, d)
                           == if d.hostPort == hostPort && d.protocol == protocol then 0 else Installed(rs, chain, d)
  {
    var drop := MatchingTest(chain, hostPort, protocol);
    forall d
      ensures Installed(Without(rs, drop), chain, d)
              == if d.hostPort == hostPort && d.protocol == protocol then 0 else Installed(rs, chain, d)
    {
      DnatExprParts(d);
      InstalledWithout(rs, drop, chain, d, d.hostPort == hostPort && d.protocol == protocol);
    }
    forall e | e in Without(rs, drop) ensures e in rs { InWithout(rs, drop, e); }
  }
}
