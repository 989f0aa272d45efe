/** Where port forwards send packets, read off the rules of the supervisor prerouting chain. */
module Routes {
  import opened Wrappers
  import opened Words
  import opened PortForwards
  import opened Nft
  import opened Firewall
  import opened DnatRules
  import opened Packets

  /** Address and port. */
  type Destination = (nat, nat)

  /** What a rule does by itself, without following jumps. */
  function Alone(e: Entry, p: Packet): Fate
    requires e.Rule?
  {
    RuleFate([], e.family, e.table, e.expr, p, 0)
  }

  /** Where the rules of the chain, in any table, send a packet. */
  function Destinations(rs: Ruleset, chain: string, p: Packet): set<Destination> {
    set e | e in rs && e.Rule? && e.chain == chain && Alone(e, p).Redirects? :: (Alone(e, p).addr, Alone(e, p).port)
  }

  /** The packet is of this protocol and for this port. */
  predicate Hits(p: Packet, protocol: Protocol, port: U16) { p.protocol == ProtocolText(protocol) && p.dport == port }

  // ---- single rules ----

  lemma PortFate(rs: Ruleset, f: Family, t: string, protocol: Protocol, port: U16, last: Expr, p: Packet, depth: nat)
    ensures RuleFate(rs, f, t, [PortMatch(protocol, port), last], p, depth)
         == if Hits(p, protocol, port) then RuleFate(rs, f, t, [last], p, depth) else Falls
  {
    var x := [PortMatch(protocol, port), last];
    assert x[1..] == [last];
    assert RuleFate(rs, f, t, x, p, depth)
        == if Holds(p, "==", x[0].left, x[0].right) then RuleFate(rs, f, t, [last], p, depth) else Falls;
  }

  lemma {:induction false} RedirectHasDnat(f: Family, t: string, expr: seq<Expr>, p: Packet)
    ensures RuleFate([], f, t, expr, p, 0).Redirects? ==> HasDnat(expr)
  {
    if expr != [] {
      RedirectHasDnat(f, t, expr[1..], p);
      assert expr[0] in expr;
    }
  }

  /** The rule of a forward sends its own packets to its own address and port. */
  lemma DnatFate(rs: Ruleset, f: Family, t: string, d: Target, p: Packet, depth: nat)
    ensures RuleFate(rs, f, t, DnatExpr(d), p, depth)
         == if Hits(p, d.protocol, d.hostPort) then Redirects(d.addr, d.vmPort) else Falls
  {
    PortFate(rs, f, t, d.protocol, d.hostPort, Dnat(d.addr, d.vmPort), p, depth);
  }

  lemma AcceptFate(rs: Ruleset, f: Family, t: string, protocol: Protocol, port: U16, p: Packet, depth: nat)
    ensures RuleFate(rs, f, t, [PortMatch(protocol, port), Accept], p, depth)
         == if Hits(p, protocol, port) then Accepts else Falls
  {
    PortFate(rs, f, t, protocol, port, Accept, p, depth);
  }

  // ---- what is installed and where it sends ----

  /** Without strays, a packet is sent exactly where the installed forwards for its port say. */
  lemma DestinationsAre(rs: Ruleset, chain: string, p: Packet, x: Destination)
    requires NoStray(rs, chain)
    ensures x in Destinations(rs, chain, p)
       <==> exists d :: Installed(rs, chain, d) > 0 && Hits(p, d.protocol, d.hostPort) && x == (d.addr, d.vmPort)
  {
    if x in Destinations(rs, chain, p) {
      var e :| e in rs && e.Rule? && e.chain == chain && Alone(e, p).Redirects?
               && x == (Alone(e, p).addr, Alone(e, p).port);
      RedirectHasDnat(e.family, e.table, e.expr, p);
      var d :| e.expr == DnatExpr(d);
      DnatFate([], e.family, e.table, d, p, 0);
      InstalledMeans(rs, chain, d);
    }
    if d :| Installed(rs, chain, d) > 0 && Hits(p, d.protocol, d.hostPort) && x == (d.addr, d.vmPort) {
      InstalledMeans(rs, chain, d);
      var e :| e in rs && e.Rule? && e.chain == chain && e.expr == DnatExpr(d);
      DnatFate([], e.family, e.table, d, p, 0);
    }
  }

  /** The packet that only this forward is for. */
  function PacketFor(d: Target): Packet { Packet("", "", "", ProtocolText(d.protocol), d.hostPort) }

  /** A set of forwards sends each packet where the chain does exactly when it is the installed one. */
  lemma SendsAlikeExactlyWhen(rs: Ruleset, chain: string, want: set<Target>)
    requires NoStray(rs, chain)
    ensures Translates(rs, chain, want) <==> forall p :: Destinations(rs, chain, p) == Sent(want, p)
  {
    if Translates(rs, chain, want) {
      forall p, x ensures x in Destinations(rs, chain, p) <==> x in Sent(want, p) { DestinationsAre(rs, chain, p, x); }
    }
    if forall p :: Destinations(rs, chain, p) == Sent(want, p) {
      forall d ensures Installed(rs, chain, d) > 0 <==> d in want {
        ProtocolTextInjective();
        DestinationsAre(rs, chain, PacketFor(d), (d.addr, d.vmPort));
        assert Destinations(rs, chain, PacketFor(d)) == Sent(want, PacketFor(d));
        assert Hits(PacketFor(d), d.protocol, d.hostPort);
      }
    }
  }

  /** Where a set of forwards sends a packet. */
  function Sent(want: set<Target>, p: Packet): set<Destination> {
    set d | d in want && Hits(p, d.protocol, d.hostPort) :: (d.addr, d.vmPort)
  }

  // ---- adding a forward ----

  lemma DestinationsAppend(a: Ruleset, b: Ruleset, chain: string, p: Packet)
    ensures Destinations(a + b, chain, p) == Destinations(a, chain, p) + Destinations(b, chain, p)
  {
    forall e ensures e in a + b <==> e in a || e in b {}
  }

  /** An accepted addition sends the packets for its host port to the VM's address and port as
      well, and every other packet where it went before. */
  lemma AddForwardSends(c: Config, k: Kernel, vm: string, d: Target, up: bool, p: Packet)
    requires AddForward(c, k, vm, d, up).Ok?
    ensures Destinations(AddForward(c, k, vm, d, up).value.rules, c.SupervisorPrerouting(), p)
         == Destinations(k.rules, c.SupervisorPrerouting(), p)
            + if p.protocol == ProtocolText(d.protocol) && p.dport == d.hostPort then {(d.addr, d.vmPort)} else {}
  {
    var t1, t2 := TableOf(k.rules, Ip, c.SupervisorPrerouting()).value, TableOf(k.rules, Ip, c.VmFilter(vm)).value;
    var es := ForwardEntries(c, t1, t2, vm, d, k.next);
    ForwardLands(c, k, vm, d, t1, t2);
    DestinationsAppend(k.rules, es, c.SupervisorPrerouting(), p);
    Names(c, vm);
    DnatFate([], Ip, t1, d, p, 0);
    assert es[0] in es && Alone(es[0], p) == RuleFate([], Ip, t1, DnatExpr(d), p, 0);
    assert forall e :: e in es && e.chain == c.SupervisorPrerouting() ==> e == es[0];
  }

  /** A chain that leads nowhere else. */
  ghost predicate Flat(rs: Ruleset, f: Family, t: string, chain: string) {
    LeadsWithin(ExprsOf(rs, f, t, chain), iset{})
  }

  lemma AppendedFate(before: Ruleset, after: Ruleset, f: Family, t: string, chain: string, expr: seq<Expr>, p: Packet,
                     depth: nat)
    requires Flat(before, f, t, chain) && ExprsOf(after, f, t, chain) == ExprsOf(before, f, t, chain) + [expr]
    ensures ChainFate(after, f, t, chain, p, depth)
         == var fate := ChainFate(before, f, t, chain, p, depth);
            if fate.Falls? then RuleFate(after, f, t, expr, p, depth) else fate
  {
    var rules := ExprsOf(before, f, t, chain);
    RulesAppend(after, f, t, rules, [expr], p, depth);
    OneRuleFate(after, f, t, expr, p, depth);
    SameRulesFate(before, after, f, t, iset{}, rules, p, depth);
  }

  lemma ForwardExprs(c: Config, k: Kernel, vm: string, d: Target, t1: string, t2: string)
    requires TableOf(k.rules, Ip, c.SupervisorPrerouting()) == Some(t1)
    requires TableOf(k.rules, Ip, c.VmFilter(vm)) == Some(t2)
    ensures var after := k.rules + ForwardEntries(c, t1, t2, vm, d, k.next);
            && ExprsOf(after, Ip, t1, c.SupervisorPrerouting())
               == ExprsOf(k.rules, Ip, t1, c.SupervisorPrerouting()) + [DnatExpr(d)]
            && ExprsOf(after, Ip, t2, c.VmFilter(vm))
               == ExprsOf(k.rules, Ip, t2, c.VmFilter(vm)) + [[PortMatch(d.protocol, d.vmPort), Accept]]
  {
    var es := ForwardEntries(c, t1, t2, vm, d, k.next);
    Names(c, vm);
    assert es == [es[0], es[1]];
    ExprsAppend(k.rules, es, Ip, t1, c.SupervisorPrerouting());
    ExprsAppend(k.rules, es, Ip, t2, c.VmFilter(vm));
    TwoExprs(es[0], es[1], Ip, t1, c.SupervisorPrerouting());
    TwoExprs(es[0], es[1], Ip, t2, c.VmFilter(vm));
  }

  lemma TwoExprs(a: Entry, b: Entry, f: Family, t: string, chain: string)
    ensures ExprsOf([a, b], f, t, chain) == ExprIn(a, f, t, chain) + ExprIn(b, f, t, chain)
  {
    assert [a, b][1..] == [b] && [b][1..] == [];
    assert ExprsOf([b], f, t, chain) == ExprIn(b, f, t, chain) + [] == ExprIn(b, f, t, chain);
  }

  /** After an accepted addition a packet for the host port, unless the prerouting chain did
      something with it before, goes to the VM's address and port; then a packet for that port,
      unless the VM's filter chain did something with it before, is accepted there. Every other
      packet fares as before. */
  lemma AddForwardRoutes(c: Config, k: Kernel, vm: string, d: Target, up: bool, p: Packet, depth: nat)
    requires AddForward(c, k, vm, d, up).Ok?
    ensures var before, after := k.rules, AddForward(c, k, vm, d, up).value.rules;
            var chain, t := c.SupervisorPrerouting(), TableOf(k.rules, Ip, c.SupervisorPrerouting());
            && t.Some?
            && (Flat(before, Ip, t.value, chain) ==>
                  var fate := ChainFate(before, Ip, t.value, chain, p, depth);
                  ChainFate(after, Ip, t.value, chain, p, depth)
                  == if fate.Falls? && p.protocol == ProtocolText(d.protocol) && p.dport == d.hostPort
                     then Redirects(d.addr, d.vmPort) else fate)
    ensures var before, after := k.rules, AddForward(c, k, vm, d, up).value.rules;
            var chain, t := c.VmFilter(vm), TableOf(k.rules, Ip, c.VmFilter(vm));
            && t.Some?
            && (Flat(before, Ip, t.value, chain) ==>
                  var fate := ChainFate(before, Ip, t.value, chain, p, depth);
                  ChainFate(after, Ip, t.value, chain, p, depth)
                  == if fate.Falls? && p.protocol == ProtocolText(d.protocol) && p.dport == d.vmPort
                     then Accepts else fate)
  {
    var t1, t2 := TableOf(k.rules, Ip, c.SupervisorPrerouting()).value, TableOf(k.rules, Ip, c.VmFilter(vm)).value;
    ForwardLands(c, k, vm, d, t1, t2);
    ForwardExprs(c, k, vm, d, t1, t2);
    var after := k.rules + ForwardEntries(c, t1, t2, vm, d, k.next);
    DnatFate(after, Ip, t1, d, p, depth);
    AcceptFate(after, Ip, t2, d.protocol, d.vmPort, p, depth);
    if Flat(k.rules, Ip, t1, c.SupervisorPrerouting()) {
      AppendedFate(k.rules, after, Ip, t1, c.SupervisorPrerouting(), DnatExpr(d), p, depth);
    }
    if Flat(k.rules, Ip, t2, c.VmFilter(vm)) {
      AppendedFate(k.rules, after, Ip, t2, c.VmFilter(vm), [PortMatch(d.protocol, d.vmPort), Accept], p, depth);
    }
  }

  // ---- the chain as a whole ----

  lemma {:induction false} FlatRuleFate(rs: Ruleset, f: Family, t: string, expr: seq<Expr>, p: Packet, depth: nat)
    requires StaysWithin(expr, iset{})
    ensures RuleFate(rs, f, t, expr, p, depth) == RuleFate([], f, t, expr, p, 0)
  {
    if expr != [] {
      assert expr[0] in expr;
      FlatRuleFate(rs, f, t, expr[1..], p, depth);
    }
  }

  lemma {:induction false} SomeRuleDecides(rs: Ruleset, f: Family, t: string, rules: seq<seq<Expr>>, p: Packet,
                                           depth: nat)
    requires LeadsWithin(rules, iset{}) && RulesFate(rs, f, t, rules, p, depth) != Falls
    ensures exists i :: 0 <= i < |rules| && RuleFate([], f, t, rules[i], p, 0) == RulesFate(rs, f, t, rules, p, depth)
  {
    FlatRuleFate(rs, f, t, rules[0], p, depth);
    if RuleFate(rs, f, t, rules[0], p, depth).Falls? {
      SomeRuleDecides(rs, f, t, rules[1..], p, depth);
      var i :| 0 <= i < |rules[1..]|
        && RuleFate([], f, t, rules[1..][i], p, 0) == RulesFate(rs, f, t, rules[1..], p, depth);
      assert rules[1..][i] == rules[i + 1];
    }
  }

  /** Where a chain sends a packet is one of its rules' destinations. */
  lemma ChainSends(rs: Ruleset, f: Family, t: string, chain: string, p: Packet, depth: nat)
    requires Flat(rs, f, t, chain)
    ensures var fate := ChainFate(rs, f, t, chain, p, depth);
            fate.Redirects? ==> (fate.addr, fate.port) in Destinations(rs, chain, p)
  {
    var rules := ExprsOf(rs, f, t, chain);
    if ChainFate(rs, f, t, chain, p, depth).Redirects? {
      SomeRuleDecides(rs, f, t, rules, p, depth);
      var i :| 0 <= i < |rules| && RuleFate([], f, t, rules[i], p, 0) == RulesFate(rs, f, t, rules, p, depth);
      ExprsAreRules(rs, f, t, chain, i);
      var e :| e in rs && e.Rule? && BelongsTo(e, f, t, chain) && e.expr == rules[i];
      assert Alone(e, p) == ChainFate(rs, f, t, chain, p, depth);
    }
  }

  lemma {:induction false} EveryRuleFalls(rs: Ruleset, f: Family, t: string, rules: seq<seq<Expr>>, p: Packet,
                                          depth: nat, i: nat)
    requires LeadsWithin(rules, iset{}) && RulesFate(rs, f, t, rules, p, depth) == Falls && i < |rules|
    ensures RuleFate([], f, t, rules[i], p, 0) == Falls
  {
    if i == 0 {
      FlatRuleFate(rs, f, t, rules[0], p, depth);
    } else {
      EveryRuleFalls(rs, f, t, rules[1..], p, depth, i - 1);
      assert rules[i] == rules[1..][i - 1];
    }
  }

  lemma {:induction false} RulesAreExprs(rs: Ruleset, f: Family, t: string, chain: string, e: Entry)
    requires e in rs && e.Rule? && BelongsTo(e, f, t, chain)
    ensures exists i :: 0 <= i < |ExprsOf(rs, f, t, chain)| && ExprsOf(rs, f, t, chain)[i] == e.expr
  {
    var rest := ExprsOf(rs[1..], f, t, chain);
    if e == rs[0] {
      assert ExprsOf(rs, f, t, chain)[0] == e.expr;
    } else {
      RulesAreExprs(rs[1..], f, t, chain, e);
      var i :| 0 <= i < |rest| && rest[i] == e.expr;
      assert ExprsOf(rs, f, t, chain)[i + |ExprIn(rs[0], f, t, chain)|] == e.expr;
    }
  }

  /** The chain stands in this table only and holds nothing but the rules of forwards. */
  ghost predicate OnlyForwards(rs: Ruleset, f: Family, t: string, chain: string) {
    forall e :: e in rs && e.Rule? && e.chain == chain ==>
      e.family == f && e.table == t && exists d :: e.expr == DnatExpr(d)
  }

  lemma OnlyForwardsIsFlat(rs: Ruleset, f: Family, t: string, chain: string)
    requires OnlyForwards(rs, f, t, chain)
    ensures Flat(rs, f, t, chain)
  {
    var rules := ExprsOf(rs, f, t, chain);
    forall i | 0 <= i < |rules| ensures StaysWithin(rules[i], iset{}) {
      ExprsAreRules(rs, f, t, chain, i);
      var e :| e in rs && e.Rule? && BelongsTo(e, f, t, chain) && e.expr == rules[i];
      var d :| e.expr == DnatExpr(d);
      DnatExprParts(d);
    }
  }

  /** A chain of forwards only sends a packet to one of its destinations if it has any, and lets
      it pass otherwise. */
  lemma OnlyForwardsSends(rs: Ruleset, f: Family, t: string, chain: string, p: Packet, depth: nat)
    requires OnlyForwards(rs, f, t, chain)
    ensures var fate := ChainFate(rs, f, t, chain, p, depth);
            if Destinations(rs, chain, p) == {} then fate == Falls
            else fate.Redirects? && (fate.addr, fate.port) in Destinations(rs, chain, p)
  {
    var rules := ExprsOf(rs, f, t, chain);
    OnlyForwardsIsFlat(rs, f, t, chain);
    ChainSends(rs, f, t, chain, p, depth);
    if ChainFate(rs, f, t, chain, p, depth) == Falls {
      forall e | e in rs && e.Rule? && e.chain == chain ensures !Alone(e, p).Redirects? {
        RulesAreExprs(rs, f, t, chain, e);
        var i :| 0 <= i < |rules| && rules[i] == e.expr;
        EveryRuleFalls(rs, f, t, rules, p, depth, i);
      }
    } else {
      SomeRuleDecides(rs, f, t, rules, p, depth);
      var i :| 0 <= i < |rules| && RuleFate([], f, t, rules[i], p, 0) == RulesFate(rs, f, t, rules, p, depth);
      ExprsAreRules(rs, f, t, chain, i);
      var e :| e in rs && e.Rule? && BelongsTo(e, f, t, chain) && e.expr == rules[i];
      var d :| e.expr == DnatExpr(d);
      DnatFate([], f, t, d, p, 0);
    }
  }
}
