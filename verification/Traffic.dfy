/** What setting a VM up does to traffic, read off the resulting rules. */
module Traffic {
  import opened Wrappers
  import opened Nft
  import opened Firewall
  import opened VmChains
  import opened Packets
  import Supervisor

  // ---- the rules a batch adds to a chain ----

  function NewExpr(snapshot: Ruleset, w: Want, f: Family, t: string, c: string): seq<seq<Expr>> {
    if !Recognised(snapshot, w) && !w.WantChain? && w.family == f && w.table == t && w.chain == c
    then [ExprFor(w)] else []
  }

  function NewExprs(snapshot: Ruleset, wants: seq<Want>, f: Family, t: string, c: string): seq<seq<Expr>> {
    if wants == [] then [] else NewExpr(snapshot, wants[0], f, t, c) + NewExprs(snapshot, wants[1..], f, t, c)
  }

  lemma {:induction false} LandExprs(k: Kernel, snapshot: Ruleset, wants: seq<Want>, f: Family, t: string, c: string)
    ensures ExprsOf(Land(k, snapshot, wants).rules, f, t, c)
         == ExprsOf(k.rules, f, t, c) + NewExprs(snapshot, wants, f, t, c)
    decreases |wants|
  {
    if wants != [] {
      var k' := LandOne(k, snapshot, wants[0]);
      LandExprs(k', snapshot, wants[1..], f, t, c);
      LandOneExprs(k, snapshot, wants[0], f, t, c);
      Grouping(ExprsOf(k.rules, f, t, c), NewExpr(snapshot, wants[0], f, t, c),
               NewExprs(snapshot, wants[1..], f, t, c));
    }
  }

  lemma LandOneExprs(k: Kernel, snapshot: Ruleset, w: Want, f: Family, t: string, c: string)
    ensures ExprsOf(LandOne(k, snapshot, w).rules, f, t, c) == ExprsOf(k.rules, f, t, c) + NewExpr(snapshot, w, f, t, c)
  {
    var e := EntryFor(w, k.next);
    ExprsAppend(k.rules, [e], f, t, c);
    assert [e][1..] == [];
    assert ExprsOf([e], f, t, c) == ExprIn(e, f, t, c) + [] == ExprIn(e, f, t, c);
  }

  lemma {:induction false} NewExprsConcat(snapshot: Ruleset, a: seq<Want>, b: seq<Want>, f: Family, t: string,
                                          c: string)
    ensures NewExprs(snapshot, a + b, f, t, c) == NewExprs(snapshot, a, f, t, c) + NewExprs(snapshot, b, f, t, c)
  {
    if a == [] {
      assert a + b == b;
    } else {
      NewExprsConcat(snapshot, a[1..], b, f, t, c);
      assert (a + b)[0] == a[0] && (a + b)[1..] == a[1..] + b;
      Grouping(NewExpr(snapshot, a[0], f, t, c), NewExprs(snapshot, a[1..], f, t, c), NewExprs(snapshot, b, f, t, c));
    }
  }

  /** What one block adds to a chain when nothing of it was there. */
  lemma BlockExprs(snapshot: Ruleset, supervisor: string, rule: Want, f: Family, t: string, c: string)
    requires !rule.WantChain? && supervisor != rule.chain
    requires forall w :: w in Block(supervisor, rule) ==> !Recognised(snapshot, w)
    ensures NewExprs(snapshot, Block(supervisor, rule), f, t, c)
         == if rule.family != f || rule.table != t then []
            else if c == supervisor then [[Jump(rule.chain)]]
            else if c == rule.chain then [ExprFor(rule)]
            else []
  {
    var b := Block(supervisor, rule);
    assert b[0] in b && b[1] in b && b[2] in b;
    NewExprsConcat(snapshot, [b[0]] + [b[1]], [b[2]], f, t, c);
    NewExprsConcat(snapshot, [b[0]], [b[1]], f, t, c);
    assert [b[0]] + [b[1]] + [b[2]] == b;
    OneNewExpr(snapshot, b[0], f, t, c);
    OneNewExpr(snapshot, b[1], f, t, c);
    OneNewExpr(snapshot, b[2], f, t, c);
  }

  lemma OneNewExpr(snapshot: Ruleset, w: Want, f: Family, t: string, c: string)
    ensures NewExprs(snapshot, [w], f, t, c) == NewExpr(snapshot, w, f, t, c)
  {
    assert [w][1..] == [];
  }

  // ---- fates of the generated rules ----

  lemma InterfaceFate(rs: Ruleset, f: Family, t: string, iif: string, oif: string, verdict: Expr, p: Packet, depth: nat)
    requires verdict.Accept? || verdict.Masquerade?
    ensures RuleFate(rs, f, t, InterfaceMatches(iif, oif) + [verdict], p, depth)
         == if p.iif == iif && p.oif == oif then (if verdict.Accept? then Accepts else Masquerades) else Falls
  {
    var x := InterfaceMatches(iif, oif) + [verdict];
    KeysDiffer();
    assert x[1..][1..] == [verdict];
    var last := RuleFate(rs, f, t, [verdict], p, depth);
    assert RuleFate(rs, f, t, x[1..], p, depth) == if p.oif == oif then last else Falls;
  }

  lemma KeysDiffer()
    ensures "iifname" != "oifname"
  {
    assert "iifname"[0] != "oifname"[0];
  }

  lemma JumpFate(rs: Ruleset, f: Family, t: string, target: string, p: Packet, depth: nat)
    requires depth > 0
    ensures RuleFate(rs, f, t, [Jump(target)], p, depth)
         == var fate := ChainFate(rs, f, t, target, p, depth - 1); if fate.Leaves? then Falls else fate
  {
    assert [Jump(target)][1..] == [];
  }

  // ---- the ruleset around the VM ----

  predicate IsBase(rs: Ruleset, f: Family, t: string, n: string) {
    exists e :: e in rs && IsChain(e, f, t, n) && e.hook.Some?
  }

  /** Control passes to a supervisor chain from base chains only and, as the kernel demands, never
      to a base chain. */
  ghost predicate Tidy(c: Config, rs: Ruleset) {
    && (forall f, t, n :: c.IsSupervisor(n) ==> !IsBase(rs, f, t, n))
    && (forall e, x :: e in rs && e.Rule? && x in e.expr && (x.Jump? || x.Goto?) ==>
          && !IsBase(rs, e.family, e.table, x.target)
          && (c.IsSupervisor(x.target) ==> IsBase(rs, e.family, e.table, e.chain)))
  }

  /** Chains that setting the VM up does not touch and that never lead to one it touches. */
  ghost function Inner(c: Config, rs: Ruleset, vm: string, f: Family, t: string): iset<string> {
    iset n | !IsBase(rs, f, t, n) && !c.IsSupervisor(n) && n != c.VmNat(vm) && n != c.VmFilter(vm)
  }

  lemma LeadsInside(c: Config, k: Kernel, vm: string, f: Family, t: string, n: string)
    requires WellFormed(k) && NoTrace(c, vm, k.rules) && Tidy(c, k.rules) && !IsBase(k.rules, f, t, n)
    ensures LeadsWithin(ExprsOf(k.rules, f, t, n), Inner(c, k.rules, vm, f, t))
  {
    var rules := ExprsOf(k.rules, f, t, n);
    forall i | 0 <= i < |rules| ensures StaysWithin(rules[i], Inner(c, k.rules, vm, f, t)) {
      ExprsAreRules(k.rules, f, t, n, i);
      var e :| e in k.rules && e.Rule? && BelongsTo(e, f, t, n) && e.expr == rules[i];
      RuleStaysInside(c, k, vm, e);
    }
  }

  lemma RuleStaysInside(c: Config, k: Kernel, vm: string, e: Entry)
    requires WellFormed(k) && NoTrace(c, vm, k.rules) && Tidy(c, k.rules)
    requires e in k.rules && e.Rule? && !IsBase(k.rules, e.family, e.table, e.chain)
    ensures StaysWithin(e.expr, Inner(c, k.rules, vm, e.family, e.table))
  {
    NoGotoBeforeSetup(c, k, vm, e, c.VmNat(vm));
    NoGotoBeforeSetup(c, k, vm, e, c.VmFilter(vm));
    assert !TraceOf(c, vm, e);
    forall x | x in e.expr && (x.Jump? || x.Goto?) ensures x.target in Inner(c, k.rules, vm, e.family, e.table) {
      assert x == if x.Jump? then Jump(x.target) else Goto(x.target);
    }
  }

  /** A VM without trace has no rules. */
  lemma NoRulesYet(c: Config, rs: Ruleset, vm: string, f: Family, t: string, n: string)
    requires NoTrace(c, vm, rs) && (n == c.VmNat(vm) || n == c.VmFilter(vm))
    ensures ExprsOf(rs, f, t, n) == []
  {
    forall e | e in rs && e.Rule? ensures !BelongsTo(e, f, t, n) { assert !TraceOf(c, vm, e); }
    NoExprs(rs, f, t, n);
  }

  lemma NothingRecognised(c: Config, rs: Ruleset, vm: string, tap: string, w: Want)
    requires NoTrace(c, vm, rs) && SetupWants(c, rs, vm, tap).Ok? && w in SetupWants(c, rs, vm, tap).value
    ensures !Recognised(rs, w)
  {
    SetupWantShape(c, rs, vm, tap, w);
    forall e | e in rs ensures !Recognises(e, w) { assert !TraceOf(c, vm, e); }
  }

  // ---- what setup adds, chain by chain ----

  /** The rules one family of a VM gets in a chain. */
  function Share(f: Family, t: string, n: string, family: Family, table: string, supervisor: string, own: string,
                 rule: seq<Expr>): seq<seq<Expr>> {
    if f != family || t != table then []
    else if n == supervisor then [[Jump(own)]]
    else if n == own then [rule]
    else []
  }

  function SetupExprs(c: Config, rs: Ruleset, vm: string, tap: string, f: Family, t: string, n: string): seq<seq<Expr>>
    requires TableOf(rs, Ip, c.SupervisorNat()).Some? && TableOf(rs, Ip, c.SupervisorFilter()).Some?
  {
    var both := InterfaceMatches(tap, c.external);
    Share(f, t, n, Ip, TableOf(rs, Ip, c.SupervisorNat()).value, c.SupervisorNat(), c.VmNat(vm), both + [Masquerade])
    + Share(f, t, n, Ip, TableOf(rs, Ip, c.SupervisorFilter()).value, c.SupervisorFilter(), c.VmFilter(vm),
            both + [Accept])
    + match TableOf(rs, Ip6, c.SupervisorFilter())
      case None => []
      case Some(t6) =>
        if c.ipv6Enabled then Share(f, t, n, Ip6, t6, c.SupervisorFilter(), c.VmFilter(vm), both + [Accept]) else []
  }

  lemma SetupAdds(c: Config, k: Kernel, vm: string, tap: string, f: Family, t: string, n: string)
    requires WellFormed(k) && NoTrace(c, vm, k.rules)
    requires TableOf(k.rules, Ip, c.SupervisorNat()).Some? && TableOf(k.rules, Ip, c.SupervisorFilter()).Some?
    ensures SetupVm(c, k, vm, tap, true).Ok?
    ensures ExprsOf(SetupVm(c, k, vm, tap, true).value.rules, f, t, n)
         == ExprsOf(k.rules, f, t, n) + SetupExprs(c, k.rules, vm, tap, f, t, n)
  {
    SetupIsAccepted(c, k, vm, tap);
    var wants := SetupWants(c, k.rules, vm, tap).value;
    LandExprs(k, k.rules, wants, f, t, n);
    forall w | w in wants ensures !Recognised(k.rules, w) { NothingRecognised(c, k.rules, vm, tap, w); }
    NewExprsOfSetup(c, k.rules, vm, tap, f, t, n);
  }

  lemma NewExprsOfSetup(c: Config, rs: Ruleset, vm: string, tap: string, f: Family, t: string, n: string)
    requires TableOf(rs, Ip, c.SupervisorNat()).Some? && TableOf(rs, Ip, c.SupervisorFilter()).Some?
    requires forall w :: w in SetupWants(c, rs, vm, tap).value ==> !Recognised(rs, w)
    ensures NewExprs(rs, SetupWants(c, rs, vm, tap).value, f, t, n) == SetupExprs(c, rs, vm, tap, f, t, n)
  {
    var t1, t2 := TableOf(rs, Ip, c.SupervisorNat()).value, TableOf(rs, Ip, c.SupervisorFilter()).value;
    var natRule, filterRule := WantMasquerade(Ip, t1, c.VmNat(vm), tap, c.external),
        WantForward(Ip, t2, c.VmFilter(vm), tap, c.external);
    var b1, b2 := Block(c.SupervisorNat(), natRule), Block(c.SupervisorFilter(), filterRule);
    Names(c, vm);
    NewExprsConcat(rs, b1, b2, f, t, n);
    BlockShare(rs, c.SupervisorNat(), natRule, f, t, n);
    BlockShare(rs, c.SupervisorFilter(), filterRule, f, t, n);
    if c.ipv6Enabled && TableOf(rs, Ip6, c.SupervisorFilter()).Some? {
      var rule6 := WantForward(Ip6, TableOf(rs, Ip6, c.SupervisorFilter()).value, c.VmFilter(vm), tap, c.external);
      NewExprsConcat(rs, b1 + b2, Block(c.SupervisorFilter(), rule6), f, t, n);
      BlockShare(rs, c.SupervisorFilter(), rule6, f, t, n);
    }
  }

  lemma BlockShare(rs: Ruleset, supervisor: string, rule: Want, f: Family, t: string, n: string)
    requires !rule.WantChain? && supervisor != rule.chain
    requires forall w :: w in Block(supervisor, rule) ==> !Recognised(rs, w)
    ensures NewExprs(rs, Block(supervisor, rule), f, t, n)
         == Share(f, t, n, rule.family, rule.table, supervisor, rule.chain, ExprFor(rule))
  {
    BlockExprs(rs, supervisor, rule, f, t, n);
  }

  // ---- what happens to a packet ----

  /** The chain treats the packet as before; if it did nothing, the new last rule decides. */
  function Then(before: Fate, last: Fate): Fate { if before.Falls? then last else before }

  /** From the VM's network to the outside. */
  predicate Outgoing(c: Config, tap: string, p: Packet) { p.iif == tap && p.oif == c.external }

  lemma SameInside(c: Config, k: Kernel, vm: string, tap: string, f: Family, t: string)
    requires WellFormed(k) && NoTrace(c, vm, k.rules) && Tidy(c, k.rules)
    requires TableOf(k.rules, Ip, c.SupervisorNat()).Some? && TableOf(k.rules, Ip, c.SupervisorFilter()).Some?
    ensures SetupVm(c, k, vm, tap, true).Ok?
    ensures SameWithin(k.rules, SetupVm(c, k, vm, tap, true).value.rules, f, t, Inner(c, k.rules, vm, f, t))
  {
    SetupAdds(c, k, vm, tap, f, t, "");
    forall n | n in Inner(c, k.rules, vm, f, t)
      ensures ExprsOf(k.rules, f, t, n) == ExprsOf(SetupVm(c, k, vm, tap, true).value.rules, f, t, n)
      ensures LeadsWithin(ExprsOf(k.rules, f, t, n), Inner(c, k.rules, vm, f, t))
    {
      SetupAdds(c, k, vm, tap, f, t, n);
      LeadsInside(c, k, vm, f, t, n);
    }
  }

  /** A supervisor chain that gets a jump to a VM chain with one interface rule. */
  lemma SupervisorFate(c: Config, k: Kernel, vm: string, tap: string, f: Family, t: string, supervisor: string,
                       own: string, verdict: Expr, p: Packet, depth: nat)
    requires WellFormed(k) && NoTrace(c, vm, k.rules) && Tidy(c, k.rules) && depth > 0
    requires TableOf(k.rules, Ip, c.SupervisorNat()).Some? && TableOf(k.rules, Ip, c.SupervisorFilter()).Some?
    requires c.IsSupervisor(supervisor) && (own == c.VmNat(vm) || own == c.VmFilter(vm))
    requires verdict.Accept? || verdict.Masquerade?
    requires SetupExprs(c, k.rules, vm, tap, f, t, supervisor) == [[Jump(own)]]
    requires SetupExprs(c, k.rules, vm, tap, f, t, own) == [InterfaceMatches(tap, c.external) + [verdict]]
    ensures SetupVm(c, k, vm, tap, true).Ok?
    ensures ChainFate(SetupVm(c, k, vm, tap, true).value.rules, f, t, supervisor, p, depth)
         == Then(ChainFate(k.rules, f, t, supervisor, p, depth),
                 if !Outgoing(c, tap, p) then Falls else if verdict.Accept? then Accepts else Masquerades)
  {
    SameInside(c, k, vm, tap, f, t);
    SetupAdds(c, k, vm, tap, f, t, supervisor);
    var after, rules := SetupVm(c, k, vm, tap, true).value.rules, ExprsOf(k.rules, f, t, supervisor);
    LeadsInside(c, k, vm, f, t, supervisor);
    SameRulesFate(k.rules, after, f, t, Inner(c, k.rules, vm, f, t), rules, p, depth);
    RulesAppend(after, f, t, rules, [[Jump(own)]], p, depth);
    OneRuleFate(after, f, t, [Jump(own)], p, depth);
    JumpFate(after, f, t, own, p, depth);
    OwnFate(c, k, vm, tap, f, t, own, verdict, p, depth - 1);
  }

  lemma OwnFate(c: Config, k: Kernel, vm: string, tap: string, f: Family, t: string, own: string, verdict: Expr,
                p: Packet, depth: nat)
    requires WellFormed(k) && NoTrace(c, vm, k.rules) && (own == c.VmNat(vm) || own == c.VmFilter(vm))
    requires TableOf(k.rules, Ip, c.SupervisorNat()).Some? && TableOf(k.rules, Ip, c.SupervisorFilter()).Some?
    requires verdict.Accept? || verdict.Masquerade?
    requires SetupExprs(c, k.rules, vm, tap, f, t, own) == [InterfaceMatches(tap, c.external) + [verdict]]
    ensures SetupVm(c, k, vm, tap, true).Ok?
    ensures ChainFate(SetupVm(c, k, vm, tap, true).value.rules, f, t, own, p, depth)
         == if !Outgoing(c, tap, p) then Falls else if verdict.Accept? then Accepts else Masquerades
  {
    SetupAdds(c, k, vm, tap, f, t, own);
    NoRulesYet(c, k.rules, vm, f, t, own);
    var after, rule := SetupVm(c, k, vm, tap, true).value.rules, InterfaceMatches(tap, c.external) + [verdict];
    assert ExprsOf(after, f, t, own) == [rule];
    OneRuleFate(after, f, t, rule, p, depth);
    InterfaceFate(after, f, t, tap, c.external, verdict, p, depth);
  }

  /** After setting up a VM that had no trace, a packet on its way out through the VM's TAP device,
      unless something before it in the supervisor chain already decides, is masqueraded in the
      nat chain and accepted in the filter chain, in ip6 too when that is on and there; any other
      packet, the same one backwards among them, fares as before. */
  lemma SetupRoutes(c: Config, k: Kernel, vm: string, tap: string, p: Packet, depth: nat)
    requires WellFormed(k) && NoTrace(c, vm, k.rules) && Tidy(c, k.rules) && depth > 0
    requires TableOf(k.rules, Ip, c.SupervisorNat()).Some? && TableOf(k.rules, Ip, c.SupervisorFilter()).Some?
    ensures SetupVm(c, k, vm, tap, true).Ok?
    ensures var before, after := k.rules, SetupVm(c, k, vm, tap, true).value.rules;
            var t, s := TableOf(before, Ip, c.SupervisorNat()).value, c.SupervisorNat();
            ChainFate(after, Ip, t, s, p, depth)
            == Then(ChainFate(before, Ip, t, s, p, depth),
                    if p.iif == tap && p.oif == c.external then Masquerades else Falls)
    ensures var before, after := k.rules, SetupVm(c, k, vm, tap, true).value.rules;
            var t, s := TableOf(before, Ip, c.SupervisorFilter()).value, c.SupervisorFilter();
            ChainFate(after, Ip, t, s, p, depth)
            == Then(ChainFate(before, Ip, t, s, p, depth),
                    if p.iif == tap && p.oif == c.external then Accepts else Falls)
    ensures c.ipv6Enabled && TableOf(k.rules, Ip6, c.SupervisorFilter()).Some? ==>
              var before, after := k.rules, SetupVm(c, k, vm, tap, true).value.rules;
              var t, s := TableOf(before, Ip6, c.SupervisorFilter()).value, c.SupervisorFilter();
              ChainFate(after, Ip6, t, s, p, depth)
              == Then(ChainFate(before, Ip6, t, s, p, depth),
                      if p.iif == tap && p.oif == c.external then Accepts else Falls)
  {
    Names(c, vm);
    Supervisor.SupervisorNames(c);
    var t1, t2 := TableOf(k.rules, Ip, c.SupervisorNat()).value, TableOf(k.rules, Ip, c.SupervisorFilter()).value;
    SupervisorFate(c, k, vm, tap, Ip, t1, c.SupervisorNat(), c.VmNat(vm), Masquerade, p, depth);
    SupervisorFate(c, k, vm, tap, Ip, t2, c.SupervisorFilter(), c.VmFilter(vm), Accept, p, depth);
    if c.ipv6Enabled && TableOf(k.rules, Ip6, c.SupervisorFilter()).Some? {
      var t6 := TableOf(k.rules, Ip6, c.SupervisorFilter()).value;
      SupervisorFate(c, k, vm, tap, Ip6, t6, c.SupervisorFilter(), c.VmFilter(vm), Accept, p, depth);
    }
  }

  // ---- from one VM to the next ----

  lemma LandedHooks(k: Kernel, snapshot: Ruleset, wants: seq<Want>, f: Family, t: string, n: string)
    ensures IsBase(Land(k, snapshot, wants).rules, f, t, n) <==> IsBase(k.rules, f, t, n)
  {
    var end := Land(k, snapshot, wants).rules;
    LandAppends(k, snapshot, wants);
    forall e | e in end && e !in k.rules ensures !(e.Chain? && e.hook.Some?) {
      assert end == k.rules + end[|k.rules|..];
      var w, h :| w in wants && e == EntryFor(w, h);
    }
  }

  lemma WantIsTidy(c: Config, rs: Ruleset, vm: string, tap: string, w: Want, x: Expr)
    requires SetupWants(c, rs, vm, tap).Ok? && w in SetupWants(c, rs, vm, tap).value && !w.WantChain? && x in ExprFor(w)
    ensures !x.Goto? && (x.Jump? ==> x.target == c.VmNat(vm) || x.target == c.VmFilter(vm))
  {
    SetupWantShape(c, rs, vm, tap, w);
  }

  /** A rule passes control neither to a base chain nor, outside base chains, to a supervisor chain. */
  ghost predicate TidyRule(c: Config, rs: Ruleset, e: Entry)
    requires e.Rule?
  {
    forall x :: x in e.expr && (x.Jump? || x.Goto?) ==>
      && !IsBase(rs, e.family, e.table, x.target)
      && (c.IsSupervisor(x.target) ==> IsBase(rs, e.family, e.table, e.chain))
  }

  lemma NewRuleIsTidy(c: Config, k: Kernel, vm: string, tap: string, w: Want, h: nat)
    requires NoTrace(c, vm, k.rules)
    requires SetupWants(c, k.rules, vm, tap).Ok? && w in SetupWants(c, k.rules, vm, tap).value && !w.WantChain?
    ensures TidyRule(c, k.rules, EntryFor(w, h))
  {
    Names(c, vm);
    forall x | x in ExprFor(w) && (x.Jump? || x.Goto?)
      ensures !IsBase(k.rules, w.family, w.table, x.target) && !c.IsSupervisor(x.target)
    {
      WantIsTidy(c, k.rules, vm, tap, w, x);
      forall b | b in k.rules ensures !IsChain(b, w.family, w.table, x.target) { assert !TraceOf(c, vm, b); }
    }
  }

  /** What setup requires of the ruleset around the VM still holds for the next one. */
  lemma SetupKeepsTidy(c: Config, k: Kernel, vm: string, tap: string)
    requires WellFormed(k) && NoTrace(c, vm, k.rules) && Tidy(c, k.rules) && SetupWants(c, k.rules, vm, tap).Ok?
    ensures SetupVm(c, k, vm, tap, true).Ok? && Tidy(c, SetupVm(c, k, vm, tap, true).value.rules)
  {
    SetupIsAccepted(c, k, vm, tap);
    var wants := SetupWants(c, k.rules, vm, tap).value;
    var end := Land(k, k.rules, wants).rules;
    LandAppends(k, k.rules, wants);
    forall f, t, n ensures IsBase(end, f, t, n) <==> IsBase(k.rules, f, t, n) {
      LandedHooks(k, k.rules, wants, f, t, n);
    }
    forall e | e in end && e.Rule? ensures TidyRule(c, k.rules, e) {
      if e !in k.rules {
        assert end == k.rules + end[|k.rules|..];
        var w, h :| w in wants && e == EntryFor(w, h);
        NewRuleIsTidy(c, k, vm, tap, w, h);
      }
    }
  }

  // ---- initialisation ----

  lemma ConntrackFate(rs: Ruleset, f: Family, t: string, n: string, p: Packet, depth: nat)
    ensures RuleFate(rs, f, t, ExprFor(WantConntrack(f, t, n)), p, depth)
         == if p.state == "established" || p.state == "related" then Accepts else Falls
  {
    var x := ExprFor(WantConntrack(f, t, n));
    assert x[1..] == [Accept] && "in" != "==" by { assert "in"[0] != "=="[0]; }
    assert p.state in ["established", "related"] <==> p.state == "established" || p.state == "related";
  }

  /** The rule accepts packets of connections that are known, and does nothing else. */
  ghost predicate AcceptsReplies(e: Entry) {
    e.Rule? && forall rs, p, depth :: RuleFate(rs, e.family, e.table, e.expr, p, depth)
                                   == if p.state == "established" || p.state == "related" then Accepts else Falls
  }

  lemma ConntrackAcceptsReplies(f: Family, t: string, n: string, h: nat)
    ensures AcceptsReplies(EntryFor(WantConntrack(f, t, n), h))
  {
    forall rs, p, depth
      ensures RuleFate(rs, f, t, ExprFor(WantConntrack(f, t, n)), p, depth)
           == if p.state == "established" || p.state == "related" then Accepts else Falls
    {
      ConntrackFate(rs, f, t, n, p, depth);
    }
  }

  lemma LandedConntrack(k: Kernel, snapshot: Ruleset, wants: seq<Want>, f: Family, t: string, n: string)
    requires snapshot <= k.rules && WantConntrack(f, t, n) in wants
    requires forall w :: w in wants ==> w.WantChain? || w.WantJump? || w.WantConntrack?
    requires forall e :: e in k.rules && e.Rule? ==> !BelongsTo(e, f, t, n)
    ensures exists e :: e in Land(k, snapshot, wants).rules && BelongsTo(e, f, t, n) && AcceptsReplies(e)
  {
    var end := Land(k, snapshot, wants).rules;
    LandAppends(k, snapshot, wants);
    LandRecognises(k, snapshot, wants, WantConntrack(f, t, n));
    var e :| e in end && Recognises(e, WantConntrack(f, t, n));
    assert end == k.rules + end[|k.rules|..];
    var w, h :| w in wants && e == EntryFor(w, h);
    assert w == WantConntrack(f, t, n);
    ConntrackAcceptsReplies(f, t, n, h);
  }
}
