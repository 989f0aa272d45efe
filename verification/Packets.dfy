/** What a ruleset does to a packet, read from the expressions of its rules. */
module Packets {
  import opened Wrappers
  import opened Nft

  /** The parts of a packet that rules look at; state is that of its connection. */
  datatype Packet = Packet(iif: string, oif: string, state: string, protocol: string, dport: nat)

  /** What a rule or chain does: nothing, leave the chain after a goto, or a verdict. Undecided
      stands for a statement of unknown meaning. */
  datatype Fate =
    | Falls
    | Leaves
    | Accepts
    | Masquerades
    | Redirects(addr: nat, port: nat)
    | Undecided(text: string)

  function Read(p: Packet, o: Operand): Option<Value> {
    match o
    case Meta(key) =>
      if key == "iifname" then Some(Text(p.iif)) else if key == "oifname" then Some(Text(p.oif)) else None
    case Ct(key) => if key == "state" then Some(Text(p.state)) else None
    case Payload(protocol, field) =>
      if protocol == p.protocol && field == "dport" then Some(Number(p.dport)) else None
  }

  predicate Holds(p: Packet, op: string, left: Operand, right: Value) {
    match Read(p, left)
    case None => false
    case Some(value) =>
      if op == "==" then value == right
      else op == "in" && value.Text? && right.List? && value.text in right.items
  }

  /** The expressions of the rules of a chain, in order. */
  function ExprsOf(rs: Ruleset, f: Family, t: string, c: string): seq<seq<Expr>> {
    if rs == [] then [] else ExprIn(rs[0], f, t, c) + ExprsOf(rs[1..], f, t, c)
  }

  function ExprIn(e: Entry, f: Family, t: string, c: string): seq<seq<Expr>> {
    if e.Rule? && BelongsTo(e, f, t, c) then [e.expr] else []
  }

  /** A rule from its first expression on. Jumps are followed to a depth, past which they do
      nothing; the kernel's own limit is 16. */
  function RuleFate(rs: Ruleset, f: Family, t: string, expr: seq<Expr>, p: Packet, depth: nat): Fate
    decreases depth, 0, |expr|
  {
    if expr == [] then Falls
    else
      match expr[0]
      case Match(op, left, right) =>
        if Holds(p, op, left, right) then RuleFate(rs, f, t, expr[1..], p, depth) else Falls
      case Jump(target) =>
        var fate := if depth == 0 then Falls else ChainFate(rs, f, t, target, p, depth - 1);
        if fate.Falls? || fate.Leaves? then RuleFate(rs, f, t, expr[1..], p, depth) else fate
      case Goto(target) =>
        var fate := if depth == 0 then Falls else ChainFate(rs, f, t, target, p, depth - 1);
        if fate.Falls? then Leaves else fate
      case Dnat(addr, port) => Redirects(addr, port)
      case Accept => Accepts
      case Masquerade => Masquerades
      case Other(text) => Undecided(text)
  }

  /** The first rule that does something decides. */
  function RulesFate(rs: Ruleset, f: Family, t: string, rules: seq<seq<Expr>>, p: Packet, depth: nat): Fate
    decreases depth, 1, |rules|
  {
    if rules == [] then Falls
    else
      var fate := RuleFate(rs, f, t, rules[0], p, depth);
      if fate.Falls? then RulesFate(rs, f, t, rules[1..], p, depth) else fate
  }

  function ChainFate(rs: Ruleset, f: Family, t: string, c: string, p: Packet, depth: nat): Fate
    decreases depth, 2
  {
    RulesFate(rs, f, t, ExprsOf(rs, f, t, c), p, depth)
  }

  // ---- appending ----

  lemma {:induction false} ExprsAppend(a: Ruleset, b: Ruleset, f: Family, t: string, c: string)
    ensures ExprsOf(a + b, f, t, c) == ExprsOf(a, f, t, c) + ExprsOf(b, f, t, c)
  {
    if a == [] {
      assert a + b == b;
    } else {
      ExprsAppend(a[1..], b, f, t, c);
      assert (a + b)[0] == a[0] && (a + b)[1..] == a[1..] + b;
      Grouping(ExprIn(a[0], f, t, c), ExprsOf(a[1..], f, t, c), ExprsOf(b, f, t, c));
    }
  }

  lemma Grouping(a: seq<seq<Expr>>, b: seq<seq<Expr>>, c: seq<seq<Expr>>)
    ensures a + (b + c) == a + b + c
  {
  }

  lemma {:induction false} RulesAppend(rs: Ruleset, f: Family, t: string, a: seq<seq<Expr>>, b: seq<seq<Expr>>,
                                       p: Packet, depth: nat)
    ensures RulesFate(rs, f, t, a + b, p, depth)
         == var fate := RulesFate(rs, f, t, a, p, depth);
            if fate.Falls? then RulesFate(rs, f, t, b, p, depth) else fate
    decreases |a|
  {
    if a == [] {
      assert a + b == b;
    } else {
      RulesAppend(rs, f, t, a[1..], b, p, depth);
      assert (a + b)[0] == a[0] && (a + b)[1..] == a[1..] + b;
    }
  }

  lemma OneRuleFate(rs: Ruleset, f: Family, t: string, expr: seq<Expr>, p: Packet, depth: nat)
    ensures RulesFate(rs, f, t, [expr], p, depth) == RuleFate(rs, f, t, expr, p, depth)
  {
    assert [expr][1..] == [];
  }

  /** Every listed expression is that of a rule of the chain. */
  lemma {:induction false} ExprsAreRules(rs: Ruleset, f: Family, t: string, c: string, i: nat)
    requires i < |ExprsOf(rs, f, t, c)|
    ensures exists e :: e in rs && e.Rule? && BelongsTo(e, f, t, c) && e.expr == ExprsOf(rs, f, t, c)[i]
  {
    var rest := ExprsOf(rs[1..], f, t, c);
    if rs[0].Rule? && BelongsTo(rs[0], f, t, c) {
      if i > 0 {
        ExprsAreRules(rs[1..], f, t, c, i - 1);
        assert ExprsOf(rs, f, t, c)[i] == rest[i - 1];
      } else {
        assert rs[0] in rs;
      }
    } else {
      ExprsAreRules(rs[1..], f, t, c, i);
    }
  }

  lemma {:induction false} NoExprs(rs: Ruleset, f: Family, t: string, c: string)
    requires forall e :: e in rs && e.Rule? ==> !BelongsTo(e, f, t, c)
    ensures ExprsOf(rs, f, t, c) == []
  {
    if rs != [] {
      assert rs[0] in rs;
      NoExprs(rs[1..], f, t, c);
    }
  }

  // ---- where two rulesets agree ----

  /** Chains of the set have the same rules in both rulesets, and these lead only to chains of
      the set. */
  ghost predicate SameWithin(a: Ruleset, b: Ruleset, f: Family, t: string, chains: iset<string>) {
    forall c :: c in chains ==> ExprsOf(a, f, t, c) == ExprsOf(b, f, t, c) && LeadsWithin(ExprsOf(a, f, t, c), chains)
  }

  ghost predicate LeadsWithin(rules: seq<seq<Expr>>, chains: iset<string>) {
    forall i :: 0 <= i < |rules| ==> StaysWithin(rules[i], chains)
  }

  ghost predicate StaysWithin(expr: seq<Expr>, chains: iset<string>) {
    forall x :: x in expr && (x.Jump? || x.Goto?) ==> x.target in chains
  }

  lemma {:induction false} SameRuleFate(a: Ruleset, b: Ruleset, f: Family, t: string, chains: iset<string>,
                                        expr: seq<Expr>, p: Packet, depth: nat)
    requires SameWithin(a, b, f, t, chains) && StaysWithin(expr, chains)
    ensures RuleFate(a, f, t, expr, p, depth) == RuleFate(b, f, t, expr, p, depth)
    decreases depth, 0, |expr|
  {
    if expr != [] {
      assert expr[0] in expr;
      if (expr[0].Jump? || expr[0].Goto?) && depth > 0 {
        SameRulesFate(a, b, f, t, chains, ExprsOf(a, f, t, expr[0].target), p, depth - 1);
      }
      SameRuleFate(a, b, f, t, chains, expr[1..], p, depth);
    }
  }

  lemma {:induction false} SameRulesFate(a: Ruleset, b: Ruleset, f: Family, t: string, chains: iset<string>,
                                         rules: seq<seq<Expr>>, p: Packet, depth: nat)
    requires SameWithin(a, b, f, t, chains) && LeadsWithin(rules, chains)
    ensures RulesFate(a, f, t, rules, p, depth) == RulesFate(b, f, t, rules, p, depth)
    decreases depth, 1, |rules|
  {
    if rules != [] {
      SameRuleFate(a, b, f, t, chains, rules[0], p, depth);
      SameRulesFate(a, b, f, t, chains, rules[1..], p, depth);
    }
  }
}
