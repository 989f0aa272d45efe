/** The per-VM chains and rules: generators that write an item only when its recogniser does
    not find it, and teardown that finds everything again by shape. */
module Firewall {
  import opened Wrappers
  import opened Nft

  /** Naming and options of one manager. */
  datatype Config = Config(prefix: string, external: string, ipv6Enabled: bool) {
    function SupervisorNat(): string { prefix + "-supervisor-nat" }
    function SupervisorFilter(): string { prefix + "-supervisor-filter" }
    function SupervisorPrerouting(): string { prefix + "-supervisor-prerouting" }
    function VmNat(vm: string): string { prefix + "-vm-nat-" + vm }
    function VmFilter(vm: string): string { prefix + "-vm-filter-" + vm }

    predicate IsSupervisor(chain: string) {
      chain == SupervisorNat() || chain == SupervisorFilter() || chain == SupervisorPrerouting()
    }
  }

  datatype FirewallError = NoSupervisorNat | NoSupervisorFilter | NoSupervisorPrerouting | NoVmFilter | NftFailed

  // ---- items: what a generator wants present ----

  datatype Want =
    | WantChain(family: Family, table: string, chain: string)
    | WantJump(family: Family, table: string, chain: string, target: string)
    | WantConntrack(family: Family, table: string, chain: string)
    | WantMasquerade(family: Family, table: string, chain: string, iif: string, oif: string)
    | WantForward(family: Family, table: string, chain: string, iif: string, oif: string)

  function InterfaceMatches(iif: string, oif: string): seq<Expr> {
    [Match("==", Meta("iifname"), Text(iif)), Match("==", Meta("oifname"), Text(oif))]
  }

  function ExprFor(w: Want): seq<Expr>
    requires !w.WantChain?
  {
    match w
    case WantJump(_, _, _, target) => [Jump(target)]
    case WantConntrack(_, _, _) => [Match("in", Ct("state"), List(["established", "related"])), Accept]
    case WantMasquerade(_, _, _, iif, oif) => InterfaceMatches(iif, oif) + [Masquerade]
    case WantForward(_, _, _, iif, oif) => InterfaceMatches(iif, oif) + [Accept]
  }

  function CommandFor(w: Want): Command {
    if w.WantChain? then AddChain(w.family, w.table, w.chain, None)
    else AddRule(w.family, w.table, w.chain, ExprFor(w))
  }

  predicate MatchesMeta(x: Expr, key: string, name: string) {
    x.Match? && x.left == Meta(key) && x.right == Text(name)
  }

  predicate HasConntrackAccept(expr: seq<Expr>) {
    (exists x :: x in expr && x.Match? && x.left == Ct("state")) && Accept in expr
  }

  predicate HasInterfaceAccept(expr: seq<Expr>, iif: string, oif: string) {
    && (exists x :: x in expr && MatchesMeta(x, "iifname", iif))
    && (exists x :: x in expr && MatchesMeta(x, "oifname", oif))
    && Accept in expr
  }

  /** The recogniser of each generator. */
  predicate Recognises(e: Entry, w: Want) {
    if w.WantChain? then IsChain(e, w.family, w.table, w.chain)
    else
      e.Rule? && e.family == w.family && e.table == w.table && e.chain == w.chain
      && match w
         case WantJump(_, _, _, target) => Jump(target) in e.expr
         case WantConntrack(_, _, _) => HasConntrackAccept(e.expr)
         case WantMasquerade(_, _, _, _, _) => Masquerade in e.expr
         case WantForward(_, _, _, iif, oif) => HasInterfaceAccept(e.expr, iif, oif)
  }

  predicate Recognised(rs: Ruleset, w: Want) {
    exists e :: e in rs && Recognises(e, w)
  }

  function IfNotPresent(rs: Ruleset, w: Want): seq<Command> {
    if Recognised(rs, w) then [] else [CommandFor(w)]
  }

  /** The batch for a list of items, all looked up in the same snapshot. */
  function Missing(rs: Ruleset, wants: seq<Want>): seq<Command> {
    if wants == [] then [] else IfNotPresent(rs, wants[0]) + Missing(rs, wants[1..])
  }

  // ---- what the batch does ----

  function EntryFor(w: Want, handle: nat): Entry {
    if w.WantChain? then Chain(w.family, w.table, w.chain, None)
    else Rule(w.family, w.table, w.chain, handle, ExprFor(w))
  }

  /** Every recogniser accepts what its own generator wrote. */
  lemma GeneratorIsRecognised(w: Want, handle: nat)
    ensures Recognises(EntryFor(w, handle), w)
  {
    if !w.WantChain? {
      var x := ExprFor(w);
      assert x[0] in x && x[|x| - 1] in x;
      if w.WantForward? {
        assert x[1] in x && MatchesMeta(x[0], "iifname", w.iif) && MatchesMeta(x[1], "oifname", w.oif);
      }
    }
  }

  function LandOne(k: Kernel, snapshot: Ruleset, w: Want): Kernel {
    if Recognised(snapshot, w) then k
    else Kernel(k.rules + [EntryFor(w, k.next)], if w.WantChain? then k.next else k.next + 1)
  }

  /** The kernel after the batch: the unrecognised items, appended in order. */
  function Land(k: Kernel, snapshot: Ruleset, wants: seq<Want>): Kernel
    decreases |wants|
  {
    if wants == [] then k else Land(LandOne(k, snapshot, wants[0]), snapshot, wants[1..])
  }

  /** The kernel accepts the item's command. */
  predicate Ready(rs: Ruleset, w: Want) {
    match w
    case WantChain(f, t, n) => Table(f, t) in rs && !HasChain(rs, f, t, n)
    case WantJump(f, t, c, target) => HasChain(rs, f, t, c) && HasChain(rs, f, t, target)
    case _ => HasChain(rs, w.family, w.table, w.chain)
  }

  predicate AllReady(k: Kernel, snapshot: Ruleset, wants: seq<Want>)
    decreases |wants|
  {
    wants == []
    || ((Recognised(snapshot, wants[0]) || Ready(k.rules, wants[0]))
        && AllReady(LandOne(k, snapshot, wants[0]), snapshot, wants[1..]))
  }

  lemma {:induction false} MissingLands(k: Kernel, snapshot: Ruleset, wants: seq<Want>)
    requires AllReady(k, snapshot, wants)
    ensures Exec(k, Missing(snapshot, wants)) == Some(Land(k, snapshot, wants))
    decreases |wants|
  {
    if wants != [] {
      var w, rest := wants[0], wants[1..];
      var k' := LandOne(k, snapshot, w);
      MissingLands(k', snapshot, rest);
      if Recognised(snapshot, w) {
        assert Missing(snapshot, wants) == Missing(snapshot, rest);
      } else {
        ReadyLands(k, snapshot, w);
        ExecHead(k, CommandFor(w), Missing(snapshot, rest), k');
      }
    }
  }

  lemma ReadyLands(k: Kernel, snapshot: Ruleset, w: Want)
    requires !Recognised(snapshot, w) && Ready(k.rules, w)
    ensures Exec1(k, CommandFor(w)) == Some(LandOne(k, snapshot, w))
  {
    if !w.WantChain? {
      var x := ExprFor(w);
      assert forall y :: y in x && (y.Jump? || y.Goto?) ==> w.WantJump? && y == Jump(w.target);
    }
  }

  lemma {:induction false} LandConcat(k: Kernel, snapshot: Ruleset, a: seq<Want>, b: seq<Want>)
    ensures Land(k, snapshot, a + b) == Land(Land(k, snapshot, a), snapshot, b)
    ensures AllReady(k, snapshot, a + b) <==> AllReady(k, snapshot, a) && AllReady(Land(k, snapshot, a), snapshot, b)
    decreases |a|
  {
    if a == [] {
      assert a + b == b;
    } else {
      assert (a + b)[1..] == a[1..] + b && (a + b)[0] == a[0];
      LandConcat(LandOne(k, snapshot, a[0]), snapshot, a[1..], b);
    }
  }

  /** The batch only appends, and only items of the list. */
  lemma {:induction false} LandAppends(k: Kernel, snapshot: Ruleset, wants: seq<Want>)
    ensures k.rules <= Land(k, snapshot, wants).rules
    ensures forall e :: e in Land(k, snapshot, wants).rules[|k.rules|..]
              ==> exists w, h :: w in wants && e == EntryFor(w, h)
    decreases |wants|
  {
    if wants != [] {
      var k', end := LandOne(k, snapshot, wants[0]), Land(k, snapshot, wants);
      LandAppends(k', snapshot, wants[1..]);
      forall e | e in end.rules[|k.rules|..]
        ensures exists w, h :: w in wants && e == EntryFor(w, h)
      {
        if e in end.rules[|k'.rules|..] {
          var w, h :| w in wants[1..] && e == EntryFor(w, h);
          assert w in wants;
        } else {
          assert e == EntryFor(wants[0], k.next);
        }
      }
    }
  }

  lemma RecognisedIn(rs: Ruleset, more: Ruleset, w: Want)
    requires Recognised(rs, w) && rs <= more
    ensures Recognised(more, w)
  {
    var e :| e in rs && Recognises(e, w);
    assert e in more;
  }

  /** After the batch every item of the list is recognised. */
  lemma {:induction false} LandRecognises(k: Kernel, snapshot: Ruleset, wants: seq<Want>, w: Want)
    requires snapshot <= k.rules && w in wants
    ensures Recognised(Land(k, snapshot, wants).rules, w)
    decreases |wants|
  {
    var k', end := LandOne(k, snapshot, wants[0]), Land(k, snapshot, wants);
    LandAppends(k', snapshot, wants[1..]);
    if w == wants[0] {
      if Recognised(snapshot, w) {
        RecognisedIn(snapshot, k'.rules, w);
      } else {
        GeneratorIsRecognised(w, k.next);
        assert EntryFor(w, k.next) in k'.rules;
      }
      RecognisedIn(k'.rules, end.rules, w);
    } else {
      LandRecognises(k', snapshot, wants[1..], w);
    }
  }

  lemma {:induction false} NothingMissing(rs: Ruleset, wants: seq<Want>)
    requires forall w :: w in wants ==> Recognised(rs, w)
    ensures Missing(rs, wants) == []
  {
    if wants != [] {
      NothingMissing(rs, wants[1..]);
    }
  }

  // ---- per-VM setup and teardown ----

  /** The table of the first chain with this family and name. */
  function TableOf(rs: Ruleset, f: Family, name: string): Option<string> {
    if rs == [] then None
    else if rs[0].Chain? && rs[0].family == f && rs[0].name == name then Some(rs[0].table)
    else TableOf(rs[1..], f, name)
  }

  lemma {:induction false} TableOfAppend(a: Ruleset, b: Ruleset, f: Family, name: string)
    ensures TableOf(a + b, f, name) == if TableOf(a, f, name).Some? then TableOf(a, f, name) else TableOf(b, f, name)
  {
    if a == [] {
      assert a + b == b;
    } else {
      TableOfAppend(a[1..], b, f, name);
      assert (a + b)[1..] == a[1..] + b && (a + b)[0] == a[0];
    }
  }

  lemma {:induction false} TableOfMeans(rs: Ruleset, f: Family, name: string)
    ensures TableOf(rs, f, name).Some? ==> HasChain(rs, f, TableOf(rs, f, name).value, name)
    ensures TableOf(rs, f, name).None? ==> forall e :: e in rs ==> !(e.Chain? && e.family == f && e.name == name)
  {
    if rs != [] {
      TableOfMeans(rs[1..], f, name);
      assert rs[0] in rs;
      if TableOf(rs, f, name).Some? && TableOf(rs, f, name) == TableOf(rs[1..], f, name)
         && !(rs[0].Chain? && rs[0].family == f && rs[0].name == name) {
        HasChainIn(rs[1..], rs, f, TableOf(rs, f, name).value, name);
      }
    }
  }

  /** A VM chain, the jump from its supervisor chain, and its own rule. */
  function Block(supervisor: string, rule: Want): seq<Want>
    requires !rule.WantChain?
  {
    [WantChain(rule.family, rule.table, rule.chain), WantJump(rule.family, rule.table, supervisor, rule.chain), rule]
  }

  function SetupWants(c: Config, rs: Ruleset, vm: string, tap: string): Result<seq<Want>, FirewallError> {
    match TableOf(rs, Ip, c.SupervisorNat())
    case None => Err(NoSupervisorNat)
    case Some(natTable) =>
      match TableOf(rs, Ip, c.SupervisorFilter())
      case None => Err(NoSupervisorFilter)
      case Some(filterTable) =>
        var v4 := Block(c.SupervisorNat(), WantMasquerade(Ip, natTable, c.VmNat(vm), tap, c.external))
                  + Block(c.SupervisorFilter(), WantForward(Ip, filterTable, c.VmFilter(vm), tap, c.external));
        if c.ipv6Enabled && TableOf(rs, Ip6, c.SupervisorFilter()).Some? then
          var filter6 := TableOf(rs, Ip6, c.SupervisorFilter()).value;
          Ok(v4 + Block(c.SupervisorFilter(), WantForward(Ip6, filter6, c.VmFilter(vm), tap, c.external)))
        else Ok(v4)
  }

  /** An entry of this VM: one of its chains, a rule in them, or a jump to them. */
  predicate TraceOf(c: Config, vm: string, e: Entry) {
    Trace(e, c.VmNat(vm)) || Trace(e, c.VmFilter(vm))
  }

  function TraceOfTest(c: Config, vm: string): Entry -> bool { e => TraceOf(c, vm, e) }

  ghost predicate NoTrace(c: Config, vm: string, rs: Ruleset) {
    forall e :: e in rs ==> !TraceOf(c, vm, e)
  }

  lemma Names(c: Config, vm: string)
    ensures c.VmNat(vm) != c.VmFilter(vm)
    ensures c.SupervisorNat() != c.VmNat(vm) && c.SupervisorNat() != c.VmFilter(vm)
    ensures c.SupervisorFilter() != c.VmNat(vm) && c.SupervisorFilter() != c.VmFilter(vm)
    ensures c.SupervisorPrerouting() != c.VmNat(vm) && c.SupervisorPrerouting() != c.VmFilter(vm)
  {
    var n := |c.prefix|;
    assert c.VmNat(vm)[n + 1] == 'v' && c.VmFilter(vm)[n + 1] == 'v';
    assert c.VmNat(vm)[n + 4] == 'n' && c.VmFilter(vm)[n + 4] == 'f';
    assert c.SupervisorNat()[n + 1] == 's' && c.SupervisorFilter()[n + 1] == 's';
    assert c.SupervisorPrerouting()[n + 1] == 's';
  }

  /** Chain names of different VMs never coincide. */
  lemma VmNamesInjective(c: Config, vm: string, other: string)
    requires vm != other
    ensures c.VmNat(vm) != c.VmNat(other) && c.VmFilter(vm) != c.VmFilter(other)
    ensures c.VmNat(vm) != c.VmFilter(other) && c.VmFilter(vm) != c.VmNat(other)
  {
    var p, q := c.prefix + "-vm-nat-", c.prefix + "-vm-filter-";
    assert c.VmNat(vm)[|p|..] == vm && c.VmNat(other)[|p|..] == other;
    assert c.VmFilter(vm)[|q|..] == vm && c.VmFilter(other)[|q|..] == other;
    var n := |c.prefix|;
    assert c.VmNat(vm)[n + 4] == 'n' && c.VmFilter(vm)[n + 4] == 'f';
    assert c.VmNat(other)[n + 4] == 'n' && c.VmFilter(other)[n + 4] == 'f';
  }

  /** Everything setup writes is a trace of its VM. */
  lemma SetupWritesTraces(c: Config, rs: Ruleset, vm: string, tap: string, w: Want, h: nat)
    requires SetupWants(c, rs, vm, tap).Ok? && w in SetupWants(c, rs, vm, tap).value
    ensures TraceOf(c, vm, EntryFor(w, h))
    ensures w.WantChain? ==> w.chain == c.VmNat(vm) || w.chain == c.VmFilter(vm)
  {
  }

  /** One block is accepted, whatever parts of it are already there. */
  lemma BlockReady(k: Kernel, snapshot: Ruleset, supervisor: string, rule: Want)
    requires !rule.WantChain? && !rule.WantJump? && snapshot <= k.rules
    requires Table(rule.family, rule.table) in k.rules
    requires HasChain(k.rules, rule.family, rule.table, supervisor)
    requires HasChain(k.rules, rule.family, rule.table, rule.chain)
             ==> HasChain(snapshot, rule.family, rule.table, rule.chain)
    ensures AllReady(k, snapshot, Block(supervisor, rule))
  {
    var b := Block(supervisor, rule);
    var f, t := rule.family, rule.table;
    var k1 := LandOne(k, snapshot, b[0]);
    var k2 := LandOne(k1, snapshot, b[1]);
    assert HasChain(snapshot, f, t, rule.chain) <==> Recognised(snapshot, b[0]);
    if Recognised(snapshot, b[0]) {
      HasChainIn(snapshot, k1.rules, f, t, rule.chain);
    } else {
      assert EntryFor(b[0], k.next) in k1.rules && IsChain(EntryFor(b[0], k.next), f, t, rule.chain);
    }
    HasChainIn(k.rules, k1.rules, f, t, supervisor);
    HasChainIn(k1.rules, k2.rules, f, t, rule.chain);
    assert Ready(k1.rules, b[1]) && Ready(k2.rules, b[2]);
    assert b[1..] == [b[1], b[2]] && b[1..][1..] == [b[2]] && [b[2]][1..] == [];
    assert AllReady(k2, snapshot, [b[2]]);
    assert AllReady(k1, snapshot, b[1..]);
  }
}
