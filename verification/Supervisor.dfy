/** Creation of the supervisor chains at start-up. */
module Supervisor {
  import opened Wrappers
  import opened Nft
  import opened Firewall
  import opened VmChains

  datatype Hook = Postrouting | Prerouting | Forward

  function HookText(h: Hook): string {
    match h
    case Postrouting => "postrouting"
    case Prerouting => "prerouting"
    case Forward => "forward"
  }

  /** Name of the base chain created for a hook: the hook in capitals. */
  function HookName(h: Hook): string {
    match h
    case Postrouting => "POSTROUTING"
    case Prerouting => "PREROUTING"
    case Forward => "FORWARD"
  }

  function DefaultTable(h: Hook): string {
    if h == Forward then "filter" else "nat"
  }

  predicate OnHook(e: Entry, f: Family, h: Hook) {
    e.Chain? && e.family == f && e.hook == Some(HookText(h))
  }

  /** Table of the first base chain on the hook. */
  function HookTable(rs: Ruleset, f: Family, h: Hook): Option<string> {
    if rs == [] then None
    else if OnHook(rs[0], f, h) then Some(rs[0].table)
    else HookTable(rs[1..], f, h)
  }

  /** Name of the first base chain on the hook in the table, or the default name. */
  function BaseChain(rs: Ruleset, f: Family, t: string, h: Hook): string {
    if rs == [] then HookName(h)
    else if OnHook(rs[0], f, h) && rs[0].table == t then rs[0].name
    else BaseChain(rs[1..], f, t, h)
  }

  /** The table for a hook, looked up in a snapshot, with the base chain created when missing. */
  function FindOrCreate(snapshot: Ruleset, k: Kernel, f: Family, h: Hook): Option<(string, Kernel)> {
    match HookTable(snapshot, f, h)
    case Some(t) => Some((t, k))
    case None =>
      match Exec(k, [AddTable(f, DefaultTable(h)), AddChain(f, DefaultTable(h), HookName(h), Some(HookText(h)))])
      case None => None
      case Some(k') => Some((DefaultTable(h), k'))
  }

  function WantsV4(c: Config, rs: Ruleset, natTable: string, filterTable: string, preTable: string): seq<Want> {
    [WantChain(Ip, natTable, c.SupervisorNat()),
     WantJump(Ip, natTable, BaseChain(rs, Ip, natTable, Postrouting), c.SupervisorNat())]
    + Block(BaseChain(rs, Ip, filterTable, Forward), WantConntrack(Ip, filterTable, c.SupervisorFilter()))
    + [WantChain(Ip, preTable, c.SupervisorPrerouting()),
       WantJump(Ip, preTable, BaseChain(rs, Ip, preTable, Prerouting), c.SupervisorPrerouting())]
  }

  function WantsV6(c: Config, rs: Ruleset, filterTable: string): seq<Want> {
    Block(BaseChain(rs, Ip6, filterTable, Forward), WantConntrack(Ip6, filterTable, c.SupervisorFilter()))
  }

  /** The batch that initialisation would execute, and the kernel it would execute it on. */
  datatype Plan = Plan(k: Kernel, v4: seq<Want>, snapshot4: Ruleset, v6: seq<Want>) {
    function Commands(): seq<Command> { Missing(snapshot4, v4) + Missing(k.rules, v6) }
  }

  function Prepare(c: Config, k: Kernel): Option<Plan> {
    match FindOrCreate(k.rules, k, Ip, Postrouting)
    case None => None
    case Some((natTable, k1)) =>
      match FindOrCreate(k.rules, k1, Ip, Forward)
      case None => None
      case Some((filterTable, k2)) =>
        match FindOrCreate(k.rules, k2, Ip, Prerouting)
        case None => None
        case Some((preTable, k3)) =>
          var v4 := WantsV4(c, k3.rules, natTable, filterTable, preTable);
          if !c.ipv6Enabled then Some(Plan(k3, v4, k3.rules, []))
          else
            match FindOrCreate(k3.rules, k3, Ip6, Forward)
            case None => None
            case Some((filter6, k4)) => Some(Plan(k4, v4, k3.rules, WantsV6(c, k4.rules, filter6)))
  }

  function Initialize(c: Config, k: Kernel): Option<Kernel> {
    match Prepare(c, k)
    case None => None
    case Some(p) => Exec(p.k, p.Commands())
  }

  // ---- with nft coming and going ----

  /** Whether nft can be run for each listing, each base chain and the final batch. */
  datatype InitRuns = InitRuns(
    list: bool, postrouting: bool, forward: bool, prerouting: bool, relist: bool,
    list6: bool, forward6: bool, relist6: bool, batch: bool)

  /** nft is only needed when the hook has no base chain yet. */
  function TryHook(snapshot: Ruleset, k: Kernel, f: Family, h: Hook, up: bool): Option<(string, Kernel)> {
    if up || HookTable(snapshot, f, h).Some? then FindOrCreate(snapshot, k, f, h) else None
  }

  function Executed(k: Kernel, cs: seq<Command>, up: bool): (Kernel, bool) {
    if cs == [] then (k, true)
    else if up && Exec(k, cs).Some? then (Exec(k, cs).value, true)
    else (k, false)
  }

  /** initialize, with the kernel each way out leaves behind: base chains are created one call at
      a time and stay, everything else is one batch. */
  function InitializeWith(c: Config, k: Kernel, runs: InitRuns): (Kernel, bool) {
    if !runs.list then (k, false)
    else
      match TryHook(k.rules, k, Ip, Postrouting, runs.postrouting)
      case None => (k, false)
      case Some((natTable, k1)) =>
        match TryHook(k.rules, k1, Ip, Forward, runs.forward)
        case None => (k1, false)
        case Some((filterTable, k2)) =>
          match TryHook(k.rules, k2, Ip, Prerouting, runs.prerouting)
          case None => (k2, false)
          case Some((preTable, k3)) => InitializeRest(c, k3, natTable, filterTable, preTable, runs)
  }

  /** From the second listing on. */
  function InitializeRest(c: Config, k3: Kernel, natTable: string, filterTable: string, preTable: string,
                          runs: InitRuns)
    : (Kernel, bool)
  {
    var v4 := Missing(k3.rules, WantsV4(c, k3.rules, natTable, filterTable, preTable));
    if !runs.relist then (k3, false)
    else if !c.ipv6Enabled then Executed(k3, v4, runs.batch)
    else if !runs.list6 then (k3, false)
    else
      match TryHook(k3.rules, k3, Ip6, Forward, runs.forward6)
      case None => (k3, false)
      case Some((filter6, k4)) =>
        if !runs.relist6 then (k4, false)
          else Executed(k4, v4 + Missing(k4.rules, WantsV6(c, k4.rules, filter6)), runs.batch)
  }

  lemma RestFinishes(c: Config, k3: Kernel, natTable: string, filterTable: string, preTable: string, runs: InitRuns)
    requires InitializeRest(c, k3, natTable, filterTable, preTable, runs).1
    ensures var v4 := WantsV4(c, k3.rules, natTable, filterTable, preTable);
            var k' := InitializeRest(c, k3, natTable, filterTable, preTable, runs).0;
            if !c.ipv6Enabled then Exec(k3, Plan(k3, v4, k3.rules, []).Commands()) == Some(k')
            else
              && FindOrCreate(k3.rules, k3, Ip6, Forward).Some?
              && var (filter6, k4) := FindOrCreate(k3.rules, k3, Ip6, Forward).value;
                 Exec(k4, Plan(k4, v4, k3.rules, WantsV6(c, k4.rules, filter6)).Commands()) == Some(k')
  {
    var v4 := Missing(k3.rules, WantsV4(c, k3.rules, natTable, filterTable, preTable));
    assert v4 + [] == v4;
  }

  /** Success means the whole of it was done, whichever calls could have failed. */
  lemma SuccessIsComplete(c: Config, k: Kernel, runs: InitRuns)
    requires InitializeWith(c, k, runs).1
    ensures Initialize(c, k) == Some(InitializeWith(c, k, runs).0)
  {
    var (natTable, k1) := FindOrCreate(k.rules, k, Ip, Postrouting).value;
    var (filterTable, k2) := FindOrCreate(k.rules, k1, Ip, Forward).value;
    var (preTable, k3) := FindOrCreate(k.rules, k2, Ip, Prerouting).value;
    RestFinishes(c, k3, natTable, filterTable, preTable, runs);
  }

  // ---- lookups under appending ----

  lemma {:induction false} HookTableAppend(a: Ruleset, b: Ruleset, f: Family, h: Hook)
    ensures HookTable(a + b, f, h) == if HookTable(a, f, h).Some? then HookTable(a, f, h) else HookTable(b, f, h)
  {
    if a == [] {
      assert a + b == b;
    } else {
      HookTableAppend(a[1..], b, f, h);
      assert (a + b)[1..] == a[1..] + b && (a + b)[0] == a[0];
    }
  }

  lemma {:induction false} NoHookTable(rs: Ruleset, f: Family, h: Hook)
    ensures HookTable(rs, f, h) == None <==> forall e :: e in rs ==> !OnHook(e, f, h)
  {
    if rs != [] {
      NoHookTable(rs[1..], f, h);
      assert rs[0] in rs;
    }
  }

  /** A hook that is found stays where it is, and so does its base chain. */
  lemma {:induction false} BaseChainAppend(a: Ruleset, b: Ruleset, f: Family, t: string, h: Hook)
    requires exists e :: e in a && OnHook(e, f, h) && e.table == t
    ensures BaseChain(a + b, f, t, h) == BaseChain(a, f, t, h) && HasChain(a, f, t, BaseChain(a, f, t, h))
  {
    assert (a + b)[1..] == a[1..] + b && (a + b)[0] == a[0];
    if OnHook(a[0], f, h) && a[0].table == t {
      assert IsChain(a[0], f, t, a[0].name);
    } else {
      BaseChainAppend(a[1..], b, f, t, h);
      HasChainIn(a[1..], a, f, t, BaseChain(a[1..], f, t, h));
    }
  }

  lemma {:induction false} HookTableWitness(rs: Ruleset, f: Family, h: Hook)
    requires HookTable(rs, f, h).Some?
    ensures exists e :: e in rs && OnHook(e, f, h) && e.table == HookTable(rs, f, h).value
  {
    if !OnHook(rs[0], f, h) {
      HookTableWitness(rs[1..], f, h);
    }
  }

  /** What is known of one hook once its table has been found or created. */
  ghost predicate Hooked(k: Kernel, f: Family, h: Hook, t: string) {
    && HookTable(k.rules, f, h) == Some(t)
    && Table(f, t) in k.rules
    && HasChain(k.rules, f, t, BaseChain(k.rules, f, t, h))
  }

  lemma HookedFrom(k: Kernel, f: Family, h: Hook)
    requires WellFormed(k) && HookTable(k.rules, f, h).Some?
    ensures Hooked(k, f, h, HookTable(k.rules, f, h).value)
  {
    HookTableWitness(k.rules, f, h);
    BaseChainAppend(k.rules, [], f, HookTable(k.rules, f, h).value, h);
    var e :| e in k.rules && OnHook(e, f, h) && e.table == HookTable(k.rules, f, h).value;
    assert HousedEntry(k, e);
  }

  /** Appending entries moves neither the hook's table nor its base chain. */
  lemma HookedStays(k: Kernel, k': Kernel, f: Family, h: Hook, t: string)
    requires Hooked(k, f, h, t) && k.rules <= k'.rules
    ensures Hooked(k', f, h, t) && BaseChain(k'.rules, f, t, h) == BaseChain(k.rules, f, t, h)
  {
    var more := k'.rules[|k.rules|..];
    assert k'.rules == k.rules + more;
    HookTableAppend(k.rules, more, f, h);
    HookTableWitness(k.rules, f, h);
    BaseChainAppend(k.rules, more, f, t, h);
    HasChainIn(k.rules, k'.rules, f, t, BaseChain(k.rules, f, t, h));
  }

  lemma TextsDiffer()
    ensures HookText(Postrouting) != HookText(Prerouting) && HookText(Postrouting) != HookText(Forward)
    ensures HookText(Prerouting) != HookText(Forward)
  {
    assert HookText(Postrouting)[1] == 'o' && HookText(Prerouting)[1] == 'r' && HookText(Forward)[0] == 'f';
    assert HookText(Prerouting)[0] == 'p' && HookText(Postrouting)[0] == 'p';
  }

  /** Creating a base chain appends it, after its table when that is new too. */
  lemma CreateAppends(k: Kernel, f: Family, h: Hook)
    requires HookTable(k.rules, f, h).None? && FindOrCreate(k.rules, k, f, h).Some?
    ensures var chain := Chain(f, DefaultTable(h), HookName(h), Some(HookText(h)));
            var rs := FindOrCreate(k.rules, k, f, h).value.1.rules;
            rs == k.rules + [chain] || rs == k.rules + [Table(f, DefaultTable(h)), chain]
  {
    var t := DefaultTable(h);
    var chain := Chain(f, t, HookName(h), Some(HookText(h)));
    ExecPair(k, AddTable(f, t), AddChain(f, t, HookName(h), Some(HookText(h))));
    NoHookTable(k.rules, f, h);
    assert OnHook(chain, f, h);
    assert k.rules + [Table(f, t)] + [chain] == k.rules + [Table(f, t), chain];
  }

  /** An appended base chain puts its own hook in place and no other. */
  lemma AppendedHook(rs: Ruleset, more: Ruleset, chain: Entry, f: Family, h: Hook)
    requires chain == Chain(f, DefaultTable(h), HookName(h), Some(HookText(h)))
    requires more == [chain] || more == [Table(f, DefaultTable(h)), chain]
    requires HookTable(rs, f, h).None?
    ensures HookTable(rs + more, f, h) == Some(DefaultTable(h))
    ensures forall g, i :: (g, i) != (f, h) ==> HookTable(rs + more, g, i) == HookTable(rs, g, i)
    ensures forall g, s, n :: g != f && HasChain(rs + more, g, s, n) ==> HasChain(rs, g, s, n)
  {
    TextsDiffer();
    forall g, i
      ensures HookTable(rs + more, g, i) == if (g, i) == (f, h) then Some(DefaultTable(h)) else HookTable(rs, g, i)
    {
      HookTableAppend(rs, more, g, i);
      assert [Table(f, DefaultTable(h)), chain][1..] == [chain];
      assert HookTable([chain], g, i) == if (g, i) == (f, h) then Some(DefaultTable(h)) else None;
    }
  }

  /** After the lookup the hook is in place; hooks other than this one are as before. */
  lemma FindOrCreateHooks(snapshot: Ruleset, k: Kernel, f: Family, h: Hook)
    requires WellFormed(k) && snapshot <= k.rules
    requires HookTable(snapshot, f, h) == HookTable(k.rules, f, h)
    requires FindOrCreate(snapshot, k, f, h).Some?
    ensures var (t, k') := FindOrCreate(snapshot, k, f, h).value;
            && WellFormed(k') && k.rules <= k'.rules && Hooked(k', f, h, t)
            && (forall g, i :: (g, i) != (f, h) ==> HookTable(k'.rules, g, i) == HookTable(k.rules, g, i))
            && (forall g, s, n :: g != f && HasChain(k'.rules, g, s, n) ==> HasChain(k.rules, g, s, n))
  {
    var (t, k') := FindOrCreate(snapshot, k, f, h).value;
    if HookTable(snapshot, f, h).None? {
      var chain := Chain(f, t, HookName(h), Some(HookText(h)));
      CreateAppends(k, f, h);
      ExecWellFormed(k, [AddTable(f, t), AddChain(f, t, HookName(h), Some(HookText(h)))]);
      AppendedHook(k.rules, if k'.rules == k.rules + [chain] then [chain] else [Table(f, t), chain], chain, f, h);
    }
    HookedFrom(k', f, h);
  }

  // ---- the batch ----

  lemma SupervisorNames(c: Config)
    ensures c.SupervisorNat() != c.SupervisorFilter() && c.SupervisorNat() != c.SupervisorPrerouting()
    ensures c.SupervisorFilter() != c.SupervisorPrerouting()
  {
    var n := |c.prefix| + 12;
    assert c.SupervisorNat()[n] == 'n' && c.SupervisorFilter()[n] == 'f' && c.SupervisorPrerouting()[n] == 'p';
  }

  /** The chain-and-jump part of a block. */
  lemma AppendPair(k: Kernel, snapshot: Ruleset, wants: seq<Want>, base: string, f: Family, t: string, chain: string)
    requires snapshot <= k.rules && AllReady(k, snapshot, wants)
    requires Table(f, t) in k.rules && HasChain(k.rules, f, t, base)
    requires HasChain(k.rules, f, t, chain) ==> HasChain(snapshot, f, t, chain)
    requires WantChain(f, t, chain) !in wants
    ensures AllReady(k, snapshot, wants + [WantChain(f, t, chain), WantJump(f, t, base, chain)])
  {
    var rule := WantConntrack(f, t, chain);
    var pair := [WantChain(f, t, chain), WantJump(f, t, base, chain)];
    AppendBlock(k, snapshot, wants, base, rule);
    assert wants + Block(base, rule) == (wants + pair) + [rule];
    LandConcat(k, snapshot, wants + pair, [rule]);
  }

  ghost predicate AllHooked(k: Kernel, natTable: string, filterTable: string, preTable: string) {
    Hooked(k, Ip, Postrouting, natTable) && Hooked(k, Ip, Forward, filterTable) && Hooked(k, Ip, Prerouting, preTable)
  }

  /** The nat and filter parts of the ip items. */
  function FirstItems(c: Config, rs: Ruleset, natTable: string, filterTable: string): seq<Want> {
    [WantChain(Ip, natTable, c.SupervisorNat()),
     WantJump(Ip, natTable, BaseChain(rs, Ip, natTable, Postrouting), c.SupervisorNat())]
    + Block(BaseChain(rs, Ip, filterTable, Forward), WantConntrack(Ip, filterTable, c.SupervisorFilter()))
  }

  lemma FirstItemsReady(c: Config, k3: Kernel, k: Kernel, natTable: string, filterTable: string)
    requires k3.rules <= k.rules && Hooked(k3, Ip, Postrouting, natTable) && Hooked(k3, Ip, Forward, filterTable)
    requires forall s, n :: HasChain(k.rules, Ip, s, n) ==> HasChain(k3.rules, Ip, s, n)
    ensures AllReady(k, k3.rules, FirstItems(c, k3.rules, natTable, filterTable))
  {
    SupervisorNames(c);
    HookedStays(k3, k, Ip, Postrouting, natTable);
    HookedStays(k3, k, Ip, Forward, filterTable);
    var base1 := BaseChain(k3.rules, Ip, natTable, Postrouting);
    var w1 := [WantChain(Ip, natTable, c.SupervisorNat()), WantJump(Ip, natTable, base1, c.SupervisorNat())];
    AppendPair(k, k3.rules, [], base1, Ip, natTable, c.SupervisorNat());
    assert [] + w1 == w1;
    AppendBlock(k, k3.rules, w1, BaseChain(k3.rules, Ip, filterTable, Forward),
                WantConntrack(Ip, filterTable, c.SupervisorFilter()));
  }

  lemma V4Ready(c: Config, k3: Kernel, k: Kernel, natTable: string, filterTable: string, preTable: string)
    requires k3.rules <= k.rules && AllHooked(k3, natTable, filterTable, preTable)
    requires forall s, n :: HasChain(k.rules, Ip, s, n) ==> HasChain(k3.rules, Ip, s, n)
    ensures AllReady(k, k3.rules, WantsV4(c, k3.rules, natTable, filterTable, preTable))
  {
    FirstItemsReady(c, k3, k, natTable, filterTable);
    SupervisorNames(c);
    HookedStays(k3, k, Ip, Prerouting, preTable);
    AppendPair(k, k3.rules, FirstItems(c, k3.rules, natTable, filterTable),
               BaseChain(k3.rules, Ip, preTable, Prerouting),
               Ip, preTable, c.SupervisorPrerouting());
  }

  /** The three IPv4 hooks, found or created one after the other from one snapshot. */
  lemma V4Hooks(c: Config, k: Kernel)
    requires WellFormed(k) && Prepare(c, k).Some?
    ensures var (natTable, k1) := FindOrCreate(k.rules, k, Ip, Postrouting).value;
            var (filterTable, k2) := FindOrCreate(k.rules, k1, Ip, Forward).value;
            var (preTable, k3) := FindOrCreate(k.rules, k2, Ip, Prerouting).value;
            && WellFormed(k3) && k.rules <= k3.rules && AllHooked(k3, natTable, filterTable, preTable)
  {
    FindOrCreateHooks(k.rules, k, Ip, Postrouting);
    var (natTable, k1) := FindOrCreate(k.rules, k, Ip, Postrouting).value;
    FindOrCreateHooks(k.rules, k1, Ip, Forward);
    var (filterTable, k2) := FindOrCreate(k.rules, k1, Ip, Forward).value;
    FindOrCreateHooks(k.rules, k2, Ip, Prerouting);
    var (preTable, k3) := FindOrCreate(k.rules, k2, Ip, Prerouting).value;
    HookedStays(k1, k3, Ip, Postrouting, natTable);
    HookedStays(k2, k3, Ip, Forward, filterTable);
  }

  function Finish(p: Plan): Kernel {
    Land(Land(p.k, p.snapshot4, p.v4), p.k.rules, p.v6)
  }

  lemma BatchLands(p: Plan)
    requires AllReady(p.k, p.snapshot4, p.v4) && AllReady(Land(p.k, p.snapshot4, p.v4), p.k.rules, p.v6)
    ensures Exec(p.k, p.Commands()) == Some(Finish(p))
  {
    MissingLands(p.k, p.snapshot4, p.v4);
    MissingLands(Land(p.k, p.snapshot4, p.v4), p.k.rules, p.v6);
    ExecConcat(p.k, Missing(p.snapshot4, p.v4), Missing(p.k.rules, p.v6));
  }

  lemma WantsV4AreIp(c: Config, rs: Ruleset, natTable: string, filterTable: string, preTable: string)
    ensures forall w :: w in WantsV4(c, rs, natTable, filterTable, preTable) ==> w.family == Ip
  {
  }

  lemma V6PlanReady(c: Config, k3: Kernel, natTable: string, filterTable: string, preTable: string)
    requires WellFormed(k3) && AllHooked(k3, natTable, filterTable, preTable)
             && FindOrCreate(k3.rules, k3, Ip6, Forward).Some?
    ensures var (filter6, k4) := FindOrCreate(k3.rules, k3, Ip6, Forward).value;
            var v4 := WantsV4(c, k3.rules, natTable, filterTable, preTable);
            && k3.rules <= k4.rules && WellFormed(k4) && AllReady(k4, k3.rules, v4)
            && AllReady(Land(k4, k3.rules, v4), k4.rules, WantsV6(c, k4.rules, filter6))
  {
    FindOrCreateHooks(k3.rules, k3, Ip6, Forward);
    var (filter6, k4) := FindOrCreate(k3.rules, k3, Ip6, Forward).value;
    var v4 := WantsV4(c, k3.rules, natTable, filterTable, preTable);
    V4Ready(c, k3, k4, natTable, filterTable, preTable);
    WantsV4AreIp(c, k3.rules, natTable, filterTable, preTable);
    V6Ready(c, k4, Land(k4, k3.rules, v4), v4, k3.rules, filter6);
  }

  lemma PlanIsReady(c: Config, k: Kernel)
    requires WellFormed(k) && Prepare(c, k).Some?
    ensures var p := Prepare(c, k).value;
            && k.rules <= p.k.rules && p.snapshot4 <= p.k.rules && WellFormed(p.k)
            && AllReady(p.k, p.snapshot4, p.v4)
            && AllReady(Land(p.k, p.snapshot4, p.v4), p.k.rules, p.v6)
  {
    var p := Prepare(c, k).value;
    var (natTable, k1) := FindOrCreate(k.rules, k, Ip, Postrouting).value;
    var (filterTable, k2) := FindOrCreate(k.rules, k1, Ip, Forward).value;
    var (preTable, k3) := FindOrCreate(k.rules, k2, Ip, Prerouting).value;
    V4Hooks(c, k);
    if c.ipv6Enabled {
      V6PlanReady(c, k3, natTable, filterTable, preTable);
    } else {
      V4Ready(c, k3, k3, natTable, filterTable, preTable);
    }
  }

  /** The whole batch is accepted once the base chains are there. */
  lemma PlanIsAccepted(c: Config, k: Kernel)
    requires WellFormed(k) && Prepare(c, k).Some?
    ensures var p := Prepare(c, k).value;
            && k.rules <= p.k.rules && p.snapshot4 <= p.k.rules && WellFormed(p.k)
            && Exec(p.k, p.Commands()) == Some(Finish(p))
  {
    PlanIsReady(c, k);
    BatchLands(Prepare(c, k).value);
  }

  lemma V6Ready(c: Config, k4: Kernel, mid: Kernel, v4: seq<Want>, snapshot4: Ruleset, filter6: string)
    requires Hooked(k4, Ip6, Forward, filter6) && mid == Land(k4, snapshot4, v4)
    requires forall w :: w in v4 ==> w.family == Ip
    ensures AllReady(mid, k4.rules, WantsV6(c, k4.rules, filter6))
  {
    LandAppends(k4, snapshot4, v4);
    HookedStays(k4, mid, Ip6, Forward, filter6);
    if HasChain(mid.rules, Ip6, filter6, c.SupervisorFilter()) {
      LandedChain(k4, snapshot4, v4, Ip6, filter6, c.SupervisorFilter());
    }
    AppendBlock(mid, k4.rules, [], BaseChain(k4.rules, Ip6, filter6, Forward),
                WantConntrack(Ip6, filter6, c.SupervisorFilter()));
    assert [] + WantsV6(c, k4.rules, filter6) == WantsV6(c, k4.rules, filter6);
  }

  // ---- idempotence ----

  lemma FinishAppends(p: Plan)
    requires p.snapshot4 <= p.k.rules
    ensures p.k.rules <= Finish(p).rules
    ensures forall w :: w in p.v4 || w in p.v6 ==> Recognised(Finish(p).rules, w)
  {
    var mid := Land(p.k, p.snapshot4, p.v4);
    LandAppends(p.k, p.snapshot4, p.v4);
    LandAppends(mid, p.k.rules, p.v6);
    forall w | w in p.v4
      ensures Recognised(Finish(p).rules, w)
    {
      LandRecognises(p.k, p.snapshot4, p.v4, w);
      RecognisedIn(mid.rules, Finish(p).rules, w);
    }
    forall w | w in p.v6
      ensures Recognised(Finish(p).rules, w)
    {
      LandRecognises(mid, p.k.rules, p.v6, w);
    }
  }

  lemma V4Unmoved(c: Config, k3: Kernel, k': Kernel, natTable: string, filterTable: string, preTable: string)
    requires AllHooked(k3, natTable, filterTable, preTable) && k3.rules <= k'.rules
    ensures AllHooked(k', natTable, filterTable, preTable)
    ensures WantsV4(c, k'.rules, natTable, filterTable, preTable)
            == WantsV4(c, k3.rules, natTable, filterTable, preTable)
  {
    HookedStays(k3, k', Ip, Postrouting, natTable);
    HookedStays(k3, k', Ip, Forward, filterTable);
    HookedStays(k3, k', Ip, Prerouting, preTable);
  }

  /** Preparing again finds every base chain and plans the same items on the new kernel. */
  lemma PrepareAgain(c: Config, k: Kernel, k': Kernel)
    requires WellFormed(k) && Prepare(c, k).Some? && Prepare(c, k).value.k.rules <= k'.rules
    ensures var p := Prepare(c, k).value;
            Prepare(c, k') == Some(Plan(k', p.v4, k'.rules, p.v6))
  {
    var (natTable, k1) := FindOrCreate(k.rules, k, Ip, Postrouting).value;
    var (filterTable, k2) := FindOrCreate(k.rules, k1, Ip, Forward).value;
    var (preTable, k3) := FindOrCreate(k.rules, k2, Ip, Prerouting).value;
    V4Hooks(c, k);
    if c.ipv6Enabled {
      FindOrCreateHooks(k3.rules, k3, Ip6, Forward);
      var (filter6, k4) := FindOrCreate(k3.rules, k3, Ip6, Forward).value;
      HookedStays(k4, k', Ip6, Forward, filter6);
    }
    V4Unmoved(c, k3, k', natTable, filterTable, preTable);
  }

  /** Initialising an initialised kernel emits no command and changes nothing. */
  lemma InitializeIsIdempotent(c: Config, k: Kernel)
    requires WellFormed(k) && Initialize(c, k).Some?
    ensures var k' := Initialize(c, k).value;
            && Prepare(c, k').Some? && Prepare(c, k').value.Commands() == []
            && Initialize(c, k') == Some(k')
  {
    var p := Prepare(c, k).value;
    PlanIsAccepted(c, k);
    FinishAppends(p);
    PrepareAgain(c, k, Finish(p));
    NothingMissing(Finish(p).rules, p.v4);
    NothingMissing(Finish(p).rules, p.v6);
  }

  /** After initialisation every later setup finds the supervisor chains, and the kernel is
      well formed. */
  lemma InitializeEnablesSetup(c: Config, k: Kernel, vm: string, tap: string)
    requires WellFormed(k) && Initialize(c, k).Some?
    ensures var k' := Initialize(c, k).value;
            && k.rules <= k'.rules && WellFormed(k')
            && TableOf(k'.rules, Ip, c.SupervisorPrerouting()).Some?
            && SetupWants(c, k'.rules, vm, tap).Ok?
  {
    var p := Prepare(c, k).value;
    PlanIsAccepted(c, k);
    ExecWellFormed(p.k, p.Commands());
    FinishAppends(p);
    var end := Finish(p).rules;
    WantedChainFound(end, p.v4, 0, c.SupervisorNat());
    WantedChainFound(end, p.v4, 2, c.SupervisorFilter());
    WantedChainFound(end, p.v4, 5, c.SupervisorPrerouting());
  }

  lemma WantedChainFound(rs: Ruleset, wants: seq<Want>, i: nat, name: string)
    requires i < |wants| && wants[i].WantChain? && wants[i].family == Ip && wants[i].chain == name
    requires forall w :: w in wants ==> Recognised(rs, w)
    ensures TableOf(rs, Ip, name).Some?
  {
    assert Recognised(rs, wants[i]);
    TableOfMeans(rs, Ip, name);
  }

  /** Packets on the hook are handed to the chain: a base chain on the hook jumps to it. */
  predicate HandedTo(rs: Ruleset, f: Family, h: Hook, chain: string) {
    exists b, r :: b in rs && OnHook(b, f, h) && r in rs && HandsOver(b, r, chain) && HasChain(rs, f, b.table, chain)
  }

  predicate HandsOver(b: Entry, r: Entry, chain: string) {
    b.Chain? && r.Rule? && BelongsTo(r, b.family, b.table, b.name) && Jump(chain) in r.expr
  }

  lemma {:induction false} BaseChainIs(rs: Ruleset, f: Family, t: string, h: Hook)
    requires exists e :: e in rs && OnHook(e, f, h) && e.table == t
    ensures exists e :: e in rs && OnHook(e, f, h) && IsChain(e, f, t, BaseChain(rs, f, t, h))
  {
    if !(OnHook(rs[0], f, h) && rs[0].table == t) {
      BaseChainIs(rs[1..], f, t, h);
    } else {
      assert rs[0] in rs;
    }
  }

  lemma HandedByJump(k: Kernel, end: Ruleset, f: Family, h: Hook, t: string, chain: string)
    requires Hooked(k, f, h, t) && k.rules <= end
    requires Recognised(end, WantChain(f, t, chain))
    requires Recognised(end, WantJump(f, t, BaseChain(k.rules, f, t, h), chain))
    ensures HandedTo(end, f, h, chain)
  {
    HookTableWitness(k.rules, f, h);
    BaseChainIs(k.rules, f, t, h);
    var b :| b in k.rules && OnHook(b, f, h) && IsChain(b, f, t, BaseChain(k.rules, f, t, h));
    var r :| r in end && Recognises(r, WantJump(f, t, BaseChain(k.rules, f, t, h), chain));
    var e :| e in end && Recognises(e, WantChain(f, t, chain));
    assert b in end && HandsOver(b, r, chain);
  }

  /** After initialisation forwarded packets reach the supervisor filter chain, in ip6 too when
      that is on, outgoing ones the nat chain and incoming ones the prerouting chain. */
  lemma InitializeHandsOver(c: Config, k: Kernel)
    requires WellFormed(k) && Initialize(c, k).Some?
    ensures var end := Initialize(c, k).value.rules;
            && HandedTo(end, Ip, Postrouting, c.SupervisorNat())
            && HandedTo(end, Ip, Forward, c.SupervisorFilter())
            && HandedTo(end, Ip, Prerouting, c.SupervisorPrerouting())
            && (c.ipv6Enabled ==> HandedTo(end, Ip6, Forward, c.SupervisorFilter()))
  {
    var p := Prepare(c, k).value;
    PlanIsAccepted(c, k);
    FinishAppends(p);
    var (natTable, k1) := FindOrCreate(k.rules, k, Ip, Postrouting).value;
    var (filterTable, k2) := FindOrCreate(k.rules, k1, Ip, Forward).value;
    var (preTable, k3) := FindOrCreate(k.rules, k2, Ip, Prerouting).value;
    V4Hooks(c, k);
    if c.ipv6Enabled { V6HandsOver(c, p, k3); }
    V4HandsOver(c, p, k3, natTable, filterTable, preTable);
  }

  lemma V6HandsOver(c: Config, p: Plan, k3: Kernel)
    requires WellFormed(k3) && FindOrCreate(k3.rules, k3, Ip6, Forward).Some?
    requires var (filter6, k4) := FindOrCreate(k3.rules, k3, Ip6, Forward).value;
             p.k == k4 && p.v6 == WantsV6(c, k4.rules, filter6) && p.k.rules <= Finish(p).rules
    requires forall w :: w in p.v6 ==> Recognised(Finish(p).rules, w)
    ensures HandedTo(Finish(p).rules, Ip6, Forward, c.SupervisorFilter())
  {
    FindOrCreateHooks(k3.rules, k3, Ip6, Forward);
    var (filter6, k4) := FindOrCreate(k3.rules, k3, Ip6, Forward).value;
    assert p.v6[0] in p.v6 && p.v6[1] in p.v6;
    HandedByJump(k4, Finish(p).rules, Ip6, Forward, filter6, c.SupervisorFilter());
  }

  lemma V4HandsOver(c: Config, p: Plan, k3: Kernel, natTable: string, filterTable: string, preTable: string)
    requires AllHooked(k3, natTable, filterTable, preTable) && k3.rules <= Finish(p).rules
    requires p.v4 == WantsV4(c, k3.rules, natTable, filterTable, preTable)
    requires forall w :: w in p.v4 ==> Recognised(Finish(p).rules, w)
    ensures HandedTo(Finish(p).rules, Ip, Postrouting, c.SupervisorNat())
    ensures HandedTo(Finish(p).rules, Ip, Forward, c.SupervisorFilter())
    ensures HandedTo(Finish(p).rules, Ip, Prerouting, c.SupervisorPrerouting())
  {
    var v4 := p.v4;
    assert v4[0] in v4 && v4[1] in v4 && v4[2] in v4 && v4[3] in v4 && v4[5] in v4 && v4[6] in v4;
    HandedByJump(k3, Finish(p).rules, Ip, Postrouting, natTable, c.SupervisorNat());
    HandedByJump(k3, Finish(p).rules, Ip, Forward, filterTable, c.SupervisorFilter());
    HandedByJump(k3, Finish(p).rules, Ip, Prerouting, preTable, c.SupervisorPrerouting());
  }

  // ---- interrupted initialisation ----

  lemma HookAppends(k0: Kernel, snapshot: Ruleset, k: Kernel, f: Family, h: Hook)
    requires WellFormed(k) && k0.rules <= k.rules && FindOrCreate(snapshot, k, f, h).Some?
    ensures WellFormed(FindOrCreate(snapshot, k, f, h).value.1)
    ensures k0.rules <= FindOrCreate(snapshot, k, f, h).value.1.rules
  {
    if HookTable(snapshot, f, h).None? {
      var t := DefaultTable(h);
      var cs := [AddTable(f, t), AddChain(f, t, HookName(h), Some(HookText(h)))];
      ExecWellFormed(k, cs);
      ExecPair(k, cs[0], cs[1]);
    }
  }

  /** Commands that add only append. */
  lemma {:induction false} AddsOnlyAppend(k: Kernel, cs: seq<Command>)
    requires Exec(k, cs).Some? && forall x :: x in cs ==> x.AddTable? || x.AddChain? || x.AddRule?
    ensures k.rules <= Exec(k, cs).value.rules
    decreases |cs|
  {
    if cs != [] {
      assert cs[0] in cs;
      AddsOnlyAppend(Exec1(k, cs[0]).value, cs[1..]);
    }
  }

  lemma {:induction false} MissingAdds(rs: Ruleset, wants: seq<Want>)
    ensures forall x :: x in Missing(rs, wants) ==> x.AddChain? || x.AddRule?
  {
    if wants != [] { MissingAdds(rs, wants[1..]); }
  }

  lemma ExecutedAppends(k: Kernel, cs: seq<Command>, up: bool)
    requires WellFormed(k) && forall x :: x in cs ==> x.AddTable? || x.AddChain? || x.AddRule?
    ensures WellFormed(Executed(k, cs, up).0) && k.rules <= Executed(k, cs, up).0.rules
  {
    if Exec(k, cs).Some? {
      ExecWellFormed(k, cs);
      AddsOnlyAppend(k, cs);
    }
  }

  lemma RestAppends(c: Config, k0: Kernel, k3: Kernel, natTable: string, filterTable: string, preTable: string,
                    runs: InitRuns)
    requires WellFormed(k3) && k0.rules <= k3.rules
    ensures var k' := InitializeRest(c, k3, natTable, filterTable, preTable, runs).0;
            WellFormed(k') && k0.rules <= k'.rules
  {
    var wants4 := WantsV4(c, k3.rules, natTable, filterTable, preTable);
    MissingAdds(k3.rules, wants4);
    if !c.ipv6Enabled {
      ExecutedAppends(k3, Missing(k3.rules, wants4), runs.batch);
    } else if TryHook(k3.rules, k3, Ip6, Forward, runs.forward6).Some? {
      HookAppends(k0, k3.rules, k3, Ip6, Forward);
      var (filter6, k4) := FindOrCreate(k3.rules, k3, Ip6, Forward).value;
      MissingAdds(k4.rules, WantsV6(c, k4.rules, filter6));
      ExecutedAppends(k4, Missing(k3.rules, wants4) + Missing(k4.rules, WantsV6(c, k4.rules, filter6)), runs.batch);
    }
  }

  /** Wherever initialisation stops, it has only appended, and the kernel is well formed: it can
      be run again. */
  lemma InterruptedOnlyAppends(c: Config, k: Kernel, runs: InitRuns)
    requires WellFormed(k)
    ensures var k' := InitializeWith(c, k, runs).0;
            WellFormed(k') && k.rules <= k'.rules
  {
    if TryHook(k.rules, k, Ip, Postrouting, runs.postrouting).Some? {
      HookAppends(k, k.rules, k, Ip, Postrouting);
      var (natTable, k1) := FindOrCreate(k.rules, k, Ip, Postrouting).value;
      if TryHook(k.rules, k1, Ip, Forward, runs.forward).Some? {
        HookAppends(k, k.rules, k1, Ip, Forward);
        var (filterTable, k2) := FindOrCreate(k.rules, k1, Ip, Forward).value;
        if TryHook(k.rules, k2, Ip, Prerouting, runs.prerouting).Some? {
          HookAppends(k, k.rules, k2, Ip, Prerouting);
          var (preTable, k3) := FindOrCreate(k.rules, k2, Ip, Prerouting).value;
          RestAppends(c, k, k3, natTable, filterTable, preTable, runs);
        }
      }
    }
  }
}
