/** The kernel's packet-filter ruleset and the command batches that change it.
    The kernel is modelled by these rules: a batch is atomic; a new rule goes to the end of
    its chain under a fresh handle; adding a chain that is there already changes nothing;
    deleting a chain drops its own rules and is refused while a rule of another chain
    jumps or goes to it. */
module Nft {
  import opened Wrappers

  datatype Family = Ip | Ip6

  datatype Operand = Ct(key: string) | Meta(key: string) | Payload(protocol: string, field: string)

  datatype Value = Text(text: string) | Number(number: nat) | List(items: seq<string>)

  datatype Expr =
    | Match(op: string, left: Operand, right: Value)
    | Jump(target: string)
    | Goto(target: string)
    | Dnat(addr: nat, port: nat)
    | Accept
    | Masquerade
    | Other(text: string)

  datatype Entry =
    | Table(family: Family, table: string)
    | Chain(family: Family, table: string, name: string, hook: Option<string>)
    | Rule(family: Family, table: string, chain: string, handle: nat, expr: seq<Expr>)

  type Ruleset = seq<Entry>

  datatype Kernel = Kernel(rules: Ruleset, next: nat)

  datatype Command =
    | AddTable(family: Family, table: string)
    | AddChain(family: Family, table: string, name: string, hook: Option<string>)
    | AddRule(family: Family, table: string, chain: string, expr: seq<Expr>)
    | DeleteRule(family: Family, table: string, chain: string, handle: nat)
    | DeleteChain(family: Family, table: string, name: string)

  // ---- reading a ruleset ----

  predicate IsChain(e: Entry, f: Family, t: string, n: string) {
    e.Chain? && e.family == f && e.table == t && e.name == n
  }

  predicate HasChain(rs: Ruleset, f: Family, t: string, n: string) {
    exists e :: e in rs && IsChain(e, f, t, n)
  }

  predicate IsRule(e: Entry, f: Family, t: string, c: string, h: nat) {
    e.Rule? && e.family == f && e.table == t && e.chain == c && e.handle == h
  }

  predicate HasRule(rs: Ruleset, f: Family, t: string, c: string, h: nat) {
    exists e :: e in rs && IsRule(e, f, t, c, h)
  }

  /** A rule of another chain of the same table that transfers control to the chain. */
  predicate Refers(e: Entry, f: Family, t: string, n: string) {
    e.Rule? && e.family == f && e.table == t && e.chain != n && (Jump(n) in e.expr || Goto(n) in e.expr)
  }

  predicate InUse(rs: Ruleset, f: Family, t: string, n: string) {
    exists e :: e in rs && Refers(e, f, t, n)
  }

  predicate BelongsTo(e: Entry, f: Family, t: string, n: string) {
    IsChain(e, f, t, n) || (e.Rule? && e.family == f && e.table == t && e.chain == n)
  }

  predicate TargetsExist(rs: Ruleset, f: Family, t: string, expr: seq<Expr>) {
    forall x :: x in expr && (x.Jump? || x.Goto?) ==> HasChain(rs, f, t, x.target)
  }

  /** The entries that are not dropped, in order. */
  function Without(rs: Ruleset, drop: Entry -> bool): Ruleset {
    if rs == [] then []
    else if drop(rs[0]) then Without(rs[1..], drop)
    else [rs[0]] + Without(rs[1..], drop)
  }

  function RuleAt(f: Family, t: string, c: string, h: nat): Entry -> bool {
    e => IsRule(e, f, t, c, h)
  }

  function LodgedAt(f: Family, t: string, n: string): Entry -> bool {
    e => BelongsTo(e, f, t, n)
  }

  // ---- executing commands ----

  function Exec1(k: Kernel, c: Command): Option<Kernel> {
    var rs := k.rules;
    match c
    case AddTable(f, t) =>
      Some(if Table(f, t) in rs then k else k.(rules := rs + [Table(f, t)]))
    case AddChain(f, t, n, hook) =>
      if HasChain(rs, f, t, n) then
        if hook == None || Chain(f, t, n, hook) in rs then Some(k) else None
      else if Table(f, t) in rs then Some(k.(rules := rs + [Chain(f, t, n, hook)]))
      else None
    case AddRule(f, t, chain, expr) =>
      if HasChain(rs, f, t, chain) && TargetsExist(rs, f, t, expr)
      then Some(Kernel(rs + [Rule(f, t, chain, k.next, expr)], k.next + 1))
      else None
    case DeleteRule(f, t, chain, h) =>
      if HasRule(rs, f, t, chain, h) then Some(k.(rules := Without(rs, RuleAt(f, t, chain, h))))
      else None
    case DeleteChain(f, t, n) =>
      if HasChain(rs, f, t, n) && !InUse(rs, f, t, n)
      then Some(k.(rules := Without(rs, LodgedAt(f, t, n))))
      else None
  }

  /** A batch: all of it or none of it. */
  function Exec(k: Kernel, cs: seq<Command>): Option<Kernel>
    decreases |cs|
  {
    if cs == [] then Some(k)
    else
      match Exec1(k, cs[0])
      case None => None
      case Some(k') => Exec(k', cs[1..])
  }

  // ---- well-formed kernels ----

  predicate SameHandle(a: Entry, b: Entry) {
    a.Rule? && b.Rule? && a.family == b.family && a.table == b.table && a.handle == b.handle
  }

  predicate SameChain(a: Entry, b: Entry) {
    a.Chain? && b.Chain? && a.family == b.family && a.table == b.table && a.name == b.name
  }

  /** No two rules of a table share a handle and no two chains of a table share a name. */
  ghost predicate Distinct(rs: Ruleset) {
    forall i, j :: 0 <= i < j < |rs| ==> !SameHandle(rs[i], rs[j]) && !SameChain(rs[i], rs[j])
  }

  /** Rules live in chains and lead to chains, chains live in tables, and every handle is
      below the next fresh one. */
  predicate HousedEntry(k: Kernel, e: Entry) {
    match e
    case Table(_, _) => true
    case Chain(f, t, _, _) => Table(f, t) in k.rules
    case Rule(f, t, c, h, expr) => HasChain(k.rules, f, t, c) && h < k.next && TargetsExist(k.rules, f, t, expr)
  }

  ghost predicate WellFormed(k: Kernel) {
    Distinct(k.rules) && forall e :: e in k.rules ==> HousedEntry(k, e)
  }

  // ---- lists ----

  lemma {:induction false} ExecConcat(k: Kernel, a: seq<Command>, b: seq<Command>)
    decreases |a|
    ensures Exec(k, a + b) == (match Exec(k, a) case None => None case Some(k') => Exec(k', b))
  {
    if a == [] {
      assert a + b == b;
    } else {
      assert (a + b)[1..] == a[1..] + b;
      if Exec1(k, a[0]).Some? {
        ExecConcat(Exec1(k, a[0]).value, a[1..], b);
      }
    }
  }

  lemma {:induction false} InWithout(rs: Ruleset, drop: Entry -> bool, e: Entry)
    ensures e in Without(rs, drop) <==> e in rs && !drop(e)
  {
    if rs != [] {
      InWithout(rs[1..], drop, e);
    }
  }

  lemma {:induction false} WithoutConcat(a: Ruleset, b: Ruleset, drop: Entry -> bool)
    ensures Without(a + b, drop) == Without(a, drop) + Without(b, drop)
  {
    if a == [] {
      assert a + b == b;
    } else {
      WithoutConcat(a[1..], b, drop);
      assert (a + b)[1..] == a[1..] + b && (a + b)[0] == a[0];
      if !drop(a[0]) {
        assert [a[0]] + (Without(a[1..], drop) + Without(b, drop)) == Without(a, drop) + Without(b, drop);
      }
    }
  }

  lemma {:induction false} WithoutNone(rs: Ruleset, drop: Entry -> bool)
    requires forall e :: e in rs ==> !drop(e)
    ensures Without(rs, drop) == rs
  {
    if rs != [] {
      WithoutNone(rs[1..], drop);
    }
  }

  lemma {:induction false} WithoutTwice(rs: Ruleset, p: Entry -> bool, q: Entry -> bool, both: Entry -> bool)
    requires forall e :: e in rs ==> (both(e) <==> p(e) || q(e))
    ensures Without(Without(rs, p), q) == Without(rs, both)
  {
    if rs != [] {
      WithoutTwice(rs[1..], p, q, both);
      if !p(rs[0]) {
        assert Without(rs, p)[1..] == Without(rs[1..], p);
      }
    }
  }

  lemma DistinctSplit(a: Ruleset, e: Entry, b: Ruleset)
    requires Distinct(a + [e] + b)
    ensures Distinct(a + b)
    ensures forall x :: x in a + b ==> !SameHandle(x, e) && !SameChain(x, e)
  {
    var rs := a + [e] + b;
    assert rs[|a|] == e;
    forall i, j | 0 <= i < j < |a + b|
      ensures !SameHandle((a + b)[i], (a + b)[j]) && !SameChain((a + b)[i], (a + b)[j])
    {
      SplitIndex(a, e, b, i);
      SplitIndex(a, e, b, j);
    }
    forall x | x in a + b
      ensures !SameHandle(x, e) && !SameChain(x, e)
    {
      var i :| 0 <= i < |a + b| && (a + b)[i] == x;
      SplitIndex(a, e, b, i);
    }
  }

  /** Where an entry stands when one is put in before it or not. */
  lemma SplitIndex(a: Ruleset, e: Entry, b: Ruleset, i: int)
    requires 0 <= i < |a + b|
    ensures (a + [e] + b)[if i < |a| then i else i + 1] == (a + b)[i]
  {
  }

  lemma DistinctAppend(rs: Ruleset, e: Entry)
    requires Distinct(rs) && forall x :: x in rs ==> !SameHandle(x, e) && !SameChain(x, e)
    ensures Distinct(rs + [e])
  {
  }

  lemma {:induction false} DistinctWithout(rs: Ruleset, drop: Entry -> bool)
    requires Distinct(rs)
    ensures Distinct(Without(rs, drop))
  {
    if rs != [] {
      DistinctWithout(rs[1..], drop);
      if !drop(rs[0]) {
        var w := Without(rs[1..], drop);
        forall k | 0 <= k < |w|
          ensures !SameHandle(rs[0], w[k]) && !SameChain(rs[0], w[k])
        {
          InWithout(rs[1..], drop, w[k]);
        }
      }
    }
  }

  // ---- deleting rules by handle ----

  /** Delete commands for the rules a test selects, in ruleset order. */
  function RuleDeletes(rs: Ruleset, select: Entry -> bool): seq<Command> {
    if rs == [] then []
    else if rs[0].Rule? && select(rs[0]) then
      [DeleteRule(rs[0].family, rs[0].table, rs[0].chain, rs[0].handle)] + RuleDeletes(rs[1..], select)
    else RuleDeletes(rs[1..], select)
  }

  lemma DeleteOne(kept: Ruleset, e: Entry, rest: Ruleset, next: nat)
    requires e.Rule? && forall x :: x in kept + rest ==> !SameHandle(x, e)
    ensures Exec1(Kernel(kept + [e] + rest, next), DeleteRule(e.family, e.table, e.chain, e.handle))
            == Some(Kernel(kept + rest, next))
  {
    var rs := kept + [e] + rest;
    var drop := RuleAt(e.family, e.table, e.chain, e.handle);
    assert e in rs && drop(e);
    assert HasRule(rs, e.family, e.table, e.chain, e.handle);
    forall x | x in kept + rest ensures !drop(x) {}
    WithoutOne(kept, e, rest, drop);
  }

  lemma WithoutOne(kept: Ruleset, e: Entry, rest: Ruleset, drop: Entry -> bool)
    requires drop(e) && forall x :: x in kept + rest ==> !drop(x)
    ensures Without(kept + [e] + rest, drop) == kept + rest
  {
    forall x | x in kept ensures !drop(x) { assert x in kept + rest; }
    forall x | x in rest ensures !drop(x) { assert x in kept + rest; }
    WithoutNone(kept, drop);
    WithoutNone(rest, drop);
    assert kept + [e] + rest == kept + ([e] + rest);
    WithoutConcat(kept, [e] + rest, drop);
    assert ([e] + rest)[1..] == rest;
  }

  lemma ExecHead(k: Kernel, c: Command, cs: seq<Command>, k': Kernel)
    requires Exec1(k, c) == Some(k')
    ensures Exec(k, [c] + cs) == Exec(k', cs)
  {
    assert ([c] + cs)[1..] == cs;
  }

  lemma ExecPair(k: Kernel, a: Command, b: Command)
    ensures Exec(k, [a, b]) == (match Exec1(k, a) case None => None case Some(k1) => Exec1(k1, b))
  {
    assert [a] + [b] == [a, b] && [b] + [] == [b];
    if Exec1(k, a).Some? {
      var k1 := Exec1(k, a).value;
      ExecHead(k, a, [b], k1);
      if Exec1(k1, b).Some? {
        ExecHead(k1, b, [], Exec1(k1, b).value);
      }
    }
  }

  lemma DistinctTail(kept: Ruleset, rs: Ruleset)
    requires rs != [] && Distinct(kept + rs)
    ensures Distinct(kept + rs[1..])
  {
    assert kept + rs == kept + [rs[0]] + rs[1..];
    DistinctSplit(kept, rs[0], rs[1..]);
  }

  lemma SelectedHead(kept: Ruleset, rs: Ruleset, next: nat, select: Entry -> bool)
    requires rs != [] && rs[0].Rule? && select(rs[0]) && Distinct(kept + rs)
    ensures Exec(Kernel(kept + rs, next), RuleDeletes(rs, select))
            == Exec(Kernel(kept + rs[1..], next), RuleDeletes(rs[1..], select))
  {
    var e := rs[0];
    assert kept + rs == kept + [e] + rs[1..];
    DistinctSplit(kept, e, rs[1..]);
    DeleteOne(kept, e, rs[1..], next);
    ExecHead(Kernel(kept + rs, next), DeleteRule(e.family, e.table, e.chain, e.handle),
             RuleDeletes(rs[1..], select), Kernel(kept + rs[1..], next));
  }

  lemma MoveOver(kept: Ruleset, e: Entry, rs: Ruleset, rest: Ruleset)
    requires rs == [e] + rest
    ensures kept + rs == kept + [e] + rest
  {
  }

  /** Deleting by handle removes exactly the selected rules and is always accepted. */
  lemma {:induction false} RuleDeletesWork(kept: Ruleset, rs: Ruleset, next: nat, select: Entry -> bool)
    requires Distinct(kept + rs)
    requires forall e :: select(e) ==> e.Rule?
    ensures Exec(Kernel(kept + rs, next), RuleDeletes(rs, select)) == Some(Kernel(kept + Without(rs, select), next))
    decreases |rs|
  {
    if rs != [] {
      if select(rs[0]) {
        SelectedHead(kept, rs, next, select);
        DistinctTail(kept, rs);
        RuleDeletesWork(kept, rs[1..], next, select);
      } else {
        MoveOver(kept, rs[0], rs, rs[1..]);
        RuleDeletesWork(kept + [rs[0]], rs[1..], next, select);
        MoveOver(kept, rs[0], Without(rs, select), Without(rs[1..], select));
      }
    }
  }

  // ---- removing a chain everywhere ----

  predicate JumpsTo(e: Entry, name: string) {
    e.Rule? && Jump(name) in e.expr
  }

  /** (family, table) of every chain with this name, in ruleset order. */
  function Homes(rs: Ruleset, name: string): seq<(Family, string)> {
    if rs == [] then []
    else if rs[0].Chain? && rs[0].name == name then [(rs[0].family, rs[0].table)] + Homes(rs[1..], name)
    else Homes(rs[1..], name)
  }

  function ChainDeletes(homes: seq<(Family, string)>, name: string): seq<Command> {
    if homes == [] then [] else [DeleteChain(homes[0].0, homes[0].1, name)] + ChainDeletes(homes[1..], name)
  }

  /** The batch that removes a chain: first every jump to it, then the chain itself. */
  function RemoveEverywhere(rs: Ruleset, name: string): seq<Command> {
    RuleDeletes(rs, JumpTest(name)) + ChainDeletes(Homes(rs, name), name)
  }

  /** What a chain leaves in a ruleset: itself, its rules, and the jumps to it. */
  predicate Trace(e: Entry, name: string) {
    (e.Chain? && e.name == name) || (e.Rule? && (e.chain == name || Jump(name) in e.expr))
  }

  function JumpTest(name: string): Entry -> bool { e => JumpsTo(e, name) }

  function TraceTest(name: string): Entry -> bool { e => Trace(e, name) }

  /** A goto to the chain from elsewhere, which no generator writes and no recogniser sees. */
  predicate ForeignGoto(rs: Ruleset, name: string) {
    exists e :: e in rs && e.Rule? && Goto(name) in e.expr && !(Jump(name) in e.expr)
                && e.chain != name && HasChain(rs, e.family, e.table, name)
  }

  predicate Lodged(e: Entry, homes: seq<(Family, string)>, name: string) {
    (e.Chain? && e.name == name && (e.family, e.table) in homes)
    || (e.Rule? && e.chain == name && (e.family, e.table) in homes)
  }

  lemma {:induction false} InHomes(rs: Ruleset, name: string, h: (Family, string))
    ensures h in Homes(rs, name) <==> HasChain(rs, h.0, h.1, name)
  {
    if rs != [] {
      InHomes(rs[1..], name, h);
      if HasChain(rs, h.0, h.1, name) {
        var e :| e in rs && IsChain(e, h.0, h.1, name);
        assert e == rs[0] || e in rs[1..];
      }
      if HasChain(rs[1..], h.0, h.1, name) {
        var e :| e in rs[1..] && IsChain(e, h.0, h.1, name);
        assert e in rs;
      }
      assert rs[0] in rs;
    }
  }

  predicate NoRepeats(s: seq<(Family, string)>) {
    s == [] || (s[0] !in s[1..] && NoRepeats(s[1..]))
  }

  lemma {:induction false} HomesDistinct(rs: Ruleset, name: string)
    requires Distinct(rs)
    ensures NoRepeats(Homes(rs, name))
  {
    if rs != [] {
      HomesDistinct(rs[1..], name);
      if rs[0].Chain? && rs[0].name == name {
        InHomes(rs[1..], name, (rs[0].family, rs[0].table));
        assert forall e :: e in rs[1..] ==> !SameChain(rs[0], e);
        assert !HasChain(rs[1..], rs[0].family, rs[0].table, name);
        assert Homes(rs, name)[1..] == Homes(rs[1..], name);
      }
    }
  }

  /** Deleting one chain leaves chains of other tables present and no more in use. */
  lemma OtherHomesStay(rs: Ruleset, f: Family, t: string, name: string, h: (Family, string))
    requires h != (f, t) && HasChain(rs, h.0, h.1, name) && !InUse(rs, h.0, h.1, name)
    ensures var rs' := Without(rs, LodgedAt(f, t, name));
            HasChain(rs', h.0, h.1, name) && !InUse(rs', h.0, h.1, name)
  {
    var drop := LodgedAt(f, t, name);
    var e :| e in rs && IsChain(e, h.0, h.1, name);
    InWithout(rs, drop, e);
    if InUse(Without(rs, drop), h.0, h.1, name) {
      var u :| u in Without(rs, drop) && Refers(u, h.0, h.1, name);
      InWithout(rs, drop, u);
    }
  }

  lemma RestStays(rs: Ruleset, homes: seq<(Family, string)>, name: string)
    requires homes != [] && NoRepeats(homes)
    requires forall h :: h in homes ==> HasChain(rs, h.0, h.1, name) && !InUse(rs, h.0, h.1, name)
    ensures NoRepeats(homes[1..])
    ensures var rs' := Without(rs, LodgedAt(homes[0].0, homes[0].1, name));
            forall h :: h in homes[1..] ==> HasChain(rs', h.0, h.1, name) && !InUse(rs', h.0, h.1, name)
  {
    forall h | h in homes[1..]
      ensures h in homes && h != homes[0]
      ensures HasChain(Without(rs, LodgedAt(homes[0].0, homes[0].1, name)), h.0, h.1, name)
      ensures !InUse(Without(rs, LodgedAt(homes[0].0, homes[0].1, name)), h.0, h.1, name)
    {
      OtherHomesStay(rs, homes[0].0, homes[0].1, name, h);
    }
  }

  lemma LodgedSplits(homes: seq<(Family, string)>, name: string, e: Entry)
    requires homes != []
    ensures Lodged(e, homes, name) <==> LodgedAt(homes[0].0, homes[0].1, name)(e) || Lodged(e, homes[1..], name)
  {
    assert homes == [homes[0]] + homes[1..];
  }

  /** Deleting the chains of a list drops exactly what is lodged in them. */
  lemma {:induction false} ChainDeletesWork(rs: Ruleset, next: nat, homes: seq<(Family, string)>, name: string,
                                            drop: Entry -> bool)
    requires NoRepeats(homes)
    requires forall h :: h in homes ==> HasChain(rs, h.0, h.1, name) && !InUse(rs, h.0, h.1, name)
    requires forall e :: drop(e) <==> Lodged(e, homes, name)
    ensures Exec(Kernel(rs, next), ChainDeletes(homes, name)) == Some(Kernel(Without(rs, drop), next))
    decreases |homes|
  {
    if homes == [] {
      WithoutNone(rs, drop);
    } else {
      var f, t, rest := homes[0].0, homes[0].1, homes[1..];
      var first := LodgedAt(f, t, name);
      var others := e => Lodged(e, rest, name);
      var rs' := Without(rs, first);
      RestStays(rs, homes, name);
      ChainDeletesWork(rs', next, rest, name, others);
      forall e ensures drop(e) <==> first(e) || others(e) { LodgedSplits(homes, name, e); }
      WithoutTwice(rs, first, others, drop);
      assert homes[0] in homes;
      ExecHead(Kernel(rs, next), DeleteChain(f, t, name), ChainDeletes(rest, name), Kernel(rs', next));
    }
  }

  /** A chain that is in use from elsewhere makes the whole list fail. */
  lemma {:induction false} ChainDeletesFail(rs: Ruleset, next: nat, homes: seq<(Family, string)>, name: string,
                                            e: Entry)
    requires e in rs && e.Rule? && (e.family, e.table) in homes && Refers(e, e.family, e.table, name)
    ensures Exec(Kernel(rs, next), ChainDeletes(homes, name)) == None
    decreases |homes|
  {
    var f, t, rest := homes[0].0, homes[0].1, homes[1..];
    assert ChainDeletes(homes, name)[1..] == ChainDeletes(rest, name);
    if HasChain(rs, f, t, name) && !InUse(rs, f, t, name) {
      var first := LodgedAt(f, t, name);
      InWithout(rs, first, e);
      assert (e.family, e.table) != (f, t);
      ChainDeletesFail(Without(rs, first), next, rest, name, e);
    }
  }

  lemma DeleteSelected(rs: Ruleset, next: nat, select: Entry -> bool)
    requires Distinct(rs)
    requires forall e :: select(e) ==> e.Rule?
    ensures Exec(Kernel(rs, next), RuleDeletes(rs, select)) == Some(Kernel(Without(rs, select), next))
  {
    assert [] + rs == rs;
    RuleDeletesWork([], rs, next, select);
    assert [] + Without(rs, select) == Without(rs, select);
  }

  /** After the jumps are gone, only a goto can hold on to a chain. */
  lemma HomesFree(rs: Ruleset, name: string, h: (Family, string))
    requires !ForeignGoto(rs, name) && h in Homes(rs, name)
    ensures var rs' := Without(rs, JumpTest(name));
            HasChain(rs', h.0, h.1, name) && !InUse(rs', h.0, h.1, name)
  {
    var jumps := JumpTest(name);
    InHomes(rs, name, h);
    var c :| c in rs && IsChain(c, h.0, h.1, name);
    InWithout(rs, jumps, c);
    if InUse(Without(rs, jumps), h.0, h.1, name) {
      var u :| u in Without(rs, jumps) && Refers(u, h.0, h.1, name);
      InWithout(rs, jumps, u);
    }
  }

  lemma TraceSplits(k: Kernel, name: string, lodged: Entry -> bool)
    requires WellFormed(k)
    requires forall e :: lodged(e) <==> Lodged(e, Homes(k.rules, name), name)
    ensures Without(Without(k.rules, JumpTest(name)), lodged) == Without(k.rules, TraceTest(name))
  {
    forall e | e in k.rules
      ensures Trace(e, name) <==> JumpsTo(e, name) || lodged(e)
    {
      if !e.Table? {
        InHomes(k.rules, name, (e.family, e.table));
        assert HousedEntry(k, e);
      }
    }
    WithoutTwice(k.rules, JumpTest(name), lodged, TraceTest(name));
  }

  lemma ForeignGotoBlocks(k: Kernel, name: string)
    requires ForeignGoto(k.rules, name)
    ensures Exec(k.(rules := Without(k.rules, JumpTest(name))), ChainDeletes(Homes(k.rules, name), name)) == None
  {
    var rs := k.rules;
    var e :| e in rs && e.Rule? && Goto(name) in e.expr && !(Jump(name) in e.expr)
             && e.chain != name && HasChain(rs, e.family, e.table, name);
    InWithout(rs, JumpTest(name), e);
    InHomes(rs, name, (e.family, e.table));
    ChainDeletesFail(Without(rs, JumpTest(name)), k.next, Homes(rs, name), name, e);
  }

  /** Removing a chain everywhere is accepted exactly when no foreign goto holds on to it,
      and then removes its trace and nothing else. */
  lemma RemoveEverywhereExactly(k: Kernel, name: string)
    requires WellFormed(k)
    ensures Exec(k, RemoveEverywhere(k.rules, name))
            == if ForeignGoto(k.rules, name) then None
               else Some(k.(rules := Without(k.rules, TraceTest(name))))
  {
    var rs, homes := k.rules, Homes(k.rules, name);
    DeleteSelected(rs, k.next, JumpTest(name));
    ExecConcat(k, RuleDeletes(rs, JumpTest(name)), ChainDeletes(homes, name));
    if ForeignGoto(rs, name) {
      ForeignGotoBlocks(k, name);
    } else {
      var lodged := e => Lodged(e, homes, name);
      HomesDistinct(rs, name);
      forall h | h in homes
        ensures HasChain(Without(rs, JumpTest(name)), h.0, h.1, name)
        ensures !InUse(Without(rs, JumpTest(name)), h.0, h.1, name)
      {
        HomesFree(rs, name, h);
      }
      ChainDeletesWork(Without(rs, JumpTest(name)), k.next, homes, name, lodged);
      TraceSplits(k, name, lodged);
    }
  }

  // ---- every accepted batch keeps the kernel well formed ----

  lemma HasChainIn(rs: Ruleset, more: Ruleset, f: Family, t: string, n: string)
    requires HasChain(rs, f, t, n) && forall e :: e in rs && e.Chain? ==> e in more
    ensures HasChain(more, f, t, n)
  {
    var e :| e in rs && IsChain(e, f, t, n);
    assert e in more;
  }

  /** Entries keep their housing when chains and tables only grow. */
  lemma HousedMonotone(k: Kernel, k': Kernel, e: Entry)
    requires HousedEntry(k, e) && k.next <= k'.next
    requires forall x :: x in k.rules && !x.Rule? ==> x in k'.rules
    ensures HousedEntry(k', e)
  {
    if e.Rule? {
      HasChainIn(k.rules, k'.rules, e.family, e.table, e.chain);
      forall x | x in e.expr && (x.Jump? || x.Goto?)
        ensures HasChain(k'.rules, e.family, e.table, x.target)
      {
        HasChainIn(k.rules, k'.rules, e.family, e.table, x.target);
      }
    }
  }

  lemma AppendWellFormed(k: Kernel, e: Entry, next: nat)
    requires WellFormed(k) && k.next <= next
    requires HousedEntry(Kernel(k.rules + [e], next), e)
    requires e.Rule? ==> e.handle == k.next
    requires e.Chain? ==> !HasChain(k.rules, e.family, e.table, e.name)
    ensures WellFormed(Kernel(k.rules + [e], next))
  {
    var k' := Kernel(k.rules + [e], next);
    forall x | x in k.rules
      ensures !SameHandle(x, e) && !SameChain(x, e) && HousedEntry(k', x)
    {
      assert HousedEntry(k, x);
      HousedMonotone(k, k', x);
    }
    DistinctAppend(k.rules, e);
  }

  lemma DropRulesWellFormed(k: Kernel, drop: Entry -> bool)
    requires WellFormed(k) && forall e :: drop(e) ==> e.Rule?
    ensures WellFormed(k.(rules := Without(k.rules, drop)))
  {
    var k' := k.(rules := Without(k.rules, drop));
    DistinctWithout(k.rules, drop);
    forall x | x in k.rules && !x.Rule? ensures x in k'.rules { InWithout(k.rules, drop, x); }
    forall x | x in k'.rules
      ensures HousedEntry(k', x)
    {
      InWithout(k.rules, drop, x);
      HousedMonotone(k, k', x);
    }
  }

  lemma DropChainWellFormed(k: Kernel, f: Family, t: string, n: string)
    requires WellFormed(k) && !InUse(k.rules, f, t, n)
    ensures WellFormed(k.(rules := Without(k.rules, LodgedAt(f, t, n))))
  {
    var drop := LodgedAt(f, t, n);
    var k' := k.(rules := Without(k.rules, drop));
    DistinctWithout(k.rules, drop);
    forall x | x in k'.rules
      ensures HousedEntry(k', x)
    {
      InWithout(k.rules, drop, x);
      assert HousedEntry(k, x);
      match x {
        case Table(_, _) =>
        case Chain(xf, xt, _, _) => InWithout(k.rules, drop, Table(xf, xt));
        case Rule(xf, xt, c, _, expr) =>
          KeptChain(k.rules, f, t, n, xf, xt, c);
          forall y | y in expr && (y.Jump? || y.Goto?)
            ensures HasChain(k'.rules, xf, xt, y.target)
          {
            assert !Refers(x, f, t, n);
            KeptChain(k.rules, f, t, n, xf, xt, y.target);
          }
      }
    }
  }

  lemma KeptChain(rs: Ruleset, f: Family, t: string, n: string, f': Family, t': string, n': string)
    requires HasChain(rs, f', t', n') && (f', t', n') != (f, t, n)
    ensures HasChain(Without(rs, LodgedAt(f, t, n)), f', t', n')
  {
    var e :| e in rs && IsChain(e, f', t', n');
    InWithout(rs, LodgedAt(f, t, n), e);
  }

  lemma Exec1WellFormed(k: Kernel, c: Command)
    requires WellFormed(k) && Exec1(k, c).Some?
    ensures WellFormed(Exec1(k, c).value)
  {
    match c {
      case AddTable(f, t) => if Table(f, t) !in k.rules { AppendWellFormed(k, Table(f, t), k.next); }
      case AddChain(f, t, n, hook) =>
        if !HasChain(k.rules, f, t, n) { AppendWellFormed(k, Chain(f, t, n, hook), k.next); }
      case AddRule(f, t, chain, expr) => AddRuleWellFormed(k, f, t, chain, expr);
      case DeleteRule(f, t, chain, h) => DropRulesWellFormed(k, RuleAt(f, t, chain, h));
      case DeleteChain(f, t, n) => DropChainWellFormed(k, f, t, n);
    }
  }

  lemma AddRuleWellFormed(k: Kernel, f: Family, t: string, chain: string, expr: seq<Expr>)
    requires WellFormed(k) && HasChain(k.rules, f, t, chain) && TargetsExist(k.rules, f, t, expr)
    ensures WellFormed(Kernel(k.rules + [Rule(f, t, chain, k.next, expr)], k.next + 1))
  {
    var e := Rule(f, t, chain, k.next, expr);
    var rs' := k.rules + [e];
    HasChainIn(k.rules, rs', f, t, chain);
    forall x | x in expr && (x.Jump? || x.Goto?)
      ensures HasChain(rs', f, t, x.target)
    {
      HasChainIn(k.rules, rs', f, t, x.target);
    }
    AppendWellFormed(k, e, k.next + 1);
  }

  lemma {:induction false} ExecWellFormed(k: Kernel, cs: seq<Command>)
    requires WellFormed(k) && Exec(k, cs).Some?
    ensures WellFormed(Exec(k, cs).value)
    decreases |cs|
  {
    if cs != [] {
      Exec1WellFormed(k, cs[0]);
      ExecWellFormed(Exec1(k, cs[0]).value, cs[1..]);
    }
  }
}
