/** Concurrent creations and deletions as atomic steps, one for each time a lock is held.
    Between the duplicate check and the final insertion a creation holds no lock at all. */
module Interleavings {
  import opened Wrappers
  import Ipv4
  import Ipv6
  import Ledger
  import LedgerSafety

  datatype Vm = Vm(ip: Ipv4.Addr, range: Option<Ipv6.Net>)

  /** A creation: the duplicate check is passed, an offset is taken, an IPv6 range is leased. */
  datatype Flight =
    | Checked(id: string)
    | Addressed(id: string, offset: Ipv4.Offset)
    | Leased(id: string, offset: Ipv4.Offset, range: Ipv6.Net)

  /** A deletion keeps the VM table locked from the removal of the handle to its end; on the way
      it releases the IPv6 range and frees the offset. */
  datatype Deletion = Idle | Removed(id: string, vm: Vm) | Released(id: string, ip: Ipv4.Addr) | Freed(id: string)

  /** live is the VM table; pool is the IPv6 pool, if there is one, and ranges its allocations;
      flights are the creations under way. */
  datatype System = System(
    gateway: Ipv4.Addr,
    pool: Option<Ipv6.Net>,
    live: map<string, Vm>,
    used: set<Ipv4.Offset>,
    ranges: Ipv6.Allocations,
    flights: map<nat, Flight>,
    deletion: Deletion)

  /** Fail leaves a creation without clean-up, Abort through the clean-up of its reservations. */
  datatype Step =
    | Check(task: nat, id: string)
    | Take(task: nat)
    | Lease(task: nat, range: Ipv6.Net)
    | Fail(task: nat)
    | Abort(task: nat)
    | Insert(task: nat)
    | Remove(id: string)
    | Release
    | Free
    | Finish

  /** A creation has everything it needs before its VM is inserted. */
  predicate Ready(s: System, f: Flight) { if s.pool.Some? then f.Leased? else f.Addressed? }

  /** The allocator grants ranges that lie in the pool and overlap no allocation. */
  ghost predicate Grants(pool: Ipv6.Net, ranges: Ipv6.Allocations, range: Ipv6.Net) {
    && Ipv6.Safe(pool, ranges) && range.Valid()
    && Ipv6.Contains(pool, range) && !Ipv6.Taken(ranges, range)
  }

  /** Steps on the VM table wait for a deletion to release its lock. */
  ghost predicate Enabled(s: System, step: Step) {
    match step
    case Check(task, id) => s.deletion.Idle? && task !in s.flights && id !in s.live
    case Take(task) => task in s.flights && s.flights[task].Checked?
    case Lease(task, range) =>
      s.pool.Some? && task in s.flights && s.flights[task].Addressed? && Grants(s.pool.value, s.ranges, range)
    case Fail(task) => task in s.flights
    case Abort(task) => task in s.flights && s.flights[task].Leased?
    case Insert(task) => s.deletion.Idle? && task in s.flights && Ready(s, s.flights[task])
    case Remove(id) => s.deletion.Idle? && id in s.live
    case Release => s.deletion.Removed?
    case Free => s.deletion.Released?
    case Finish => s.deletion.Freed?
  }

  function RangeOf(f: Flight): Option<Ipv6.Net> { if f.Leased? then Some(f.range) else None }

  ghost function Next(s: System, step: Step): System
    requires Enabled(s, step)
  {
    match step
    case Check(task, id) => s.(flights := s.flights[task := Checked(id)])
    case Take(task) =>
      (match Ledger.LowestFree(s.used, Ledger.FIRST_OFFSET)
       case None => s.(flights := s.flights - {task})
       case Some(o) => s.(flights := s.flights[task := Addressed(s.flights[task].id, o)], used := s.used + {o}))
    case Lease(task, range) =>
      var f := s.flights[task];
      s.(flights := s.flights[task := Leased(f.id, f.offset, range)], ranges := s.ranges[f.id := range])
    case Fail(task) => s.(flights := s.flights - {task})
    case Abort(task) => s.(flights := s.flights - {task}, ranges := s.ranges - {s.flights[task].id})
    case Insert(task) =>
      var f := s.flights[task];
      var vm := Vm(Ipv4.AllocateVmIp(s.gateway, f.offset), RangeOf(f));
      s.(live := s.live[f.id := vm], flights := s.flights - {task})
    case Remove(id) => s.(live := s.live - {id}, deletion := Removed(id, s.live[id]))
    case Release =>
      s.(ranges := if s.deletion.vm.range.Some? then s.ranges - {s.deletion.id} else s.ranges,
         deletion := Released(s.deletion.id, s.deletion.vm.ip))
    case Free => s.(used := s.used - {Ipv4.OffsetOf(s.gateway, s.deletion.ip)}, deletion := Freed(s.deletion.id))
    case Finish => s.(deletion := Idle)
  }

  // ---- who holds an address ----

  datatype Holder = Live(id: string) | InFlight(task: nat) | Dying

  function AddressOf(s: System, h: Holder): Option<Ipv4.Addr> {
    match h
    case Live(id) => if id in s.live then Some(s.live[id].ip) else None
    case InFlight(task) =>
      if task in s.flights && !s.flights[task].Checked? then
        Some(Ipv4.AllocateVmIp(s.gateway, s.flights[task].offset))
      else None
    case Dying =>
      match s.deletion
      case Removed(_, vm) => Some(vm.ip)
      case Released(_, ip) => Some(ip)
      case _ => None
  }

  function OffsetOf(s: System, h: Holder): Option<Ipv4.Offset> {
    match AddressOf(s, h)
    case None => None
    case Some(ip) => Some(Ipv4.OffsetOf(s.gateway, ip))
  }

  /** The address a holder has is the one its offset stands for, and the offset is used. */
  ghost predicate Proper(s: System, h: Holder) {
    AddressOf(s, h).Some? ==>
      && AddressOf(s, h).value == Ipv4.AllocateVmIp(s.gateway, OffsetOf(s, h).value)
      && Ledger.FIRST_OFFSET <= OffsetOf(s, h).value <= Ledger.LAST_OFFSET
      && OffsetOf(s, h).value in s.used
  }

  /** Offsets are used while held and held by one holder only. */
  ghost predicate Exclusive(s: System) {
    && (forall h :: Proper(s, h))
    && (forall a, b :: a != b && OffsetOf(s, a).Some? && OffsetOf(s, b).Some? ==> OffsetOf(s, a) != OffsetOf(s, b))
  }

  // ---- every step ----

  lemma TakeIsExclusive(s: System, task: nat)
    requires Exclusive(s) && Enabled(s, Take(task))
    ensures Exclusive(Next(s, Take(task)))
  {
    var s' := Next(s, Take(task));
    var free := Ledger.LowestFree(s.used, Ledger.FIRST_OFFSET);
    if free.Some? { Ipv4.OffsetRecovered(s.gateway, free.value); }
    forall h | h != InFlight(task) ensures AddressOf(s', h) == AddressOf(s, h) && OffsetOf(s', h) == OffsetOf(s, h) {}
    forall h ensures Proper(s', h) { assert Proper(s, h); }
    forall h | h != InFlight(task) && OffsetOf(s', h).Some? ensures OffsetOf(s', h).value in s.used
      { assert Proper(s, h); }
  }

  /** The inserted VM takes over what its creation held; a VM it overwrites only loses its own. */
  lemma InsertIsExclusive(s: System, task: nat)
    requires Exclusive(s) && Enabled(s, Insert(task))
    ensures Exclusive(Next(s, Insert(task)))
  {
    var s', id := Next(s, Insert(task)), s.flights[task].id;
    forall h ensures AddressOf(s', h) == if h == Live(id) then AddressOf(s, InFlight(task))
                                         else if h == InFlight(task) then None else AddressOf(s, h) {}
    forall h ensures Proper(s', h) {
      assert Proper(s, h) && Proper(s, InFlight(task));
    }
    forall a, b | a != b && OffsetOf(s', a).Some? && OffsetOf(s', b).Some? ensures OffsetOf(s', a) != OffsetOf(s', b) {
      var a0, b0 := if a == Live(id) then InFlight(task) else a, if b == Live(id) then InFlight(task) else b;
      assert OffsetOf(s, a0) == OffsetOf(s', a) && OffsetOf(s, b0) == OffsetOf(s', b);
    }
  }

  lemma RemoveIsExclusive(s: System, id: string)
    requires Exclusive(s) && Enabled(s, Remove(id))
    ensures Exclusive(Next(s, Remove(id)))
  {
    var s' := Next(s, Remove(id));
    forall h ensures AddressOf(s', h) == if h == Dying then AddressOf(s, Live(id))
      else if h == Live(id) then None else AddressOf(s, h) {}
    forall h ensures Proper(s', h) {
      assert Proper(s, h) && Proper(s, Live(id));
    }
    forall a, b | a != b && OffsetOf(s', a).Some? && OffsetOf(s', b).Some? ensures OffsetOf(s', a) != OffsetOf(s', b) {
      var a0, b0 := if a == Dying then Live(id) else a, if b == Dying then Live(id) else b;
      assert OffsetOf(s, a0) == OffsetOf(s', a) && OffsetOf(s, b0) == OffsetOf(s', b);
    }
  }

  /** Deletion frees the offset the dying VM held, which nobody else holds. */
  lemma FreeIsItsOwn(s: System)
    requires Exclusive(s) && Enabled(s, Free)
    ensures Exclusive(Next(s, Free))
    ensures s.used == Next(s, Free).used + {OffsetOf(s, Dying).value}
    ensures forall h | h != Dying ::
              OffsetOf(s, h) != OffsetOf(s, Dying) && OffsetOf(Next(s, Free), h) == OffsetOf(s, h)
  {
    var s' := Next(s, Free);
    assert Proper(s, Dying);
    forall h ensures AddressOf(s', h) == (if h == Dying then None else AddressOf(s, h))
      && OffsetOf(s', h) == (if h == Dying then None else OffsetOf(s, h)) {}
    forall h ensures Proper(s', h) { assert Proper(s, h); }
  }

  lemma StepIsExclusive(s: System, step: Step)
    requires Exclusive(s) && Enabled(s, step)
    ensures Exclusive(Next(s, step))
  {
    var s' := Next(s, step);
    match step
    case Take(task) => TakeIsExclusive(s, task);
    case Insert(task) => InsertIsExclusive(s, task);
    case Remove(id) => RemoveIsExclusive(s, id);
    case Free => FreeIsItsOwn(s);
    case _ =>
      forall h ensures AddressOf(s', h) == AddressOf(s, h) || AddressOf(s', h) == None {}
      forall h ensures Proper(s', h) { assert Proper(s, h); }
      forall h | OffsetOf(s', h).Some? ensures OffsetOf(s', h) == OffsetOf(s, h) {}
  }

  // ---- every interleaving ----

  /** The table after start-up or recovery, with nothing under way. */
  ghost predicate Quiet(s: System) { Exclusive(s) && Owned(s) && s.flights == map[] && s.deletion.Idle? }

  ghost predicate IsPath(states: seq<System>, steps: seq<Step>) {
    && |states| == |steps| + 1
    && forall i :: 0 <= i < |steps| ==> Enabled(states[i], steps[i]) && states[i + 1] == Next(states[i], steps[i])
  }

  ghost predicate IsTrace(states: seq<System>, steps: seq<Step>) { IsPath(states, steps) && Quiet(states[0]) }

  /** The VM table, offsets and ranges of a ledger, with nothing under way. */
  ghost function SystemOf(g: Ledger.Setting, n: Ledger.Node): System {
    System(g.gateway, if g.firewall.ipv6Enabled then Some(g.pool) else None,
           map id | id in n.vms :: Vm(n.vms[id].ip, n.vms[id].ipv6), n.used, n.ipv6, map[], Idle)
  }

  /** A sound ledger, and so a new or recovered manager, is such a start. */
  lemma SoundLedgerIsQuiet(g: Ledger.Setting, n: Ledger.Node)
    requires LedgerSafety.Sound(g, n)
    ensures Quiet(SystemOf(g, n))
  {
    var s := SystemOf(g, n);
    forall h ensures AddressOf(s, h) == (if h.Live? && h.id in n.vms then Some(n.vms[h.id].ip) else None)
      && (OffsetOf(s, h).Some? ==> OffsetOf(s, h).value == LedgerSafety.OffsetFor(g, n.vms[h.id])) {}
  }

  lemma {:induction false} EveryInterleavingIsExclusive(states: seq<System>, steps: seq<Step>, i: nat)
    requires IsTrace(states, steps) && i < |states|
    ensures Exclusive(states[i])
  {
    if i > 0 {
      EveryInterleavingIsExclusive(states, steps, i - 1);
      StepIsExclusive(states[i - 1], steps[i - 1]);
    }
  }

  /** At every moment of every interleaving, live VMs, creations under way and a deletion that has
      not freed its offset differ in offset, address and MAC. */
  lemma HoldersDiffer(states: seq<System>, steps: seq<Step>, i: nat, a: Holder, b: Holder)
    requires IsTrace(states, steps) && i < |states| && a != b
    requires AddressOf(states[i], a).Some? && AddressOf(states[i], b).Some?
    ensures var s := states[i]; var x, y := AddressOf(s, a).value, AddressOf(s, b).value;
            && x != y && Ipv4.MacForVmIp(x) != Ipv4.MacForVmIp(y)
            && OffsetOf(s, a).value in s.used && OffsetOf(s, b).value in s.used
  {
    EveryInterleavingIsExclusive(states, steps, i);
    var s := states[i];
    assert Proper(s, a) && Proper(s, b);
    Ipv4.DistinctOffsets(s.gateway, OffsetOf(s, a).value, OffsetOf(s, b).value);
  }

  // ---- IPv6 ranges ----

  /** A VM or creation that has a range holds the allocation under its id. */
  predicate Holds(s: System, id: string, range: Ipv6.Net) { id in s.ranges && s.ranges[id] == range }

  /** Every live VM has a range of its own, if there is a pool at all. */
  predicate LiveOwned(s: System) {
    forall id :: id in s.live ==>
      && (s.live[id].range.Some? <==> s.pool.Some?)
      && (s.live[id].range.Some? ==> Holds(s, id, s.live[id].range.value))
  }

  predicate FlightsOwned(s: System) {
    forall t :: t in s.flights && s.flights[t].Leased? ==> Holds(s, s.flights[t].id, s.flights[t].range)
  }

  /** The allocations are inside the pool and disjoint, and live VMs hold theirs. */
  ghost predicate Owned(s: System) {
    (s.pool.Some? ==> Ipv6.Safe(s.pool.value, s.ranges)) && LiveOwned(s)
  }

  /** The allocations stay inside the pool and disjoint whatever the steps do. */
  lemma StepKeepsRangesSafe(s: System, step: Step)
    requires s.pool.Some? && Ipv6.Safe(s.pool.value, s.ranges) && Enabled(s, step)
    ensures Next(s, step).pool == s.pool && Ipv6.Safe(s.pool.value, Next(s, step).ranges)
  {
    if step.Lease? { Ipv6.RecordSafe(s.pool.value, s.ranges, s.flights[step.task].id, step.range); }
  }

  // ---- creations of one id ----

  /** Creations under way are for different ids, none of them live. */
  ghost predicate Apart(s: System) {
    && (forall t :: t in s.flights ==> s.flights[t].id !in s.live)
    && (forall t, u :: t in s.flights && u in s.flights && t != u ==> s.flights[t].id != s.flights[u].id)
  }

  /** No creation under way is for the VM being deleted. */
  ghost predicate DyingAlone(s: System) {
    s.deletion.Removed? ==> s.deletion.id !in s.live && forall t :: t in s.flights ==> s.flights[t].id != s.deletion.id
  }

  /** What holds as long as creations of one id do not overlap. */
  ghost predicate Orderly(s: System) { Apart(s) && DyingAlone(s) && Owned(s) && FlightsOwned(s) }

  /** A creation starts with no other creation of its id under way. */
  ghost predicate StartsAlone(s: System, step: Step) {
    step.Check? ==> forall t :: t in s.flights ==> s.flights[t].id != step.id
  }

  ghost predicate NoOverlap(states: seq<System>, steps: seq<Step>)
    requires IsTrace(states, steps)
  {
    forall i :: 0 <= i < |steps| ==> StartsAlone(states[i], steps[i])
  }

  lemma StepStaysApart(s: System, step: Step)
    requires Orderly(s) && Enabled(s, step) && StartsAlone(s, step)
    ensures Apart(Next(s, step)) && DyingAlone(Next(s, step))
  {
  }

  /** Only the entry of the creation's or the deletion's own id changes. */
  lemma OtherRangesStay(s: System, step: Step, id: string, range: Ipv6.Net)
    requires Enabled(s, step) && Holds(s, id, range)
    requires (step.Lease? || step.Abort?) ==> s.flights[step.task].id != id
    requires step.Release? ==> s.deletion.id != id
    ensures Holds(Next(s, step), id, range)
  {
  }

  lemma LiveStaysOwned(s: System, step: Step)
    requires Orderly(s) && Enabled(s, step)
    ensures LiveOwned(Next(s, step))
  {
    forall id | id in s.live && s.live[id].range.Some? ensures Holds(Next(s, step), id, s.live[id].range.value) {
      OtherRangesStay(s, step, id, s.live[id].range.value);
    }
  }

  lemma FlightsStayOwned(s: System, step: Step)
    requires Orderly(s) && Enabled(s, step)
    ensures FlightsOwned(Next(s, step))
  {
    var s' := Next(s, step);
    forall t | t in s'.flights && s'.flights[t].Leased? ensures Holds(s', s'.flights[t].id, s'.flights[t].range) {
      if !(step.Lease? && step.task == t) {
        assert t in s.flights && s.flights[t] == s'.flights[t];
        OtherRangesStay(s, step, s.flights[t].id, s.flights[t].range);
      }
    }
  }

  lemma StepStaysOrderly(s: System, step: Step)
    requires Orderly(s) && Enabled(s, step) && StartsAlone(s, step)
    ensures Orderly(Next(s, step))
  {
    StepStaysApart(s, step);
    LiveStaysOwned(s, step);
    FlightsStayOwned(s, step);
    if s.pool.Some? { StepKeepsRangesSafe(s, step); }
    assert Next(s, step).pool == s.pool;
  }

  /** An insertion puts its VM in place of a live one. */
  predicate Replaces(s: System, step: Step) {
    step.Insert? && step.task in s.flights && s.flights[step.task].id in s.live
  }

  /** Without overlapping creations of one id, in every interleaving, failures and clean-ups
      included: no insertion replaces a live VM, and every live VM keeps its own IPv6 range. */
  lemma {:induction false} NoOverlapLosesNone(states: seq<System>, steps: seq<Step>, i: nat)
    requires IsTrace(states, steps) && NoOverlap(states, steps) && i < |states|
    ensures Orderly(states[i])
    ensures i < |steps| ==> !Replaces(states[i], steps[i])
  {
    if i > 0 {
      NoOverlapLosesNone(states, steps, i - 1);
      assert StartsAlone(states[i - 1], steps[i - 1]);
      StepStaysOrderly(states[i - 1], steps[i - 1]);
    }
  }

  /** All creations under way are ready to insert. */
  ghost predicate AllReady(s: System) { s.deletion.Idle? && forall t :: t in s.flights ==> Ready(s, s.flights[t]) }

  /** The creations under way can be completed so that one of them replaces a live VM. */
  ghost predicate CanReplace(s: System) {
    exists states: seq<System>, steps: seq<Step>, i: nat ::
      IsPath(states, steps) && states[0] == s && OnlyInserts(steps) && i < |steps| && Replaces(states[i], steps[i])
  }

  predicate OnlyInserts(steps: seq<Step>) { forall i :: 0 <= i < |steps| ==> steps[i].Insert? }

  lemma {:induction false} InsertsStayApart(states: seq<System>, steps: seq<Step>, i: nat)
    requires IsPath(states, steps) && Apart(states[0]) && OnlyInserts(steps) && i < |states|
    ensures Apart(states[i])
    ensures i < |steps| ==> !Replaces(states[i], steps[i])
  {
    if i > 0 { InsertsStayApart(states, steps, i - 1); }
  }

  lemma SecondInsertReplaces(s: System, t: nat, u: nat)
    requires AllReady(s) && t in s.flights && u in s.flights && t != u && s.flights[t].id == s.flights[u].id
    ensures CanReplace(s)
  {
    var s1 := Next(s, Insert(t));
    var s2 := Next(s1, Insert(u));
    var states, steps := [s, s1, s2], [Insert(t), Insert(u)];
    assert IsPath(states, steps) && OnlyInserts(steps) && Replaces(states[1], steps[1]);
  }

  /** With every creation under way ready, some order of insertions replaces a live VM exactly when
      two of them are for one id or one is for a live id. */
  lemma CanReplaceExactlyWhen(s: System)
    requires AllReady(s)
    ensures CanReplace(s) <==> !Apart(s)
  {
    if t :| t in s.flights && s.flights[t].id in s.live {
      var states, steps := [s, Next(s, Insert(t))], [Insert(t)];
      assert IsPath(states, steps) && OnlyInserts(steps) && Replaces(states[0], steps[0]);
    }
    if t, u :| t in s.flights && u in s.flights && t != u && s.flights[t].id == s.flights[u].id {
      SecondInsertReplaces(s, t, u);
    }
    if Apart(s) && CanReplace(s) {
      var states: seq<System>, steps: seq<Step>, i: nat :|
        IsPath(states, steps) && states[0] == s && OnlyInserts(steps) && i < |steps| && Replaces(states[i], steps[i]);
      InsertsStayApart(states, steps, i);
    }
  }

  /** The creations under way can be completed or cleaned up so that a live VM is left without its
      IPv6 range. */
  ghost predicate CanDisown(s: System) {
    exists states: seq<System>, steps: seq<Step>, i: nat ::
      IsPath(states, steps) && states[0] == s && OnlyEndings(steps) && i < |states| && !LiveOwned(states[i])
  }

  predicate OnlyEndings(steps: seq<Step>) { forall i :: 0 <= i < |steps| ==> steps[i].Insert? || steps[i].Abort? }

  lemma {:induction false} EndingsKeepRanges(states: seq<System>, steps: seq<Step>, i: nat)
    requires IsPath(states, steps) && OnlyEndings(steps) && i < |states|
    requires Apart(states[0]) && LiveOwned(states[0]) && FlightsOwned(states[0])
    ensures Apart(states[i]) && LiveOwned(states[i]) && FlightsOwned(states[i])
  {
    if i > 0 {
      EndingsKeepRanges(states, steps, i - 1);
      EndingKeepsRanges(states[i - 1], steps[i - 1]);
    }
  }

  lemma EndingKeepsRanges(s: System, step: Step)
    requires Enabled(s, step) && (step.Insert? || step.Abort?)
    requires Apart(s) && LiveOwned(s) && FlightsOwned(s)
    ensures var s' := Next(s, step); Apart(s') && LiveOwned(s') && FlightsOwned(s')
  {
  }

  lemma OneEndingDisowns(s: System, step: Step)
    requires Enabled(s, step) && (step.Insert? || step.Abort?) && !LiveOwned(Next(s, step))
    ensures CanDisown(s)
  {
    var states, steps := [s, Next(s, step)], [step];
    assert IsPath(states, steps) && OnlyEndings(steps) && !LiveOwned(states[1]);
  }

  lemma InsertThenAbortDisowns(s: System, t: nat, u: nat)
    requires AllReady(s) && s.pool.Some?
    requires t in s.flights && u in s.flights && t != u && s.flights[t].id == s.flights[u].id
    ensures CanDisown(s)
  {
    var s1 := Next(s, Insert(t));
    var s2 := Next(s1, Abort(u));
    var states, steps := [s, s1, s2], [Insert(t), Abort(u)];
    assert s.flights[t].id in s2.live && s.flights[t].id !in s2.ranges;
    assert IsPath(states, steps) && OnlyEndings(steps) && !LiveOwned(states[2]);
  }

  lemma LiveIdDisowns(s: System, t: nat)
    requires AllReady(s) && s.pool.Some? && LiveOwned(s) && t in s.flights && s.flights[t].id in s.live
    ensures CanDisown(s)
  {
    var s' := Next(s, Abort(t));
    assert s.flights[t].id in s'.live && s.flights[t].id !in s'.ranges;
    OneEndingDisowns(s, Abort(t));
  }

  lemma LostRangeDisowns(s: System, t: nat)
    requires AllReady(s) && s.pool.Some? && t in s.flights && !Holds(s, s.flights[t].id, s.flights[t].range)
    ensures CanDisown(s)
  {
    var s', id := Next(s, Insert(t)), s.flights[t].id;
    assert id in s'.live && s'.live[id].range == Some(s.flights[t].range) && !Holds(s', id, s.flights[t].range);
    OneEndingDisowns(s, Insert(t));
  }

  lemma OrderlyKeepsRanges(s: System)
    requires Apart(s) && LiveOwned(s) && FlightsOwned(s)
    ensures !CanDisown(s)
  {
    forall states: seq<System>, steps: seq<Step>, i: nat
      | IsPath(states, steps) && states[0] == s && OnlyEndings(steps) && i < |states|
      ensures LiveOwned(states[i])
    {
      EndingsKeepRanges(states, steps, i);
    }
  }

  /** With every creation under way ready, some way of completing them or cleaning them up takes a
      live VM's IPv6 range away exactly when two are for one id, one is for a live id, or one has
      lost its own range already. */
  lemma CanDisownExactlyWhen(s: System)
    requires AllReady(s) && s.pool.Some? && LiveOwned(s)
    ensures CanDisown(s) <==> !(Apart(s) && FlightsOwned(s))
  {
    if t :| t in s.flights && s.flights[t].id in s.live { LiveIdDisowns(s, t); }
    if t, u :| t in s.flights && u in s.flights && t != u && s.flights[t].id == s.flights[u].id {
      InsertThenAbortDisowns(s, t, u);
    }
    if t :| t in s.flights && s.flights[t].Leased? && !Holds(s, s.flights[t].id, s.flights[t].range) {
      LostRangeDisowns(s, t);
    }
    if Apart(s) && FlightsOwned(s) { OrderlyKeepsRanges(s); }
  }

  // ---- two creations of one id, step by step ----

  lemma Joined(a: seq<System>, x: seq<Step>, b: seq<System>, y: seq<Step>)
    requires IsPath(a, x) && IsPath(b, y) && a[|a| - 1] == b[0]
    ensures IsPath(a + b[1..], x + y)
  {
    var states, steps := a + b[1..], x + y;
    forall i | 0 <= i < |steps| ensures Enabled(states[i], steps[i]) && states[i + 1] == Next(states[i], steps[i]) {
      if i < |x| {
        assert states[i] == a[i] && states[i + 1] == a[i + 1] && steps[i] == x[i];
      } else {
        assert states[i] == b[i - |x|] && states[i + 1] == b[i - |x| + 1] && steps[i] == y[i - |x|];
      }
    }
  }

  /** The system with these creations under way. */
  function With(s: System, used: set<Ipv4.Offset>, ranges: Ipv6.Allocations, flights: map<nat, Flight>): System {
    s.(used := used, ranges := ranges, flights := flights)
  }

  lemma BothCheck(s: System, id: string) returns (states: seq<System>)
    requires s.flights == map[] && s.deletion.Idle? && id !in s.live
    ensures IsPath(states, [Check(0, id), Check(1, id)]) && states[0] == s
    ensures states[2] == With(s, s.used, s.ranges, map[0 := Checked(id), 1 := Checked(id)])
  {
    states := [s, With(s, s.used, s.ranges, map[0 := Checked(id)]),
               With(s, s.used, s.ranges, map[0 := Checked(id), 1 := Checked(id)])];
  }

  lemma TakesFirst(s: System, task: nat)
    requires s.used == {} && task in s.flights && s.flights[task].Checked?
    ensures Next(s, Take(task)) == With(s, {1}, s.ranges, s.flights[task := Addressed(s.flights[task].id, 1)])
  {
    assert Ledger.LowestFree(s.used, 1) == Some(1);
    assert s.used + {1} == {1};
  }

  lemma TakesSecond(s: System, task: nat)
    requires s.used == {1} && task in s.flights && s.flights[task].Checked?
    ensures Next(s, Take(task)) == With(s, {1, 2}, s.ranges, s.flights[task := Addressed(s.flights[task].id, 2)])
  {
    assert Ledger.LowestFree(s.used, 1) == Ledger.LowestFree(s.used, 2) == Some(2);
    assert s.used + {2} == {1, 2};
  }

  lemma BothTake(s: System, id: string) returns (states: seq<System>)
    requires s.used == {} && s.flights == map[0 := Checked(id), 1 := Checked(id)]
    ensures IsPath(states, [Take(0), Take(1)]) && states[0] == s
    ensures states[2] == With(s, {1, 2}, s.ranges, map[0 := Addressed(id, 1), 1 := Addressed(id, 2)])
  {
    var s1 := Next(s, Take(0));
    TakesFirst(s, 0);
    TakesSecond(s1, 1);
    var s2 := Next(s1, Take(1));
    assert s2.flights == map[0 := Addressed(id, 1), 1 := Addressed(id, 2)];
    states := [s, s1, s2];
  }

  lemma BothInsert(s: System, id: string) returns (states: seq<System>)
    requires s.pool.None? && s.deletion.Idle? && id !in s.live
    requires s.flights == map[0 := Addressed(id, 1), 1 := Addressed(id, 2)]
    ensures IsPath(states, [Insert(0), Insert(1)]) && states[0] == s
    ensures states[1].live == s.live[id := Vm(Ipv4.AllocateVmIp(s.gateway, 1), None)]
    ensures states[2] == With(s, s.used, s.ranges, map[])
            .(live := s.live[id := Vm(Ipv4.AllocateVmIp(s.gateway, 2), None)])
  {
    var s1 := Next(s, Insert(0));
    states := [s, s1, Next(s1, Insert(1))];
    assert s1.flights - {1} == map[];
  }

  /** Two creations of one id can both pass the duplicate check. The second insertion replaces the
      first VM, whose offset then stays used with no holder left to free it. */
  lemma DoubleCreationLosesTheFirst(s: System, id: string) returns (states: seq<System>)
    requires Quiet(s) && s.pool.None? && s.used == {} && id !in s.live
    ensures IsTrace(states, [Check(0, id), Check(1, id)] + [Take(0), Take(1)] + [Insert(0), Insert(1)])
    ensures states[0] == s && states[5].live == s.live[id := Vm(Ipv4.AllocateVmIp(s.gateway, 1), None)]
    ensures states[6] == With(s, {1, 2}, s.ranges, map[])
                         .(live := s.live[id := Vm(Ipv4.AllocateVmIp(s.gateway, 2), None)])
  {
    var a := BothCheck(s, id);
    var b := BothTake(a[2], id);
    var c := BothInsert(b[2], id);
    Joined(a, [Check(0, id), Check(1, id)], b, [Take(0), Take(1)]);
    Joined(a + b[1..], [Check(0, id), Check(1, id)] + [Take(0), Take(1)], c, [Insert(0), Insert(1)]);
    states := a + b[1..] + c[1..];
  }

  lemma FirstLeases(s: System, id: string, range: Ipv6.Net) returns (states: seq<System>)
    requires s.pool.Some? && s.used == {} && s.flights == map[0 := Checked(id), 1 := Checked(id)]
    requires Grants(s.pool.value, s.ranges, range)
    ensures IsPath(states, [Take(0), Lease(0, range)]) && states[0] == s
    ensures states[2] == With(s, {1}, s.ranges[id := range], map[0 := Leased(id, 1, range), 1 := Checked(id)])
  {
    var s1 := Next(s, Take(0));
    TakesFirst(s, 0);
    var s2 := Next(s1, Lease(0, range));
    assert s2.flights == map[0 := Leased(id, 1, range), 1 := Checked(id)];
    states := [s, s1, s2];
  }

  lemma SecondLeases(s: System, id: string, first: Ipv6.Net, range: Ipv6.Net) returns (states: seq<System>)
    requires s.pool.Some? && s.used == {1} && s.flights == map[0 := Leased(id, 1, first), 1 := Checked(id)]
    requires Grants(s.pool.value, s.ranges, range)
    ensures IsPath(states, [Take(1), Lease(1, range)]) && states[0] == s
    ensures states[2]
            == With(s, {1, 2}, s.ranges[id := range], map[0 := Leased(id, 1, first), 1 := Leased(id, 2, range)])
  {
    var s1 := Next(s, Take(1));
    TakesSecond(s, 1);
    var s2 := Next(s1, Lease(1, range));
    assert s2.flights == map[0 := Leased(id, 1, first), 1 := Leased(id, 2, range)];
    states := [s, s1, s2];
  }

  lemma FirstInsertsSecondAborts(s: System, id: string, first: Ipv6.Net, second: Ipv6.Net) returns (states: seq<System>)
    requires s.pool.Some? && s.deletion.Idle?
    requires s.flights == map[0 := Leased(id, 1, first), 1 := Leased(id, 2, second)]
    ensures IsPath(states, [Insert(0), Abort(1)]) && states[0] == s
    ensures id in states[2].live && states[2].live[id].range == Some(first) && id !in states[2].ranges
  {
    var s1 := Next(s, Insert(0));
    states := [s, s1, Next(s1, Abort(1))];
  }

  /** With a pool, the second creation can instead fail after the first one's VM is live: its
      clean-up then releases the entry under their common id, and the live VM is left without its
      range. */
  lemma FailedDoubleDisownsTheFirst(s: System, id: string, first: Ipv6.Net, second: Ipv6.Net)
    returns (states: seq<System>)
    requires Quiet(s) && s.pool.Some? && s.used == {} && id !in s.live
    requires Grants(s.pool.value, s.ranges, first) && Grants(s.pool.value, s.ranges[id := first], second)
    ensures IsTrace(states, [Check(0, id), Check(1, id)] + [Take(0), Lease(0, first)]
                            + [Take(1), Lease(1, second)] + [Insert(0), Abort(1)])
    ensures states[0] == s
    ensures var end := states[8]; id in end.live && end.live[id].range == Some(first) && id !in end.ranges
  {
    var a := BothCheck(s, id);
    var b := FirstLeases(a[2], id, first);
    var c := SecondLeases(b[2], id, first, second);
    var d := FirstInsertsSecondAborts(c[2], id, first, second);
    Joined(a, [Check(0, id), Check(1, id)], b, [Take(0), Lease(0, first)]);
    var ab := a + b[1..];
    Joined(ab, [Check(0, id), Check(1, id)] + [Take(0), Lease(0, first)], c, [Take(1), Lease(1, second)]);
    var abc := ab + c[1..];
    Joined(abc, [Check(0, id), Check(1, id)] + [Take(0), Lease(0, first)] + [Take(1), Lease(1, second)],
           d, [Insert(0), Abort(1)]);
    states := abc + d[1..];
  }
}
