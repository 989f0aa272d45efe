/** Recovery after a restart: what a fresh manager rebuilds from the state directory. */
module Recovery {
  import opened Wrappers
  import opened PortForwards
  import opened DnatRules
  import opened Ledger
  import opened LedgerSafety
  import opened LedgerAgreement
  import Ipv4
  import Ipv6
  import Numa
  import Nft
  import Firewall
  import VmChains

  /** Which files can be read, which VMs' units are still active, and whether nft runs for the
      set-up of each VM and for the replay of each forward. */
  datatype RecoverEnv = RecoverEnv(
    readable: string -> bool, running: string -> bool, setup: string -> bool, forward: Key -> bool)

  /** What the allocator answers to a request for a given range. */
  function Granted(pool: Ipv6.Net, m: Ipv6.Allocations, net: Ipv6.Net): Result<Ipv6.Net, Ipv6.Ipv6Error>
    requires Ipv6.Safe(pool, m) && net.Valid()
  {
    if !Ipv6.Contains(pool, net) then Err(Ipv6.NotInPool)
      else if Ipv6.Taken(m, net) then Err(Ipv6.Overlapping) else Ok(net)
  }

  function Added(m: Forwards, fs: seq<PortForward>): Forwards
    decreases |fs|
  {
    if fs == [] then m else Added(m[KeyOf(fs[0]) := fs[0]], fs[1..])
  }

  /** The replay of a running VM's forwards; failures are only logged. */
  function Replayed(c: Firewall.Config, k: Nft.Kernel, id: string, ip: Ipv4.Addr, fs: seq<PortForward>, up: Key -> bool)
    : Nft.Kernel
    decreases |fs|
  {
    if fs == [] then k
    else
      match AddForward(c, k, id, TargetFor(fs[0], ip), up(KeyOf(fs[0])))
      case Ok(k') => Replayed(c, k', id, ip, fs[1..], up)
      case Err(_) => Replayed(c, k, id, ip, fs[1..], up)
  }

  function RestoredKernel(c: Firewall.Config, k: Nft.Kernel, id: string, s: Saved, env: RecoverEnv): Nft.Kernel {
    if !env.running(id) then k
    else
      var setup := VmChains.SetupVm(c, k, id, s.tap, env.setup(id));
      Replayed(c, if setup.Ok? then setup.value else k, id, s.ip, s.forwards, env.forward)
  }

  function StateOf(id: string, env: RecoverEnv): VmState { if env.running(id) then Running else Stopped }

  function Restored(s: Saved, state: VmState): Handle { Handle(s.config, state, s.ip, s.ipv6, s.tap, s.numaNode) }

  /** One saved VM is brought back, if its file is there. */
  ghost function RecoverOne(g: Setting, n: Node, id: string, env: RecoverEnv): (r: Node)
    ensures r.disk == n.disk
  {
    if id !in n.disk then n
    else
      var s := n.disk[id];
      Node(n.vms[id := Restored(s, StateOf(id, env))],
           n.used + {Ipv4.OffsetOf(g.gateway, s.ip)},
           n.disk,
           RecoveredNuma(n.numa, s, env.running(id)),
           RecoveredRanges(g, n.ipv6, id, s),
           Added(n.forwards, s.forwards),
           RestoredKernel(g.firewall, n.kernel, id, s, env))
  }

  function RecoveredNuma(st: Numa.State, s: Saved, running: bool): Numa.State {
    if running && s.numaNode.Some? then Numa.AllocateState(st, NumaRequest(s.config), s.numaNode) else st
  }

  /** Saved ranges are well formed, and the allocations of a manager always safe. */
  ghost function RecoveredRanges(g: Setting, m: Ipv6.Allocations, id: string, s: Saved): Ipv6.Allocations {
    if s.ipv6.Some? && g.firewall.ipv6Enabled && Ipv6.Safe(g.pool, m) && s.ipv6.value.Valid() then
      Ipv6.Record(m, id, Granted(g.pool, m, s.ipv6.value))
    else m
  }

  /** The files are read in any order. */
  ghost function RecoverAll(g: Setting, n: Node, order: seq<string>, env: RecoverEnv): (r: Node)
    ensures r.disk == n.disk
  {
    if order == [] then n
    else RecoverOne(g, RecoverAll(g, n, order[..|order| - 1], env), order[|order| - 1], env)
  }

  // ---- what is rebuilt ----

  ghost function LiveVms(vms: map<string, Handle>, done: set<string>, env: RecoverEnv): map<string, Handle>
    requires done <= vms.Keys
  {
    map id | id in done :: vms[id].(state := StateOf(id, env))
  }

  ghost function LiveOffsets(g: Setting, vms: map<string, Handle>, done: set<string>): set<Ipv4.Offset>
    requires done <= vms.Keys
  {
    set id | id in done :: OffsetFor(g, vms[id])
  }

  ghost function LiveRanges(vms: map<string, Handle>, done: set<string>): Ipv6.Allocations
    requires done <= vms.Keys
  {
    map id | id in done && vms[id].ipv6.Some? :: vms[id].ipv6.value
  }

  function ForwardsOf(m: Forwards, done: set<string>): Forwards { map k | k in m && m[k].vmId in done :: m[k] }

  /** The ledger a recovery of these VMs should give. */
  ghost predicate Rebuilt(g: Setting, n: Node, r: Node, done: set<string>, env: RecoverEnv) {
    && done <= n.vms.Keys
    && r.vms == LiveVms(n.vms, done, env)
    && r.used == LiveOffsets(g, n.vms, done)
    && r.ipv6 == LiveRanges(n.vms, done)
    && r.forwards == ForwardsOf(n.forwards, done)
    && r.disk == n.disk
  }

  function Elements(order: seq<string>): set<string> { set id | id in order }

  ghost predicate ReadOnce(order: seq<string>) { forall i, j :: 0 <= i < j < |order| ==> order[i] != order[j] }

  ghost predicate ListsIds(order: seq<string>, ids: set<string>) { ReadOnce(order) && Elements(order) == ids }

  lemma SplitLast(order: seq<string>)
    requires ReadOnce(order) && order != []
    ensures var before, id := order[..|order| - 1], order[|order| - 1];
            && order == before + [id] && ReadOnce(before) && id !in before
            && Elements(order) == Elements(before) + {id}
  {
  }

  lemma KeysOfHead(fs: seq<PortForward>)
    requires fs != []
    ensures KeysOf(fs) == {KeyOf(fs[0])} + KeysOf(fs[1..])
  {
    assert forall i :: 0 < i < |fs| ==> fs[i] == fs[1..][i - 1];
    assert forall i :: 0 <= i < |fs| - 1 ==> fs[1..][i] == fs[i + 1];
  }

  lemma {:induction false} AddedIs(m: Forwards, fs: seq<PortForward>, all: Forwards)
    requires forall i :: 0 <= i < |fs| ==> KeyOf(fs[i]) in all && all[KeyOf(fs[i])] == fs[i]
    ensures Added(m, fs).Keys == m.Keys + KeysOf(fs)
    ensures forall k :: k in Added(m, fs) ==> Added(m, fs)[k] == if k in KeysOf(fs) then all[k] else m[k]
    decreases |fs|
  {
    if fs != [] {
      AddedIs(m[KeyOf(fs[0]) := fs[0]], fs[1..], all);
      KeysOfHead(fs);
    }
  }

  lemma ForwardsRebuilt(m: Forwards, done: set<string>, id: string, listed: seq<PortForward>)
    requires Keyed(m) && Lists(listed, OfVm(m, id)) && id !in done
    ensures Added(ForwardsOf(m, done), listed) == ForwardsOf(m, done + {id})
  {
    AddedIs(ForwardsOf(m, done), listed, m);
    ListedKeys(listed, OfVm(m, id));
  }

  lemma VmsRebuilt(vms: map<string, Handle>, done: set<string>, id: string, s: Saved, env: RecoverEnv)
    requires done <= vms.Keys && id in vms && Matches(s, vms[id])
    ensures LiveVms(vms, done, env)[id := Restored(s, StateOf(id, env))] == LiveVms(vms, done + {id}, env)
  {
  }

  lemma OffsetsRebuilt(g: Setting, vms: map<string, Handle>, done: set<string>, id: string, s: Saved)
    requires done <= vms.Keys && id in vms && Matches(s, vms[id])
    ensures LiveOffsets(g, vms, done) + {Ipv4.OffsetOf(g.gateway, s.ip)} == LiveOffsets(g, vms, done + {id})
  {
  }

  lemma LiveRangesSafe(g: Setting, n: Node, done: set<string>)
    requires RangesExclusive(g, n) && done <= n.vms.Keys
    ensures Ipv6.Safe(g.pool, LiveRanges(n.vms, done))
  {
    var m := LiveRanges(n.vms, done);
    forall v | v in m ensures v in n.ipv6 && m[v] == n.ipv6[v] {}
  }

  /** A saved range is always free again when its turn comes. */
  lemma RangeIsFree(g: Setting, n: Node, done: set<string>, id: string)
    requires RangesExclusive(g, n) && done <= n.vms.Keys && id in n.vms && id !in done && n.vms[id].ipv6.Some?
    ensures Ipv6.Safe(g.pool, LiveRanges(n.vms, done)) && n.vms[id].ipv6.value.Valid()
    ensures Granted(g.pool, LiveRanges(n.vms, done), n.vms[id].ipv6.value) == Ok(n.vms[id].ipv6.value)
  {
    var m := LiveRanges(n.vms, done);
    LiveRangesSafe(g, n, done);
    forall v | v in m ensures !Ipv6.Overlaps(n.vms[id].ipv6.value, m[v]) {
      assert n.ipv6[v] == m[v] && v != id;
    }
  }

  lemma NextRange(vms: map<string, Handle>, done: set<string>, id: string)
    requires done <= vms.Keys && id in vms
    ensures LiveRanges(vms, done + {id})
         == if vms[id].ipv6.Some? then LiveRanges(vms, done)[id := vms[id].ipv6.value] else LiveRanges(vms, done)
  {
  }

  lemma RangesRebuilt(g: Setting, n: Node, done: set<string>, id: string, s: Saved)
    requires RangesExclusive(g, n) && done <= n.vms.Keys && id in n.vms && id !in done && s.ipv6 == n.vms[id].ipv6
    ensures RecoveredRanges(g, LiveRanges(n.vms, done), id, s) == LiveRanges(n.vms, done + {id})
  {
    NextRange(n.vms, done, id);
    if s.ipv6.Some? { RangeIsFree(g, n, done, id); }
  }

  lemma OneRebuilt(g: Setting, n: Node, r: Node, done: set<string>, id: string, env: RecoverEnv)
    requires RangesExclusive(g, n) && Keyed(n.forwards) && id in n.vms && id !in done && Rebuilt(g, n, r, done, env)
    requires id in n.disk && Matches(n.disk[id], n.vms[id]) && Lists(n.disk[id].forwards, OfVm(n.forwards, id))
    ensures Rebuilt(g, n, RecoverOne(g, r, id, env), done + {id}, env)
  {
    var s := n.disk[id];
    ForwardsRebuilt(n.forwards, done, id, s.forwards);
    VmsRebuilt(n.vms, done, id, s, env);
    OffsetsRebuilt(g, n.vms, done, id, s);
    RangesRebuilt(g, n, done, id, s);
  }

  /** A manager that has recovered nothing yet. */
  ghost predicate Blank(g: Setting, f: Node, disk: map<string, Saved>) {
    && f.vms == map[] && f.used == {} && f.ipv6 == map[] && f.forwards == map[] && f.disk == disk
    && Numa.Bounded(f.numa) && g.pool.Valid()
  }

  lemma RecoverLast(g: Setting, f: Node, before: seq<string>, id: string, env: RecoverEnv)
    ensures RecoverAll(g, f, before + [id], env) == RecoverOne(g, RecoverAll(g, f, before, env), id, env)
  {
    assert (before + [id])[..|before|] == before;
  }

  lemma RecoverNext(g: Setting, f: Node, order: seq<string>, i: nat, env: RecoverEnv)
    requires i < |order|
    ensures RecoverAll(g, f, order[..i + 1], env) == RecoverOne(g, RecoverAll(g, f, order[..i], env), order[i], env)
  {
    assert order[..i + 1] == order[..i] + [order[i]];
    RecoverLast(g, f, order[..i], order[i], env);
  }

  lemma ElementsAppend(before: seq<string>, id: string)
    ensures Elements(before + [id]) == Elements(before) + {id}
  {
  }

  lemma LastRebuilt(g: Setting, n: Node, f: Node, before: seq<string>, id: string, env: RecoverEnv)
    requires RangesExclusive(g, n) && Keyed(n.forwards) && id in n.vms && id !in before
    requires id in n.disk && Matches(n.disk[id], n.vms[id]) && Lists(n.disk[id].forwards, OfVm(n.forwards, id))
    requires Rebuilt(g, n, RecoverAll(g, f, before, env), Elements(before), env)
    ensures Rebuilt(g, n, RecoverAll(g, f, before + [id], env), Elements(before + [id]), env)
  {
    OneRebuilt(g, n, RecoverAll(g, f, before, env), Elements(before), id, env);
    RecoverLast(g, f, before, id, env);
    ElementsAppend(before, id);
  }

  lemma NothingRebuilt(g: Setting, n: Node, f: Node, env: RecoverEnv)
    requires Blank(g, f, n.disk)
    ensures Rebuilt(g, n, RecoverAll(g, f, [], env), Elements([]), env)
  {
  }

  lemma {:induction false} PrefixRebuilt(g: Setting, n: Node, f: Node, order: seq<string>, env: RecoverEnv)
    requires Sound(g, n) && Mirrored(n) && Blank(g, f, n.disk)
    requires ReadOnce(order) && Elements(order) <= n.vms.Keys
    ensures Rebuilt(g, n, RecoverAll(g, f, order, env), Elements(order), env)
  {
    assert forall id :: id in order ==> id in Elements(order);
    if order == [] {
      NothingRebuilt(g, n, f, env);
    } else {
      SplitLast(order);
      var before, id := order[..|order| - 1], order[|order| - 1];
      PrefixRebuilt(g, n, f, before, env);
      LastRebuilt(g, n, f, before, id, env);
    }
  }

  lemma PartRebuilt(g: Setting, n: Node, r: Node, done: set<string>, env: RecoverEnv)
    requires AddressesExclusive(g, n) && ForwardsOwned(n) && Rebuilt(g, n, r, done, env)
    ensures r.used <= n.used && (done == n.vms.Keys ==> r.forwards == n.forwards)
  {
  }

  /** From a mirrored disk, and in whatever order its files are read, a fresh manager rebuilds the
      VMs whose files were read, the offsets and ranges they hold, and their port forwards: all of
      them when every file was read. Offsets and ranges that failed creations had leaked are free
      again. */
  lemma RecoveryRebuilds(g: Setting, n: Node, f: Node, order: seq<string>, env: RecoverEnv)
    requires Sound(g, n) && Mirrored(n) && Blank(g, f, n.disk) && ReadOnce(order) && Elements(order) <= n.vms.Keys
    ensures var r := RecoverAll(g, f, order, env);
            && Rebuilt(g, n, r, Elements(order), env) && r.used <= n.used
            && (Elements(order) == n.vms.Keys ==> r.forwards == n.forwards)
  {
    PrefixRebuilt(g, n, f, order, env);
    PartRebuilt(g, n, RecoverAll(g, f, order, env), Elements(order), env);
  }

  // ---- after recovery ----

  lemma {:induction false} RecoveryKeepsBounds(g: Setting, f: Node, order: seq<string>, env: RecoverEnv)
    requires Numa.Bounded(f.numa)
    ensures Numa.Bounded(RecoverAll(g, f, order, env).numa)
  {
    if order != [] {
      var before, id := order[..|order| - 1], order[|order| - 1];
      RecoveryKeepsBounds(g, f, before, env);
      if id in f.disk {
        AllocateBounded(RecoverAll(g, f, before, env).numa, NumaRequest(f.disk[id].config), f.disk[id].numaNode);
      }
    }
  }

  lemma RebuiltAddresses(g: Setting, n: Node, r: Node, done: set<string>, env: RecoverEnv)
    requires AddressesExclusive(g, n) && Rebuilt(g, n, r, done, env)
    ensures AddressesExclusive(g, r)
  {
    assert forall id :: id in r.vms <==> id in done;
    assert forall id :: id in r.vms ==> r.vms[id].ip == n.vms[id].ip;
  }

  lemma RebuiltRanges(g: Setting, n: Node, r: Node, done: set<string>, env: RecoverEnv)
    requires RangesExclusive(g, n) && Rebuilt(g, n, r, done, env) && Ipv6.Safe(g.pool, r.ipv6)
    ensures RangesExclusive(g, r)
  {
    assert forall id :: id in r.vms <==> id in done;
    assert forall id :: id in r.vms ==> r.vms[id].ipv6 == n.vms[id].ipv6;
  }

  lemma OwnForwards(m: Forwards, done: set<string>, id: string)
    requires id in done
    ensures OfVm(ForwardsOf(m, done), id) == OfVm(m, id)
  {
  }

  lemma OneMirrored(g: Setting, n: Node, r: Node, done: set<string>, env: RecoverEnv, id: string)
    requires Mirrored(n) && Rebuilt(g, n, r, done, env) && id in done
    ensures id in r.disk && id in r.vms
    ensures Matches(r.disk[id], r.vms[id]) && Lists(r.disk[id].forwards, OfVm(r.forwards, id))
  {
    assert Matches(n.disk[id], n.vms[id]) && r.vms[id] == n.vms[id].(state := StateOf(id, env));
    OwnForwards(n.forwards, done, id);
  }

  /** The rebuilt ledger mirrors the disk exactly when no file was missed. */
  lemma RebuiltMirrorsExactlyWhen(g: Setting, n: Node, r: Node, done: set<string>, env: RecoverEnv)
    requires ForwardsOwned(n) && Mirrored(n) && Rebuilt(g, n, r, done, env)
    ensures ForwardsOwned(r)
    ensures Mirrored(r) <==> done == n.vms.Keys
  {
    assert r.vms.Keys == done;
    forall id | id in done
      ensures id in r.disk && id in r.vms
      ensures Matches(r.disk[id], r.vms[id]) && Lists(r.disk[id].forwards, OfVm(r.forwards, id))
    {
      OneMirrored(g, n, r, done, env, id);
    }
  }

  /** What is rebuilt is a sound ledger again, and mirrors the disk exactly when every file was
      read. */
  lemma RecoveredIsSound(g: Setting, n: Node, f: Node, order: seq<string>, env: RecoverEnv)
    requires Sound(g, n) && Mirrored(n) && Blank(g, f, n.disk) && ReadOnce(order) && Elements(order) <= n.vms.Keys
    ensures Sound(g, RecoverAll(g, f, order, env))
    ensures Mirrored(RecoverAll(g, f, order, env)) <==> Elements(order) == n.vms.Keys
  {
    RecoveryRebuilds(g, n, f, order, env);
    RecoveryKeepsBounds(g, f, order, env);
    var r, done := RecoverAll(g, f, order, env), Elements(order);
    RebuiltAddresses(g, n, r, done, env);
    LiveRangesSafe(g, n, done);
    RebuiltRanges(g, n, r, done, env);
    RebuiltMirrorsExactlyWhen(g, n, r, done, env);
  }
}
