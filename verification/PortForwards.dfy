/** In-memory port forwards: one owner per (host port, protocol). */
module PortForwards {
  import opened Wrappers
  import opened Words

  datatype Protocol = Tcp | Udp

  datatype PortForward = PortForward(vmId: string, hostPort: U16, vmPort: U16, protocol: Protocol)

  type Key = (U16, Protocol)
  type Forwards = map<Key, PortForward>

  function KeyOf(f: PortForward): Key { (f.hostPort, f.protocol) }

  /** Every entry is filed under its own port and protocol. */
  ghost predicate Keyed(m: Forwards) {
    forall k :: k in m ==> KeyOf(m[k]) == k
  }

  /** The lowest free port at or above start. */
  function AutoPort(m: Forwards, protocol: Protocol, start: nat): (p: Option<U16>)
    requires start <= TWO16
    ensures p.Some? ==> start <= p.value && (p.value, protocol) !in m
                        && forall q: U16 :: start <= q < p.value ==> (q, protocol) in m
    ensures p.None? ==> forall q: U16 :: start <= q ==> (q, protocol) in m
    decreases TWO16 - start
  {
    if start == TWO16 then None
    else if (start, protocol) !in m then Some(start)
    else AutoPort(m, protocol, start + 1)
  }

  function OfVm(m: Forwards, vm: string): Forwards {
    map k | k in m && m[k].vmId == vm :: m[k]
  }

  function WithoutVm(m: Forwards, vm: string): Forwards {
    map k | k in m && m[k].vmId != vm :: m[k]
  }

  /** The list holds each value of the map exactly once, in some order. */
  ghost predicate Lists(s: seq<PortForward>, m: Forwards) {
    && Keyed(m)
    && (forall i :: 0 <= i < |s| ==> KeyOf(s[i]) in m && m[KeyOf(s[i])] == s[i])
    && (forall i, j :: 0 <= i < j < |s| ==> KeyOf(s[i]) != KeyOf(s[j]))
    && (forall k :: k in m ==> m[k] in s)
  }

  function KeysOf(fs: seq<PortForward>): set<Key> { set i | 0 <= i < |fs| :: KeyOf(fs[i]) }

  lemma ListedKeys(listed: seq<PortForward>, m: Forwards)
    requires Lists(listed, m)
    ensures KeysOf(listed) == m.Keys
  {
    forall k | k in m ensures k in KeysOf(listed) {
      var i :| 0 <= i < |listed| && listed[i] == m[k];
      assert KeyOf(listed[i]) == k;
    }
  }

  /** A list lists the values of one map only. */
  lemma ListsSameKeys(s: seq<PortForward>, a: Forwards, b: Forwards)
    ensures Lists(s, a) && Lists(s, b) ==> a.Keys == b.Keys
  {
    if Lists(s, a) { ListedKeys(s, a); }
    if Lists(s, b) { ListedKeys(s, b); }
  }

  class PortForwardState {
    var forwards: Forwards

    ghost predicate Valid()
      reads this
    {
      Keyed(forwards)
    }

    constructor ()
      ensures Valid() && forwards == map[]
    {
      forwards := map[];
    }

    predicate IsAvailable(hostPort: U16, protocol: Protocol)
      reads this
    {
      (hostPort, protocol) !in forwards
    }

    method AutoAllocate(protocol: Protocol, start: U16) returns (p: Option<U16>)
      ensures p == AutoPort(forwards, protocol, start)
    {
      var port: nat := start;
      while port < TWO16
        invariant start <= port <= TWO16
        invariant AutoPort(forwards, protocol, port) == AutoPort(forwards, protocol, start)
      {
        if IsAvailable(port, protocol) {
          return Some(port);
        }
        port := port + 1;
      }
      p := None;
    }

    method Add(f: PortForward)
      requires Valid()
      modifies this
      ensures Valid() && forwards == old(forwards)[KeyOf(f) := f]
    {
      forwards := forwards[KeyOf(f) := f];
    }

    method Remove(hostPort: U16, protocol: Protocol) returns (r: Option<PortForward>)
      requires Valid()
      modifies this
      ensures Valid() && forwards == old(forwards) - {(hostPort, protocol)}
      ensures r == if (hostPort, protocol) in old(forwards) then Some(old(forwards)[(hostPort, protocol)]) else None
    {
      var key := (hostPort, protocol);
      r := if key in forwards then Some(forwards[key]) else None;
      forwards := forwards - {key};
    }

    /** The entries of one VM, in the arbitrary order of a hash map. */
    method ListForVm(vmId: string) returns (s: seq<PortForward>)
      requires Valid()
      ensures Lists(s, OfVm(forwards, vmId))
    {
      s := Values(OfVm(forwards, vmId));
    }

    method RemoveAllForVm(vmId: string) returns (removed: seq<PortForward>)
      requires Valid()
      modifies this
      ensures Valid() && forwards == WithoutVm(old(forwards), vmId)
      ensures Lists(removed, OfVm(old(forwards), vmId))
    {
      removed := ListForVm(vmId);
      var i := 0;
      while i < |removed|
        invariant i <= |removed|
        invariant forall k :: k in forwards <==> k in old(forwards) && forall j :: 0 <= j < i ==> KeyOf(removed[j]) != k
        invariant forall k :: k in forwards ==> forwards[k] == old(forwards)[k]
      {
        var gone := Remove(removed[i].hostPort, removed[i].protocol);
        i := i + 1;
      }
      forall k | k in old(forwards) && old(forwards)[k].vmId == vmId
        ensures k !in forwards
      {
        var gone := OfVm(old(forwards), vmId);
        assert k in gone && gone[k] in removed;
        var j :| 0 <= j < |removed| && removed[j] == gone[k];
        assert KeyOf(removed[j]) == k;
      }
    }
  }

  method Values(m: Forwards) returns (s: seq<PortForward>)
    requires Keyed(m)
    ensures Lists(s, m)
  {
    s := [];
    var rest := m;
    while rest != map[]
      invariant forall k :: k in rest ==> k in m && rest[k] == m[k]
      invariant forall i :: 0 <= i < |s| ==> KeyOf(s[i]) in m && m[KeyOf(s[i])] == s[i] && KeyOf(s[i]) !in rest
      invariant forall i, j :: 0 <= i < j < |s| ==> KeyOf(s[i]) != KeyOf(s[j])
      invariant forall k :: k in m ==> k in rest || m[k] in s
      decreases |rest|
    {
      var k :| k in rest;
      s := s + [rest[k]];
      rest := rest - {k};
    }
  }
}
