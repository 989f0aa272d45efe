/** Allocation of IPv6 ranges from a pool, with every allocation inside the pool and
    no two overlapping. Addresses are 128-bit numbers. */
module Ipv6 {
  import opened Wrappers
  import opened Words

  const BITS: nat := 128

  function Pow2(n: nat): (p: nat)
    ensures p >= 1
  {
    if n == 0 then 1 else 2 * Pow2(n - 1)
  }

  lemma {:induction false} Pow2Add(a: nat, b: nat)
    ensures Pow2(a + b) == Pow2(a) * Pow2(b)
  {
    if a > 0 {
      Pow2Add(a - 1, b);
      MulAssoc(2, Pow2(a - 1), Pow2(b));
    }
  }

  lemma MulAssoc(a: nat, b: nat, c: nat)
    ensures (a * b) * c == a * (b * c)
  {
  }

  lemma {:induction false} Pow2Monotone(a: nat, b: nat)
    requires a <= b
    ensures Pow2(a) <= Pow2(b)
  {
    if a < b {
      Pow2Monotone(a, b - 1);
    }
  }

  /** The multiple of s at or below x, counted in steps of s. */
  function Quotient(x: nat, s: nat): (q: nat)
    requires s >= 1
    ensures q * s <= x < q * s + s
  {
    DivisionBounds(x, s);
    x / s
  }

  lemma DivisionBounds(x: nat, s: nat)
    requires s >= 1
    ensures x / s >= 0 && x / s * s <= x < x / s * s + s
  {
    assert x == x / s * s + x % s;
  }

  lemma QuotientUnique(x: nat, s: nat, q: nat)
    requires s >= 1 && q * s <= x < q * s + s
    ensures Quotient(x, s) == q
  {
    var d := Quotient(x, s);
    if d < q {
      MulMonotone(d + 1, q, s);
    } else if d > q {
      MulMonotone(q + 1, d, s);
    }
  }

  lemma MulMonotone(a: nat, b: nat, s: nat)
    requires a <= b
    ensures a * s <= b * s
  {
  }

  /** An address with a prefix length; host bits may be set, as in the parsed text. */
  datatype Net = Net(addr: nat, prefix: nat) {
    predicate Valid() { prefix <= BITS && addr < Pow2(BITS) }

    /** Number of addresses that share the prefix. */
    function Size(): (s: nat)
      requires prefix <= BITS
      ensures s >= 1
    {
      Pow2(BITS - prefix)
    }

    /** The prefix itself: the address shifted right past its host bits. */
    function Prefix(): nat
      requires prefix <= BITS
    {
      Quotient(addr, Size())
    }

    /** The address with its host bits cleared. */
    function Network(): nat
      requires prefix <= BITS
    {
      Prefix() * Size()
    }

    /** The address with its host bits set. */
    function Broadcast(): nat
      requires prefix <= BITS
    {
      Network() + Size() - 1
    }
  }

  /** The endpoint test of the source. */
  predicate Contains(pool: Net, net: Net)
    requires pool.prefix <= BITS && net.prefix <= BITS
  {
    net.Network() >= pool.Network() && net.Broadcast() <= pool.Broadcast()
  }

  /** The interval test of the source. */
  predicate Overlaps(a: Net, b: Net)
    requires a.prefix <= BITS && b.prefix <= BITS
  {
    a.Network() <= b.Broadcast() && a.Broadcast() >= b.Network()
  }

  // ---- meaning on prefixes (section 2.3 of RFC 4291) ----

  /** The address starts with the bits of the net's prefix. */
  predicate HasPrefix(net: Net, address: nat)
    requires net.prefix <= BITS
  {
    Quotient(address, net.Size()) == net.Prefix()
  }

  /** Every address of inner starts with outer's prefix: outer's prefix is no longer and
      inner's address carries it. */
  predicate PrefixContains(outer: Net, inner: Net)
    requires outer.prefix <= BITS && inner.prefix <= BITS
  {
    outer.prefix <= inner.prefix && HasPrefix(outer, inner.addr)
  }

  /** The interval of a net is the set of addresses with its prefix. */
  lemma IntervalIsPrefix(net: Net, address: nat)
    requires net.prefix <= BITS
    ensures net.Network() <= address <= net.Broadcast() <==> HasPrefix(net, address)
  {
    var s := net.Size();
    if net.Network() <= address <= net.Broadcast() {
      QuotientUnique(address, s, net.Prefix());
    }
    assert Quotient(address, s) * s <= address < Quotient(address, s) * s + s;
  }

  /** Blocks of s and of k * s addresses around the same address: the small one is inside. */
  lemma MultiplesNest(x: nat, s: nat, k: nat, q: nat, p: nat)
    requires s >= 1 && q * s <= x < q * s + s
    requires p * (k * s) <= x < p * (k * s) + k * s
    ensures p * (k * s) <= q * s && q * s + s <= p * (k * s) + k * s
  {
    MulAssoc(p, k, s);
    if q < p * k {
      MulMonotone(q + 1, p * k, s);
    }
    MulMonotone(p * k, q, s);
    if q >= p * k + k {
      MulMonotone(p * k + k, q, s);
    }
    MulMonotone(q + 1, p * k + k, s);
  }

  lemma SizeRatio(outer: Net, inner: Net)
    requires outer.prefix <= inner.prefix <= BITS
    ensures outer.Size() == Pow2(inner.prefix - outer.prefix) * inner.Size()
  {
    Pow2Add(inner.prefix - outer.prefix, BITS - inner.prefix);
  }

  /** A shared address makes the longer prefix lie inside the shorter one. */
  lemma BlocksNest(outer: Net, inner: Net, address: nat)
    requires outer.prefix <= inner.prefix <= BITS
    requires HasPrefix(outer, address) && HasPrefix(inner, address)
    ensures outer.Network() <= inner.Network() && inner.Broadcast() <= outer.Broadcast()
    ensures HasPrefix(outer, inner.addr)
  {
    SizeRatio(outer, inner);
    MultiplesNest(address, inner.Size(), Pow2(inner.prefix - outer.prefix), inner.Prefix(), outer.Prefix());
    IntervalIsPrefix(outer, inner.addr);
  }

  lemma LongerIsSmaller(a: Net, b: Net)
    requires a.prefix < b.prefix <= BITS
    ensures a.Size() >= 2 * b.Size()
  {
    Pow2Monotone(BITS - b.prefix + 1, BITS - a.prefix);
  }

  /** The endpoint test is prefix containment. */
  lemma ContainsIffPrefix(pool: Net, net: Net)
    requires pool.Valid() && net.Valid()
    ensures Contains(pool, net) <==> PrefixContains(pool, net)
  {
    if PrefixContains(pool, net) {
      BlocksNest(pool, net, net.addr);
    }
    if Contains(pool, net) {
      IntervalIsPrefix(pool, net.addr);
      if net.prefix < pool.prefix {
        LongerIsSmaller(net, pool);
      }
    }
  }

  lemma OverlapMeansNested(a: Net, b: Net)
    requires a.Valid() && b.Valid() && Overlaps(a, b)
    ensures PrefixContains(a, b) || PrefixContains(b, a)
    ensures exists x: nat :: HasPrefix(a, x) && HasPrefix(b, x)
  {
    var x := if a.Network() >= b.Network() then a.Network() else b.Network();
    IntervalIsPrefix(a, x);
    IntervalIsPrefix(b, x);
    assert HasPrefix(a, x) && HasPrefix(b, x);
    if a.prefix <= b.prefix { BlocksNest(a, b, x); } else { BlocksNest(b, a, x); }
  }

  lemma SharedMeansOverlap(a: Net, b: Net, x: nat)
    requires a.Valid() && b.Valid() && HasPrefix(a, x) && HasPrefix(b, x)
    ensures Overlaps(a, b)
  {
    IntervalIsPrefix(a, x);
    IntervalIsPrefix(b, x);
  }

  /** The interval test holds exactly when one prefix contains the other, and exactly when
      some address carries both prefixes. */
  lemma OverlapsIffNested(a: Net, b: Net)
    requires a.Valid() && b.Valid()
    ensures Overlaps(a, b) <==> PrefixContains(a, b) || PrefixContains(b, a)
    ensures Overlaps(a, b) <==> exists x: nat :: HasPrefix(a, x) && HasPrefix(b, x)
  {
    if Overlaps(a, b) { OverlapMeansNested(a, b); }
    if x: nat :| HasPrefix(a, x) && HasPrefix(b, x) { SharedMeansOverlap(a, b, x); }
    if PrefixContains(a, b) { SharedMeansOverlap(a, b, b.addr); }
    if PrefixContains(b, a) { SharedMeansOverlap(a, b, a.addr); }
  }

  // ---- the allocator ----

  type Allocations = map<string, Net>

  datatype Ipv6Error = NotInPool | Overlapping | Exhausted | BadPrefix | EmptyDrawRange

  predicate Taken(allocations: Allocations, net: Net)
    requires net.prefix <= BITS && forall vm :: vm in allocations ==> allocations[vm].prefix <= BITS
  {
    exists vm :: vm in allocations && Overlaps(net, allocations[vm])
  }

  /** Everything allocated lies in the pool and no two allocations overlap. */
  ghost predicate Safe(pool: Net, allocations: Allocations) {
    && pool.Valid()
    && (forall vm :: vm in allocations ==> allocations[vm].Valid() && Contains(pool, allocations[vm]))
    && (forall v, w :: v in allocations && w in allocations && v != w ==> !Overlaps(allocations[v], allocations[w]))
  }

  // ---- drawing at random ----

  const ATTEMPTS: nat := 100

  /** A draw is at least 1 and below the number of host addresses or the largest 64-bit number. */
  predicate Drawable(pool: Net, x: nat)
    requires pool.prefix <= BITS
  {
    1 <= x && if pool.Size() <= TWO64 - 1 then x < pool.Size() else x < TWO64 - 1
  }

  /** The net a draw stands for. */
  function DrawnNet(pool: Net, defaultPrefix: nat, x: nat): Net
    requires pool.prefix <= BITS
  {
    Net(pool.Network() + x, defaultPrefix)
  }

  predicate Usable(pool: Net, allocations: Allocations, net: Net)
    requires pool.prefix <= BITS && net.prefix <= BITS
    requires forall vm :: vm in allocations ==> allocations[vm].prefix <= BITS
  {
    Contains(pool, net) && !Taken(allocations, net)
  }

  /** No draw so far gave a usable net. */
  ghost predicate AllRefused(pool: Net, defaultPrefix: nat, allocations: Allocations, draws: seq<nat>)
    requires Safe(pool, allocations) && defaultPrefix <= BITS
  {
    forall i :: 0 <= i < |draws| ==>
      Drawable(pool, draws[i]) && !Usable(pool, allocations, DrawnNet(pool, defaultPrefix, draws[i]))
  }

  /** After refused draws the allocator answers with the next one if it is usable, and gives up
      after 100 of them. */
  ghost predicate DrawsLeadTo(pool: Net, defaultPrefix: nat, allocations: Allocations, draws: seq<nat>,
                              r: Result<Net, Ipv6Error>)
    requires Safe(pool, allocations) && defaultPrefix <= BITS
  {
    && AllRefused(pool, defaultPrefix, allocations, draws)
    && match r
       case Ok(net) =>
         && |draws| < ATTEMPTS && net.prefix == defaultPrefix && Usable(pool, allocations, net)
         && exists x :: Drawable(pool, x) && net == DrawnNet(pool, defaultPrefix, x)
       case Err(e) => e == Exhausted && |draws| == ATTEMPTS
  }

  /** What a request may lead to: the requested net when it is free and inside, and nothing
      else; without a request, what up to 100 draws lead to. */
  ghost predicate Permitted(pool: Net, defaultPrefix: nat, allocations: Allocations,
                            requested: Option<Net>, r: Result<Net, Ipv6Error>)
    requires Safe(pool, allocations) && (requested.Some? ==> requested.value.Valid())
  {
    match requested
    case Some(net) =>
      r == if !Contains(pool, net) then Err(NotInPool)
           else if Taken(allocations, net) then Err(Overlapping)
           else Ok(net)
    case None =>
      if pool.prefix == 0 || pool.prefix == BITS then r == Err(EmptyDrawRange)
      else if defaultPrefix > BITS then r == Err(BadPrefix)
      else exists draws :: DrawsLeadTo(pool, defaultPrefix, allocations, draws, r)
  }

  /** Whatever is granted is a proper net, inside the pool and free; without a request it has the
      default length. */
  lemma GrantedIsFree(pool: Net, defaultPrefix: nat, allocations: Allocations, requested: Option<Net>, net: Net)
    requires Safe(pool, allocations) && (requested.Some? ==> requested.value.Valid())
    requires Permitted(pool, defaultPrefix, allocations, requested, Ok(net))
    ensures net.Valid() && Contains(pool, net) && !Taken(allocations, net)
    ensures requested == None ==> net.prefix == defaultPrefix
  {
    if requested.None? {
      var draws :| DrawsLeadTo(pool, defaultPrefix, allocations, draws, Ok(net));
      var x :| Drawable(pool, x) && net == DrawnNet(pool, defaultPrefix, x);
      DrawStaysInPool(pool, x);
    }
  }

  function Record(allocations: Allocations, vm: string, r: Result<Net, Ipv6Error>): Allocations {
    if r.Ok? then allocations[vm := r.value] else allocations
  }

  class Ipv6RangeAllocator {
    const pool: Net
    const defaultPrefix: nat
    var allocations: Allocations

    ghost predicate Valid()
      reads this
    {
      Safe(pool, allocations)
    }

    constructor (pool: Net, defaultPrefix: nat)
      requires pool.Valid()
      ensures Valid() && this.pool == pool && this.defaultPrefix == defaultPrefix && allocations == map[]
    {
      this.pool := pool;
      this.defaultPrefix := defaultPrefix;
      allocations := map[];
    }

    method Allocate(vmId: string, requested: Option<Net>) returns (r: Result<Net, Ipv6Error>)
      requires Valid() && (requested.Some? ==> requested.value.Valid())
      modifies this
      ensures Valid()
      ensures Permitted(pool, defaultPrefix, old(allocations), requested, r)
      ensures allocations == Record(old(allocations), vmId, r)
    {
      var net: Net;
      if requested.Some? {
        net := requested.value;
        if !Contains(pool, net) {
          return Err(NotInPool);
        }
        if Taken(allocations, net) {
          return Err(Overlapping);
        }
      } else {
        var draw := RandomAddress();
        if draw.Err? {
          return draw;
        }
        net := draw.value;
      }
      GrantedIsFree(pool, defaultPrefix, allocations, requested, net);
      RecordSafe(pool, allocations, vmId, net);
      allocations := allocations[vmId := net];
      r := Ok(net);
    }

    method Release(vmId: string) returns (freed: Option<Net>)
      requires Valid()
      modifies this
      ensures Valid() && allocations == old(allocations) - {vmId}
      ensures freed == if vmId in old(allocations) then Some(old(allocations)[vmId]) else None
    {
      freed := if vmId in allocations then Some(allocations[vmId]) else None;
      allocations := allocations - {vmId};
    }

    /** Up to 100 draws from the host part of the pool. The draw range is empty, and the
        source panics, when the pool prefix is 0 (the shift wraps) or 128. */
    method RandomAddress() returns (r: Result<Net, Ipv6Error>)
      requires Valid()
      ensures Permitted(pool, defaultPrefix, allocations, None, r)
    {
      var poolStart := pool.Network();
      if pool.prefix == 0 || pool.prefix == BITS {
        return Err(EmptyDrawRange);
      }
      var hostBits := BITS - pool.prefix;
      var hostCount := Pow2(hostBits);
      Pow2Monotone(1, hostBits);
      ghost var draws: seq<nat> := [];
      for attempt := 0 to ATTEMPTS
        invariant |draws| == attempt
        invariant defaultPrefix <= BITS ==> AllRefused(pool, defaultPrefix, allocations, draws)
        invariant attempt > 0 ==> defaultPrefix <= BITS
      {
        var offset := DrawOffset(hostCount);
        DrawStaysInPool(pool, offset);
        if defaultPrefix > BITS {
          return Err(BadPrefix);
        }
        var net := Net(poolStart + offset, defaultPrefix);
        if Contains(pool, net) && !Taken(allocations, net) {
          DrawGrants(pool, defaultPrefix, allocations, draws, offset);
          return Ok(net);
        }
        DrawRefused(pool, defaultPrefix, allocations, draws, offset);
        draws := draws + [offset];
      }
      assert DrawsLeadTo(pool, defaultPrefix, allocations, draws, Err(Exhausted));
      r := Err(Exhausted);
    }

    method DrawOffset(hostCount: nat) returns (offset: nat)
      requires pool.prefix <= BITS && hostCount == pool.Size() > 1
      ensures Drawable(pool, offset) && offset < hostCount
    {
      if hostCount <= TWO64 - 1 {
        offset := RandomBelow(hostCount);
      } else {
        offset := RandomBelow(TWO64 - 1);
      }
    }

    /** A draw from the half-open range 1..bound. */
    static method RandomBelow(bound: nat) returns (x: nat)
      requires bound > 1
      ensures 1 <= x < bound
    {
      x :| 1 <= x < bound;
    }
  }

  lemma DrawGrants(pool: Net, defaultPrefix: nat, allocations: Allocations, draws: seq<nat>, x: nat)
    requires Safe(pool, allocations) && defaultPrefix <= BITS && |draws| < ATTEMPTS
    requires AllRefused(pool, defaultPrefix, allocations, draws)
    requires Drawable(pool, x) && Usable(pool, allocations, DrawnNet(pool, defaultPrefix, x))
    ensures DrawsLeadTo(pool, defaultPrefix, allocations, draws, Ok(DrawnNet(pool, defaultPrefix, x)))
  {
  }

  lemma DrawRefused(pool: Net, defaultPrefix: nat, allocations: Allocations, draws: seq<nat>, x: nat)
    requires Safe(pool, allocations) && defaultPrefix <= BITS && AllRefused(pool, defaultPrefix, allocations, draws)
    requires Drawable(pool, x) && !Usable(pool, allocations, DrawnNet(pool, defaultPrefix, x))
    ensures AllRefused(pool, defaultPrefix, allocations, draws + [x])
  {
  }

  /** A drawn address stays in the pool, so the 128-bit addition cannot overflow. */
  lemma DrawStaysInPool(pool: Net, offset: nat)
    requires pool.Valid() && offset < pool.Size()
    ensures HasPrefix(pool, pool.Network() + offset)
    ensures pool.Network() + offset <= pool.Broadcast() < Pow2(BITS)
  {
    IntervalIsPrefix(pool, pool.Network() + offset);
    Pow2Add(pool.prefix, BITS - pool.prefix);
    MultiplesNest(pool.addr, pool.Size(), Pow2(pool.prefix), pool.Prefix(), 0);
  }

  lemma OverlapsSymmetric(a: Net, b: Net)
    requires a.prefix <= BITS && b.prefix <= BITS
    ensures Overlaps(a, b) <==> Overlaps(b, a)
  {
  }

  lemma RecordSafe(pool: Net, allocations: Allocations, vm: string, net: Net)
    requires Safe(pool, allocations) && net.Valid() && Contains(pool, net) && !Taken(allocations, net)
    ensures Safe(pool, allocations[vm := net])
  {
    var after := allocations[vm := net];
    forall v, w | v in after && w in after && v != w
      ensures !Overlaps(after[v], after[w])
    {
      if v == vm {
        assert w in allocations;
      } else if w == vm {
        assert v in allocations;
        OverlapsSymmetric(net, after[v]);
      }
    }
  }

  // ---- every run ----

  datatype Event = Allocated(vm: string, requested: Option<Net>, outcome: Result<Net, Ipv6Error>) | Released(vm: string)

  /** One call, from the allocations before it to those after it. */
  ghost predicate Step(pool: Net, defaultPrefix: nat, e: Event, before: Allocations, after: Allocations)
    requires Safe(pool, before)
  {
    match e
    case Allocated(vm, requested, outcome) =>
      && (requested.Some? ==> requested.value.Valid())
      && Permitted(pool, defaultPrefix, before, requested, outcome)
      && after == Record(before, vm, outcome)
    case Released(vm) => after == before - {vm}
  }

  /** In every run from an empty pool, whatever is requested, drawn and released, the
      allocations stay inside the pool and pairwise disjoint. */
  lemma {:induction false} EveryRunIsSafe(pool: Net, defaultPrefix: nat, es: seq<Event>, states: seq<Allocations>)
    requires pool.Valid() && |states| == |es| + 1 && states[0] == map[]
    requires forall i ::
               0 <= i < |es| && Safe(pool, states[i]) ==> Step(pool, defaultPrefix, es[i], states[i], states[i + 1])
    ensures forall i :: 0 <= i < |states| ==> Safe(pool, states[i])
  {
    if es != [] {
      var m := |es| - 1;
      EveryRunIsSafe(pool, defaultPrefix, es[..m], states[..m + 1]);
      assert Safe(pool, states[..m + 1][m]);
      StepKeepsSafe(pool, defaultPrefix, es[m], states[m], states[m + 1]);
      forall i | 0 <= i < |states|
        ensures Safe(pool, states[i])
      {
        if i <= m { assert states[..m + 1][i] == states[i]; }
      }
    }
  }

  lemma StepKeepsSafe(pool: Net, defaultPrefix: nat, e: Event, before: Allocations, after: Allocations)
    requires Safe(pool, before) && Step(pool, defaultPrefix, e, before, after)
    ensures Safe(pool, after)
  {
    if e.Allocated? && e.outcome.Ok? {
      GrantedIsFree(pool, defaultPrefix, before, e.requested, e.outcome.value);
      RecordSafe(pool, before, e.vm, e.outcome.value);
    }
  }
}
