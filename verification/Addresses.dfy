/**
 Addresses and CIDR networks, and the IPv4 network an IPv6 network carries.
 An address is its bits, most significant first: 32 of them for IPv4, 128 for IPv6.
 */
module Addresses {

  import opened Options

  const V4 := 32
  const V6 := 128

  type Addr = a: seq<bool> | |a| == V4 || |a| == V6 witness Zeros(V4)

  function Zeros(n: nat): (z: seq<bool>)
    ensures |z| == n && forall i :: 0 <= i < n ==> !z[i]
  {
    seq(n, _ => false)
  }

  /** netip.Prefix: an address and how many of its bits are the network's. */
  datatype Prefix = Prefix(addr: Addr, bits: nat) {
    predicate Valid() {
      bits <= |addr|
    }

    predicate Contains(a: Addr)
      requires Valid()
    {
      |a| == |addr| && a[..bits] == addr[..bits]
    }

    function Masked(): (m: Prefix)
      requires Valid()
      ensures m.Valid() && m.bits == bits && |m.addr| == |addr|
      ensures m.addr[..bits] == addr[..bits]
      ensures forall i :: bits <= i < |addr| ==> !m.addr[i]
    {
      Prefix(addr[..bits] + Zeros(|addr| - bits), bits)
    }

    /** Every address of inner is one of this network's. */
    predicate Holds(inner: Prefix)
      requires Valid() && inner.Valid()
    {
      bits <= inner.bits && Contains(inner.addr)
    }
  }

  predicate HostBitsZero(p: Prefix) {
    p.Valid() && p.Masked() == p
  }

  function Single(a: Addr): (p: Prefix)
    ensures HostBitsZero(p)
  {
    var p := Prefix(a, |a|);
    assert p.Masked().addr == a;
    p
  }

  /** The sixteen-bit groups ffff, 2002, 0064, ff9b and 0001. */
  const GROUP_FFFF: seq<bool> := [true, true, true, true, true, true, true, true, true, true, true, true, true, true, true, true]
  const GROUP_2002: seq<bool> := [false, false, true, false, false, false, false, false, false, false, false, false, false, false, true, false]
  const GROUP_0064: seq<bool> := [false, false, false, false, false, false, false, false, false, true, true, false, false, true, false, false]
  const GROUP_FF9B: seq<bool> := [true, true, true, true, true, true, true, true, true, false, false, true, true, false, true, true]
  const GROUP_0001: seq<bool> := [false, false, false, false, false, false, false, false, false, false, false, false, false, false, false, true]

  /** ::ffff:0:0/96, 64:ff9b::/96, 2002::/16 and RFC 8215's 64:ff9b:1::/48. */
  const MAPPED: Prefix := Prefix(Zeros(80) + GROUP_FFFF + Zeros(32), 96)
  const NAT64: Prefix := Prefix(GROUP_0064 + GROUP_FF9B + Zeros(96), 96)
  const SIX_TO_4: Prefix := Prefix(GROUP_2002 + Zeros(112), 16)
  const NAT64_LOCAL: Prefix := Prefix(GROUP_0064 + GROUP_FF9B + GROUP_0001 + Zeros(80), 48)
  const ALL_V4: Prefix := Prefix(Zeros(V4), 0)

  /** Strictly wider than the embedding range t and holding it. */
  predicate WiderThan(p: Prefix, t: Prefix)
    requires p.Valid()
  {
    p.bits < t.bits && p.Contains(t.addr)
  }

  /** The guard of Carried's first branch: p holds the whole of a range that embeds IPv4, and more. */
  predicate Wide(p: Prefix)
    requires p.Valid()
  {
    WiderThan(p, MAPPED) || WiderThan(p, NAT64) || WiderThan(p, SIX_TO_4)
  }

  function Max(a: int, b: int): int { if a > b then a else b }
  function Min(a: int, b: int): int { if a < b then a else b }

  /** gate.Carried */
  function Carried(p: Prefix): (c: Option<Prefix>)
    requires p.Valid()
    ensures c.Some? ==> |p.addr| == V6 && |c.value.addr| == V4 && c.value.Valid()
  {
    if |p.addr| != V6 then None
    else if Wide(p) then Some(ALL_V4)
    else if MAPPED.Contains(p.addr) || NAT64.Contains(p.addr) then
      Some(Prefix(p.addr[96..128], Max(p.bits, 96) - 96).Masked())
    else if SIX_TO_4.Contains(p.addr) then
      Some(Prefix(p.addr[16..48], Max(Min(p.bits, 48) - 16, 0)).Masked())
    else None
  }

  /** gate.Forms, for an address without a zone. */
  function Forms(a: Addr): (f: seq<Addr>)
    ensures |f| >= 1 && f[0] == a
  {
    match Carried(Single(a))
    case None => [a]
    case Some(c) => [a, c.addr]
  }

  lemma HoldsTransitive(p: Prefix, q: Prefix, r: Prefix)
    requires p.Valid() && q.Valid() && r.Valid() && p.Holds(q) && q.Holds(r)
    ensures p.Holds(r)
  {
    assert r.addr[..p.bits] == r.addr[..q.bits][..p.bits];
    assert q.addr[..p.bits] == q.addr[..q.bits][..p.bits];
  }

  lemma HoldsContains(p: Prefix, q: Prefix, a: Addr)
    requires p.Valid() && q.Valid() && p.Holds(q) && q.Contains(a)
    ensures p.Contains(a)
  {
    HoldsTransitive(p, q, Single(a));
  }

  lemma HoldsAntisymmetric(p: Prefix, q: Prefix)
    requires HostBitsZero(p) && HostBitsZero(q) && p.Holds(q) && q.Holds(p)
    ensures p == q
  {
    assert p.addr[..p.bits] == q.addr[..p.bits];
    assert p.Masked().addr == q.Masked().addr;
  }

  /** A network strictly inside a wide one is inside a range, or the wide one holds the range. */
  lemma Comparable(p: Prefix, q: Prefix, t: Prefix)
    requires p.Valid() && q.Valid() && t.Valid() && p.Holds(q) && t.Contains(q.addr)
    ensures p.bits < t.bits ==> p.Contains(t.addr)
    ensures p.bits >= t.bits ==> t.Contains(p.addr)
  {
    if p.bits < t.bits {
      assert t.addr[..p.bits] == t.addr[..t.bits][..p.bits] == q.addr[..t.bits][..p.bits] == q.addr[..p.bits];
    } else {
      assert p.addr[..t.bits] == p.addr[..p.bits][..t.bits] == q.addr[..p.bits][..t.bits] == q.addr[..t.bits];
    }
  }

  lemma WideAbove(p: Prefix, q: Prefix)
    requires p.Valid() && q.Valid() && p.Holds(q) && Wide(q)
    ensures Wide(p)
  {
    forall t: Prefix | t.Valid() && WiderThan(q, t) ensures WiderThan(p, t) {
      HoldsContains(p, q, t.addr);
    }
  }

  /** ALL_V4 holds every IPv4 network. */
  lemma AllHolds(p: Prefix)
    requires p.Valid() && |p.addr| == V4
    ensures ALL_V4.Holds(p)
  {
  }

  /** Cutting the same window out of two nested networks keeps them nested. */
  lemma WindowHolds(p: Prefix, q: Prefix, lo: nat, pb: nat, qb: nat)
    requires p.Valid() && q.Valid() && p.Holds(q) && |p.addr| == V6
    requires lo + V4 <= V6 && pb <= qb <= V4 && lo + pb <= Max(p.bits, lo)
    ensures Prefix(p.addr[lo..lo + V4], pb).Masked().Holds(Prefix(q.addr[lo..lo + V4], qb).Masked())
  {
    var o, i := Prefix(p.addr[lo..lo + V4], pb), Prefix(q.addr[lo..lo + V4], qb);
    forall k | 0 <= k < pb ensures o.addr[k] == i.addr[k] {
      assert p.addr[..p.bits][lo + k] == q.addr[..p.bits][lo + k];
    }
    assert i.Masked().addr[..pb] == i.Masked().addr[..qb][..pb] == i.addr[..qb][..pb];
    assert o.Masked().addr[..pb] == o.addr[..pb];
  }

  /** Below a range that embeds IPv4, every network that is not wide is inside the range. */
  lemma InsideRange(p: Prefix, q: Prefix, t: Prefix)
    requires p.Valid() && q.Valid() && t.Valid() && p.Holds(q) && t.Contains(q.addr)
    requires !WiderThan(p, t)
    ensures t.bits <= p.bits && t.Contains(p.addr)
  {
    Comparable(p, q, t);
  }

  lemma LastBitsMonotone(p: Prefix, q: Prefix, t: Prefix)
    requires p.Valid() && q.Valid() && p.Holds(q) && !Wide(p) && !Wide(q)
    requires t == MAPPED || t == NAT64
    requires t.Contains(q.addr)
    ensures Carried(p).Some? && Carried(p).value.Holds(Carried(q).value)
  {
    InsideRange(p, q, t);
    InsideRange(q, q, t);
    WindowHolds(p, q, 96, p.bits - 96, q.bits - 96);
  }

  lemma SixToFourMonotone(p: Prefix, q: Prefix)
    requires p.Valid() && q.Valid() && p.Holds(q) && !Wide(p) && !Wide(q)
    requires SIX_TO_4.Contains(q.addr)
    ensures Carried(p).Some? && Carried(p).value.Holds(Carried(q).value)
  {
    InsideRange(p, q, SIX_TO_4);
    InsideRange(q, q, SIX_TO_4);
    RangesDisjoint(p.addr);
    RangesDisjoint(q.addr);
    WindowHolds(p, q, 16, Min(p.bits, 48) - 16, Min(q.bits, 48) - 16);
  }

  /** Excluding more never excludes less: a network that holds another carries what the other carries. */
  lemma CarriedMonotone(p: Prefix, q: Prefix)
    requires p.Valid() && q.Valid() && p.Holds(q) && Carried(q).Some?
    ensures Carried(p).Some? && Carried(p).value.Holds(Carried(q).value)
  {
    if Wide(q) { WideAbove(p, q); }
    if Wide(p) {
      AllHolds(Carried(q).value);
    } else if MAPPED.Contains(q.addr) {
      LastBitsMonotone(p, q, MAPPED);
    } else if NAT64.Contains(q.addr) {
      LastBitsMonotone(p, q, NAT64);
    } else {
      SixToFourMonotone(p, q);
    }
  }

  lemma Differs(t: Prefix, a: Addr, k: nat)
    requires t.Valid() && k < t.bits && k < |a| && a[k] != t.addr[k]
    ensures !t.Contains(a)
  {
    if |a| == |t.addr| {
      assert a[..t.bits][k] == a[k];
      assert t.addr[..t.bits][k] == t.addr[k];
    }
  }

  lemma RangeBits()
    ensures !MAPPED.addr[2] && !NAT64.addr[2] && SIX_TO_4.addr[2] && !NAT64_LOCAL.addr[2]
    ensures !MAPPED.addr[9] && NAT64.addr[9] && !SIX_TO_4.addr[9] && NAT64_LOCAL.addr[9]
    ensures !NAT64.addr[47] && NAT64_LOCAL.addr[47]
  {
    assert NAT64_LOCAL.addr[47] == GROUP_0001[15];
  }

  /** No address is in 2002::/16 and in another embedding range. */
  lemma RangesDisjoint(a: Addr)
    ensures SIX_TO_4.Contains(a) ==> !MAPPED.Contains(a) && !NAT64.Contains(a)
  {
    RangeBits();
    if |a| == V6 {
      if a[2] {
        Differs(MAPPED, a, 2);
        Differs(NAT64, a, 2);
      } else {
        Differs(SIX_TO_4, a, 2);
      }
    }
  }

  /** What a network carries, every network inside it carries a part of, unless it is wide. */
  lemma CarriedBelow(p: Prefix, q: Prefix)
    requires p.Valid() && q.Valid() && p.Holds(q) && Carried(p).Some? && !Wide(p)
    ensures Carried(q).Some? && Carried(p).value.Holds(Carried(q).value)
  {
    EmbeddedBelow(p, q);
    CarriedMonotone(p, q);
  }

  lemma EmbeddedBelow(p: Prefix, q: Prefix)
    requires p.Valid() && q.Valid() && p.Holds(q) && Carried(p).Some? && !Wide(p)
    ensures Carried(q).Some?
  {
    var t := if MAPPED.Contains(p.addr) then MAPPED else if NAT64.Contains(p.addr) then NAT64 else SIX_TO_4;
    InsideRange(p, p, t);
    assert q.addr[..t.bits] == q.addr[..p.bits][..t.bits];
    assert p.addr[..t.bits] == p.addr[..p.bits][..t.bits];
    assert t.Contains(q.addr);
  }

  /** The forms of an address are the address and, if it carries one, the one IPv4 address it carries. */
  lemma SingleCarries(a: Addr)
    ensures Forms(a) == [a] || (|Forms(a)| == 2 && |a| == V6 && Carried(Single(a)) == Some(Single(Forms(a)[1])))
    ensures |Forms(a)| == 1 <==> Carried(Single(a)).None?
  {
    if Carried(Single(a)).Some? {
      assert !Wide(Single(a));
      var c := Carried(Single(a)).value;
      assert c.bits == V4;
      assert c == Single(c.addr);
    }
  }

  /** The address beside a range: its last network bit turned. */
  function Beside(t: Prefix): (a: Addr)
    requires t.Valid() && t.bits > 0
    ensures |a| == |t.addr|
    ensures forall i :: 0 <= i < |a| ==> a[i] == if i == t.bits - 1 then !t.addr[i] else t.addr[i]
  {
    t.addr[t.bits - 1 := !t.addr[t.bits - 1]]
  }

  /** A wide network holds an address that carries no IPv4 address and is none of the refused literals. */
  lemma WideEscapes(p: Prefix) returns (a: Addr)
    requires p.Valid() && Wide(p)
    ensures p.Contains(a) && Carried(Single(a)) == None
    ensures !MAPPED.Contains(a) && !NAT64_LOCAL.Contains(a)
  {
    var t := if WiderThan(p, MAPPED) then MAPPED else if WiderThan(p, NAT64) then NAT64 else SIX_TO_4;
    a := Beside(t);
    RangeBits();
    assert a[..p.bits] == t.addr[..p.bits];
    Differs(t, a, t.bits - 1);
    if t != SIX_TO_4 { Differs(SIX_TO_4, a, 2); }
    if t != MAPPED { Differs(MAPPED, a, if t == NAT64 then 9 else 2); }
    if t != NAT64 { Differs(NAT64, a, if t == MAPPED then 9 else 2); }
    Differs(NAT64_LOCAL, a, if t == NAT64 then 47 else if t == MAPPED then 9 else 2);
    assert !Wide(Single(a));
  }
}
