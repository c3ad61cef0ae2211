/** What falls under a root and what an exclude covers: the order-theoretic laws of the scope. */
module ScopeAlgebra {
  import opened Options
  import opened Addresses
  import opened Text
  import opened UrlPaths
  import opened LocatorSyntax
  import opened LocatorRoundTrip

  predicate CloudOrg(r: Ref) {
    r.Cloud? && HasPrefix(r.tenant, ORGANIZATIONS)
  }

  predicate DomainUnder(name: string, d: string) {
    name != "" && (name == d || HasSuffix(name, "." + d))
  }

  predicate PathUnder(p: string, prefix: string) {
    p == prefix || (HasSuffix(prefix, "/") && HasPrefix(p, prefix)) || HasPrefix(p, prefix + "/")
  }

  /** A locator's host name, "" when it has none. */
  function NameOf(r: Ref): string {
    match r
    case Domain(name) => name
    case Url(_, Named(name), _, _) => name
    case Host(Named(name), _) => name
    case _ => ""
  }

  function AddrOf(r: Ref): Option<Addr> {
    match r
    case Url(_, Literal(a), _, _) => Some(a)
    case Host(Literal(a), _) => Some(a)
    case _ => None
  }

  predicate SameAddress(n: Netip, a: Site, b: Site) {
    SiteText(n, a) == SiteText(n, b)
  }

  predicate Under(n: Netip, c: Ref, root: Ref) {
    || Id(n, c) == Id(n, root)
    || (match root
        case Domain(d) => (c.Domain? || c.Url? || c.Host?) && DomainUnder(NameOf(c), d)
        case Network(p) =>
          p.Valid() &&
          ((AddrOf(c).Some? && p.Contains(AddrOf(c).value)) || (c.Network? && c.prefix.Valid() && p.Holds(c.prefix)))
        case Host(site, _) => c.Url? && SameAddress(n, site, c.site)
        case Url(scheme, site, port, path) =>
          c.Url? && c.scheme == scheme && SameAddress(n, c.site, site) && c.port == port && PathUnder(c.path, path)
        case SaaS(provider, tenant) => c.Repo? && provider == GITHUB && c.tenant == tenant
        case Repo(_, _, _) => false
        case Cloud(provider, _) => c.Cloud? && !CloudOrg(c) && CloudOrg(root) && c.provider == provider)
  }

  /** Where requests for the url go: port 0 stands for the default of http or https. */
  function ReadPort(r: Ref): nat
    requires r.Url?
  {
    if r.port != 0 then r.port else DefaultPort(r.scheme)
  }

  /** The addresses an exclude rules out, None when it names no address. A literal host is a network of one. */
  function ExcludePrefix(x: Ref): (p: Option<Prefix>) {
    match x
    case Network(p) => Some(p)
    case Host(Literal(a), _) => Some(Single(a))
    case _ => None
  }

  predicate HeldBy(p: Prefix, form: Addr)
    requires p.Valid()
  {
    p.Contains(form) || (Carried(p).Some? && Carried(p).value.Contains(form))
  }

  predicate AddressExcluded(x: Ref, a: Addr) {
    match ExcludePrefix(x)
    case None => false
    case Some(p) =>
      p.Valid() && (exists i :: 0 <= i < |Forms(a)| && HeldBy(p, Forms(a)[i]))
  }

  /** A network and the IPv4 network it carries. */
  function Readings(p: Prefix): (f: seq<Prefix>)
    requires p.Valid()
    ensures |f| >= 1 && f[0] == p && forall i :: 0 <= i < |f| ==> f[i].Valid()
  {
    if Carried(p).Some? then [p, Carried(p).value] else [p]
  }

  ghost predicate NetworkExcluded(x: Prefix, net: Prefix)
    requires x.Valid() && net.Valid()
  {
    exists i, j :: 0 <= i < |Readings(x)| && 0 <= j < |Readings(net)| && Readings(x)[i].Holds(Readings(net)[j])
  }

  /** networkExcluded's two loops. */
  method FindExcluded(x: Prefix, net: Prefix) returns (excluded: bool)
    requires x.Valid() && net.Valid()
    ensures excluded <==> NetworkExcluded(x, net)
  {
    var outer, inner := [x], [net];
    if Carried(x).Some? { outer := outer + [Carried(x).value]; }
    if Carried(net).Some? { inner := inner + [Carried(net).value]; }
    assert outer == Readings(x) && inner == Readings(net);
    for i := 0 to |outer|
      invariant forall k, j :: 0 <= k < i && 0 <= j < |inner| ==> !outer[k].Holds(inner[j])
    {
      for j := 0 to |inner|
        invariant forall l :: 0 <= l < j ==> !outer[i].Holds(inner[l])
      {
        if outer[i].Holds(inner[j]) { return true; }
      }
    }
    return false;
  }

  /** Excludes, for an exclude that names no organizational unit (one that does covers nothing). */
  ghost predicate Excludes(n: Netip, x: Ref, c: Ref) {
    if x.Url? && c.Url? then
      var prefix := TrimSuffix(x.path, '/');
      && SameAddress(n, x.site, c.site)
      && (x.port == c.port || ReadPort(x) == ReadPort(c))
      && (prefix == "" || c.path == prefix || HasPrefix(c.path, prefix + "/"))
    else
      || (AddrOf(c).Some? && AddressExcluded(x, AddrOf(c).value))
      || (x.Host? && c.Host? && SameAddress(n, x.site, c.site))
      || (c.Network? && c.prefix.Valid() && ExcludePrefix(x).Some? && ExcludePrefix(x).value.Valid()
          && NetworkExcluded(ExcludePrefix(x).value, c.prefix))
      || Under(n, c, x)
  }

  // ----- the same relations without ids and address texts -----

  predicate Below(c: Ref, root: Ref) {
    || c == root
    || (match root
        case Domain(d) => (c.Domain? || c.Url? || c.Host?) && DomainUnder(NameOf(c), d)
        case Network(p) =>
          p.Valid() &&
          ((AddrOf(c).Some? && p.Contains(AddrOf(c).value)) || (c.Network? && c.prefix.Valid() && p.Holds(c.prefix)))
        case Host(site, _) => c.Url? && site == c.site
        case Url(scheme, site, port, path) =>
          c.Url? && c.scheme == scheme && c.site == site && c.port == port && PathUnder(c.path, path)
        case SaaS(provider, tenant) => c.Repo? && provider == GITHUB && c.tenant == tenant
        case Repo(_, _, _) => false
        case Cloud(provider, _) => c.Cloud? && !CloudOrg(c) && CloudOrg(root) && c.provider == provider)
  }

  predicate SitePathCovered(x: Ref, c: Ref)
    requires x.Url? && c.Url?
  {
    var prefix := TrimSuffix(x.path, '/');
    && x.site == c.site
    && (x.port == c.port || ReadPort(x) == ReadPort(c))
    && (prefix == "" || c.path == prefix || HasPrefix(c.path, prefix + "/"))
  }

  ghost predicate AddressCovered(x: Ref, c: Ref) {
    || (AddrOf(c).Some? && AddressExcluded(x, AddrOf(c).value))
    || (c.Network? && c.prefix.Valid() && ExcludePrefix(x).Some? && ExcludePrefix(x).value.Valid()
        && NetworkExcluded(ExcludePrefix(x).value, c.prefix))
  }

  ghost predicate Covers(x: Ref, c: Ref) {
    if x.Url? && c.Url? then SitePathCovered(x, c)
    else AddressCovered(x, c) || (x.Host? && c.Host? && x.site == c.site) || Below(c, x)
  }

  lemma LocalIsName()
    ensures CanonicalSite(Named(LOCAL))
  {
    SplitPlain(LOCAL, '.');
    hide Split;
  }

  lemma SameAddressIs(n: Netip, r: Ref, q: Ref)
    requires Canonical(r) && Canonical(q) && Lawful(n) && (r.Url? || r.Host?) && (q.Url? || q.Host?)
    ensures SameAddress(n, r.site, q.site) <==> r.site == q.site
  {
    LocalIsName();
    if SameAddress(n, r.site, q.site) { SiteTextInjective(n, r.site, q.site); }
  }

  /** On canonical locators Under says nothing about spelling. */
  lemma UnderIs(n: Netip, c: Ref, root: Ref)
    requires Canonical(c) && Canonical(root) && Lawful(n)
    ensures Under(n, c, root) <==> Below(c, root)
  {
    hide Id, Lawful, Canonical, DomainUnder, PathUnder;
    if Id(n, c) == Id(n, root) { IdInjective(n, c, root); }
    if (root.Host? || root.Url?) && c.Url? { SameAddressIs(n, root, c); }
  }

  lemma ExcludesIs(n: Netip, x: Ref, c: Ref)
    requires Canonical(x) && Canonical(c) && Lawful(n)
    ensures Excludes(n, x, c) <==> Covers(x, c)
  {
    hide Id, Lawful, Canonical, Under, Below, AddressExcluded, NetworkExcluded;
    UnderIs(n, c, x);
    if (x.Host? || x.Url?) && (c.Host? || c.Url?) { SameAddressIs(n, x, c); }
  }

  // ----- Under is a partial order -----

  lemma DomainUnderTransitive(a: string, b: string, c: string)
    requires DomainUnder(a, b) && DomainUnder(b, c)
    ensures DomainUnder(a, c)
  {
    if a != b && b != c {
      var k := |"." + c|;
      assert a[|a| - |b|..] == ("." + b)[1..] == b;
      assert a[|a| - k..] == a[|a| - |b|..][|b| - k..];
    }
  }

  lemma PathUnderTransitive(p: string, q: string, r: string)
    requires PathUnder(p, q) && PathUnder(q, r)
    ensures PathUnder(p, r)
  {
  }

  lemma SharedName(c: Ref, b: Ref)
    requires Below(c, b) && c != b && (b.Host? || b.Url?)
    ensures c.Url? && c.site == b.site && NameOf(c) == NameOf(b) && AddrOf(c) == AddrOf(b)
  {
  }

  lemma BelowTransitive(c: Ref, b: Ref, a: Ref)
    requires Below(c, b) && Below(b, a)
    ensures Below(c, a)
  {
    if c != b && b != a {
      match a
      case Domain(d) =>
        if b.Domain? {
          DomainUnderTransitive(NameOf(c), b.name, d);
        } else {
          SharedName(c, b);
        }
      case Network(p) =>
        if b.Network? {
          if c.Network? { HoldsTransitive(p, b.prefix, c.prefix); } else { HoldsContains(p, b.prefix, AddrOf(c).value); }
        } else {
          SharedName(c, b);
        }
      case Url(_, _, _, path) => PathUnderTransitive(c.path, b.path, path);
      case _ =>
    }
  }

  lemma BelowAntisymmetric(c: Ref, root: Ref)
    requires Canonical(c) && Canonical(root) && Below(c, root) && Below(root, c)
    ensures c == root
  {
    if c.Network? && root.Network? { HoldsAntisymmetric(c.prefix, root.prefix); }
  }

  /** Reflexive, transitive, and antisymmetric up to the id. */
  lemma UnderPartialOrder(n: Netip, c: Ref, b: Ref, a: Ref)
    requires Canonical(c) && Canonical(b) && Canonical(a) && Lawful(n)
    ensures Under(n, c, c)
    ensures Under(n, c, b) && Under(n, b, a) ==> Under(n, c, a)
    ensures Under(n, c, b) && Under(n, b, c) ==> Id(n, c) == Id(n, b)
  {
    UnderIs(n, c, c);
    UnderIs(n, c, b);
    UnderIs(n, b, a);
    UnderIs(n, c, a);
    UnderIs(n, b, c);
    if Below(c, b) && Below(b, a) { BelowTransitive(c, b, a); }
    if Below(c, b) && Below(b, c) { BelowAntisymmetric(c, b); }
  }

  // ----- Excludes is monotone -----

  /** A locator's addresses, as a network. */
  function AddressesOf(c: Ref): Option<Prefix> {
    match (AddrOf(c), c)
    case (Some(a), _) => Some(Single(a))
    case (None, Network(p)) => Some(p)
    case _ => None
  }

  /** Testing an address in each of its forms is testing the network of that one address. */
  lemma AddressIsNetwork(x: Ref, a: Addr)
    requires ExcludePrefix(x).Some? && ExcludePrefix(x).value.Valid()
    ensures AddressExcluded(x, a) <==> NetworkExcluded(ExcludePrefix(x).value, Single(a))
  {
    var p, s := ExcludePrefix(x).value, Single(a);
    var forms, readings := Forms(a), Readings(s);
    SingleCarries(a);
    assert |forms| == |readings| && forall j :: 0 <= j < |forms| ==> readings[j].addr == forms[j] && readings[j].bits == |forms[j]|;
    forall j | 0 <= j < |forms|
      ensures HeldBy(p, forms[j]) <==> exists i :: 0 <= i < |Readings(p)| && Readings(p)[i].Holds(readings[j])
    {
      assert Readings(p)[0].Holds(readings[j]) <==> p.Contains(forms[j]);
      if Carried(p).Some? { assert Readings(p)[1].Holds(readings[j]) <==> Carried(p).value.Contains(forms[j]); }
    }
  }

  lemma AddressCoveredIs(x: Ref, c: Ref)
    requires Canonical(x) && Canonical(c)
    ensures AddressCovered(x, c) <==>
      ExcludePrefix(x).Some? && AddressesOf(c).Some? && NetworkExcluded(ExcludePrefix(x).value, AddressesOf(c).value)
  {
    if ExcludePrefix(x).Some? && AddrOf(c).Some? { AddressIsNetwork(x, AddrOf(c).value); }
  }

  lemma WiderExclude(p: Prefix, q: Prefix, net: Prefix)
    requires p.Valid() && q.Valid() && net.Valid() && p.Holds(q) && NetworkExcluded(q, net)
    ensures NetworkExcluded(p, net)
  {
    var i, j :| 0 <= i < |Readings(q)| && 0 <= j < |Readings(net)| && Readings(q)[i].Holds(Readings(net)[j]);
    if i == 1 { CarriedMonotone(p, q); }
    HoldsTransitive(Readings(p)[i], Readings(q)[i], Readings(net)[j]);
  }

  lemma NarrowerNetwork(x: Prefix, net: Prefix, sub: Prefix)
    requires x.Valid() && net.Valid() && sub.Valid() && net.Holds(sub) && NetworkExcluded(x, net)
    requires !Wide(net)
    ensures NetworkExcluded(x, sub)
  {
    var i, j :| 0 <= i < |Readings(x)| && 0 <= j < |Readings(net)| && Readings(x)[i].Holds(Readings(net)[j]);
    if j == 1 {
      CarriedBelow(net, sub);
      CarriedMonotone(net, sub);
    }
    HoldsTransitive(Readings(x)[i], Readings(net)[j], Readings(sub)[j]);
  }

  /** Whatever is under a locator has its addresses among the locator's, when both have addresses. */
  lemma AddressesBelow(c: Ref, r: Ref)
    requires Canonical(c) && Canonical(r) && Below(c, r) && AddressesOf(r).Some?
    ensures AddressesOf(c).Some? && AddressesOf(r).value.Holds(AddressesOf(c).value)
  {
  }

  lemma CleanPathTrim(p: string)
    requires CanonicalPath(p)
    ensures !HasSuffix(TrimSuffix(p, '/'), "/")
  {
    CanonicalShape(p);
    var t := TrimSuffix(p, '/');
    if t != "" && |t| < |p| { assert t[|t| - 1] == p[|t| - 1] && p[|t| - 1 + 1] == '/'; }
  }

  lemma UrlCoversBelow(x: Ref, r: Ref, c: Ref)
    requires x.Url? && r.Url? && c.Url? && Canonical(x) && SitePathCovered(x, r) && Below(c, r)
    ensures SitePathCovered(x, c)
  {
    CleanPathTrim(x.path);
  }

  lemma TrimmedBelow(p: string, q: string)
    requires PathUnder(p, q) && !HasSuffix(TrimSuffix(q, '/'), "/")
    ensures var prefix, prefix' := TrimSuffix(p, '/'), TrimSuffix(q, '/');
      prefix == prefix' || HasPrefix(prefix, prefix' + "/")
  {
    var prefix, prefix' := TrimSuffix(p, '/'), TrimSuffix(q, '/');
    if p != q {
      assert HasPrefix(p, prefix' + "/");
      if |p| == |prefix'| + 1 { assert p == prefix' + "/"; }
    }
  }

  lemma UrlCoversAbove(x: Ref, x': Ref, c: Ref)
    requires x.Url? && x'.Url? && c.Url? && Canonical(x) && Canonical(x') && Below(x, x') && SitePathCovered(x, c)
    ensures SitePathCovered(x', c)
  {
    CleanPathTrim(x'.path);
    if x != x' { TrimmedBelow(x.path, x'.path); }
  }

  /** An exclude that is under another covers no more than it. */
  lemma CoversMonotoneLeft(x: Ref, x': Ref, c: Ref)
    requires Canonical(x) && Canonical(x') && Canonical(c) && Below(x, x') && Covers(x, c)
    ensures Covers(x', c)
  {
    hide Canonical, NetworkExcluded;
    if x != x' {
      AddressCoveredIs(x, c);
      AddressCoveredIs(x', c);
      if x.Url? && c.Url? {
        if x'.Url? { UrlCoversAbove(x, x', c); }
        if x'.Network? { NetworkHoldsLiteral(x'.prefix, AddrOf(c).value); }
      } else if AddressCovered(x, c) {
        AddressesBelow(x, x');
        WiderExclude(ExcludePrefix(x').value, ExcludePrefix(x).value, AddressesOf(c).value);
      } else if x.Host? && c.Host? && x.site == c.site {
        if x'.Network? { NetworkHoldsLiteral(x'.prefix, AddrOf(c).value); }
      } else {
        BelowTransitive(c, x, x');
      }
    }
  }

  lemma NetworkHoldsLiteral(p: Prefix, a: Addr)
    requires p.Valid() && p.Contains(a)
    ensures NetworkExcluded(p, Single(a))
  {
    assert Readings(p)[0].Holds(Readings(Single(a))[0]);
  }

  predicate WideNetwork(r: Ref) {
    r.Network? && r.prefix.Valid() && Wide(r.prefix)
  }

  /** An exclude that covers a locator covers what is under it, unless the locator is a wide IPv6 network. */
  lemma CoversMonotoneRight(x: Ref, r: Ref, c: Ref)
    requires Canonical(x) && Canonical(r) && Canonical(c) && Covers(x, r) && Below(c, r)
    requires !WideNetwork(r)
    ensures Covers(x, c)
  {
    hide Canonical, NetworkExcluded;
    if c != r {
      AddressCoveredIs(x, r);
      AddressCoveredIs(x, c);
      if x.Url? && r.Url? {
        UrlCoversBelow(x, r, c);
      } else if AddressCovered(x, r) {
        AddressesBelow(c, r);
        SingleNotWide(r);
        NarrowerNetwork(ExcludePrefix(x).value, AddressesOf(r).value, AddressesOf(c).value);
      } else if !(x.Host? && r.Host? && x.site == r.site) {
        BelowTransitive(c, r, x);
      }
    }
  }

  lemma SingleNotWide(r: Ref)
    requires AddressesOf(r).Some? && AddressesOf(r).value.Valid() && !WideNetwork(r)
    ensures !Wide(AddressesOf(r).value)
  {
  }

  /** If x is under x' and x excludes c then x' excludes c. */
  lemma ExcludesMonotoneLeft(n: Netip, x: Ref, x': Ref, c: Ref)
    requires Canonical(x) && Canonical(x') && Canonical(c) && Lawful(n)
    requires Under(n, x, x') && Excludes(n, x, c)
    ensures Excludes(n, x', c)
  {
    UnderIs(n, x, x');
    ExcludesIs(n, x, c);
    ExcludesIs(n, x', c);
    CoversMonotoneLeft(x, x', c);
  }

  /** Excluding r excludes everything under r, whatever the exclude. */
  ghost predicate ExcludedWhole(n: Netip, r: Ref) {
    forall x, c :: Canonical(x) && Canonical(c) && Excludes(n, x, r) && Under(n, c, r) ==> Excludes(n, x, c)
  }

  const EVERY_V4 := Network(ALL_V4)

  lemma EveryV4Canonical()
    ensures Canonical(EVERY_V4)
  {
    assert ALL_V4.Masked().addr == ALL_V4.addr;
  }

  lemma WideCovered(r: Ref)
    requires WideNetwork(r)
    ensures Covers(EVERY_V4, r)
  {
    assert Readings(ALL_V4)[0].Holds(Readings(r.prefix)[1]);
    assert NetworkExcluded(ALL_V4, r.prefix);
  }

  lemma BesideNotCovered(a: Addr)
    requires |a| == V6 && Carried(Single(a)) == None
    ensures !Covers(EVERY_V4, Host(Literal(a), 22))
  {
    assert Forms(a) == [a];
    assert Carried(ALL_V4) == None;
  }

  /** An exclude of 0.0.0.0/0 covers a wide network by the IPv4 it carries, and not an address beside it. */
  lemma WideNotWhole(n: Netip, r: Ref)
    requires Canonical(r) && WideNetwork(r) && Lawful(n)
    ensures !ExcludedWhole(n, r)
  {
    hide Covers, Excludes, Under, Lawful, Wide, Carried;
    var a := WideEscapes(r.prefix);
    assert |a| == V6 by { WideIsV6(r.prefix); }
    var c := Host(Literal(a), 22);
    EveryV4Canonical();
    WideCovered(r);
    BesideNotCovered(a);
    ExcludesIs(n, EVERY_V4, r);
    ExcludesIs(n, EVERY_V4, c);
    UnderIs(n, c, r);
  }

  lemma WideIsV6(p: Prefix)
    requires p.Valid() && Wide(p)
    ensures |p.addr| == V6
  {
  }

  const DEFAULT_ROUTE_V6 := Network(Prefix(Zeros(V6), 0))

  /** For one: excluding 0.0.0.0/0 excludes ::/0, and not the host just beside the range of mapped addresses, ::fffe:0:0. */
  lemma DefaultRouteNotWhole(n: Netip)
    requires Lawful(n)
    ensures var host := Host(Literal(Beside(MAPPED)), 22);
      Canonical(EVERY_V4) && Canonical(DEFAULT_ROUTE_V6) && Canonical(host) &&
      Excludes(n, EVERY_V4, DEFAULT_ROUTE_V6) && Under(n, host, DEFAULT_ROUTE_V6) && !Excludes(n, EVERY_V4, host)
  {
    hide Lawful;
    var p := Prefix(Zeros(V6), 0);
    assert p.Masked().addr == p.addr;
    RangeBits();
    Differs(MAPPED, p.addr, 95);
    assert WiderThan(p, MAPPED);
    var a := Beside(MAPPED);
    BesideMapped();
    EveryV4Canonical();
    WideCovered(DEFAULT_ROUTE_V6);
    BesideNotCovered(a);
    hide Covers, Excludes, Under;
    ExcludesIs(n, EVERY_V4, DEFAULT_ROUTE_V6);
    ExcludesIs(n, EVERY_V4, Host(Literal(a), 22));
    UnderIs(n, Host(Literal(a), 22), DEFAULT_ROUTE_V6);
  }

  lemma BesideMapped()
    ensures var a := Beside(MAPPED); Carried(Single(a)) == None && CanonicalLiteral(a)
  {
    var a := Beside(MAPPED);
    RangeBits();
    Differs(MAPPED, a, 95);
    Differs(SIX_TO_4, a, 2);
    Differs(NAT64, a, 9);
    Differs(NAT64_LOCAL, a, 9);
    assert !Wide(Single(a));
  }

  /**
   Excluding a locator excludes all that is under it exactly when the locator is not an IPv6 network
   that holds the whole of an IPv4-embedding range and more: the guard of Carried's first branch.
   */
  lemma ExcludedWholeExactly(n: Netip, r: Ref)
    requires Canonical(r) && Lawful(n)
    ensures ExcludedWhole(n, r) <==> !WideNetwork(r)
  {
    if WideNetwork(r) {
      WideNotWhole(n, r);
    } else {
      forall x, c | Canonical(x) && Canonical(c) && Excludes(n, x, r) && Under(n, c, r) ensures Excludes(n, x, c) {
        ExcludesIs(n, x, r);
        ExcludesIs(n, x, c);
        UnderIs(n, c, r);
        CoversMonotoneRight(x, r, c);
      }
    }
  }
}
