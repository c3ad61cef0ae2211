/**
 * What the scope's tests on texts mean: names by labels, paths by segments, networks by the addresses they hold
 * (locator.go, addr.go).
 */
module ScopeMeaning {
  import opened Options
  import opened Addresses
  import opened Text
  import opened UrlPaths
  import opened LocatorSyntax
  import opened ScopeAlgebra

  // ----- names -----

  predicate TailOf(a: seq<string>, b: seq<string>) { |a| <= |b| && b[|b| - |a|..] == a }

  /** A name is under a domain exactly when the domain's labels are its last ones. */
  lemma DomainUnderLabels(name: string, d: string)
    ensures DomainUnder(name, d) <==> name != "" && TailOf(Split(d, '.'), Split(name, '.'))
  {
    var a, b := Split(d, '.'), Split(name, '.');
    hide Split;
    if DomainUnder(name, d) && name != d {
      var x := name[..|name| - |d| - 1];
      assert name == x + ['.'] + d;
      SplitJoined(x, '.', d);
    }
    if TailOf(a, b) {
      if |a| == |b| {
        assert a == b;
        SplitInjective(name, d, '.');
      } else {
        var init := b[..|b| - |a|];
        assert b == init + a;
        JoinConcat(init, a, '.');
        JoinSplit(name, '.');
        JoinSplit(d, '.');
        var suffix := "." + d;
        assert name == Join(init, '.') + suffix;
        assert name[|name| - |suffix|..] == suffix;
      }
    }
  }

  // ----- paths -----

  /** The segments a prefix fixes: all of them, but for the open end after a last slash. */
  function Fixed(prefix: string): seq<string> {
    var parts := Split(prefix, '/');
    if HasSuffix(prefix, "/") then parts[..|parts| - 1] else parts
  }

  lemma FixedJoins(prefix: string)
    ensures HasSuffix(prefix, "/") ==> Fixed(prefix) != [] && Join(Fixed(prefix), '/') + "/" == prefix
    ensures !HasSuffix(prefix, "/") ==> Join(Fixed(prefix), '/') == prefix
  {
    JoinSplit(prefix, '/');
    if HasSuffix(prefix, "/") {
      SplitEnds(prefix, '/');
      var parts := Split(prefix, '/');
      hide Split;
      assert parts == Fixed(prefix) + [""];
      JoinConcat(Fixed(prefix), [""], '/');
    }
  }

  /** A path is under a prefix exactly when its first segments are the prefix's, and one follows where the prefix is open. */
  lemma PathUnderSegments(p: string, prefix: string)
    ensures PathUnder(p, prefix) <==>
      Fixed(prefix) <= Split(p, '/') && (HasSuffix(prefix, "/") ==> |Fixed(prefix)| < |Split(p, '/')|)
  {
    FixedJoins(prefix);
    var f, parts := Fixed(prefix), Split(p, '/');
    var open := Join(f, '/');
    StartsExactly(p, f);
    SplitPlain("", '/');
    if !HasSuffix(prefix, "/") {
      JoinSplit(p, '/');
      hide Split;
      assert prefix + "/" == open + "/";
      if f <= parts && |f| == |parts| { assert f == parts; }
    } else {
      hide Split;
      assert prefix == open + "/";
    }
  }

  /** A path goes on after those segments exactly when it starts with them and a slash. */
  lemma StartsExactly(p: string, f: seq<string>)
    requires f != [] && forall i :: 0 <= i < |f| ==> '/' !in f[i]
    ensures HasPrefix(p, Join(f, '/') + "/") <==> f <= Split(p, '/') && |f| < |Split(p, '/')|
  {
    hide Split;
    if HasPrefix(p, Join(f, '/') + "/") { StartsWith(p, f); }
    if f <= Split(p, '/') && |f| < |Split(p, '/')| { StartsOn(p, f); }
  }

  lemma StartsWith(p: string, f: seq<string>)
    requires f != [] && (forall i :: 0 <= i < |f| ==> '/' !in f[i]) && HasPrefix(p, Join(f, '/') + "/")
    ensures f <= Split(p, '/') && |f| < |Split(p, '/')|
  {
    SplitJoin(f, '/');
    hide Split, Join;
    GoesOn(p, Join(f, '/'));
  }

  lemma GoesOn(p: string, start: string)
    requires HasPrefix(p, start + "/")
    ensures Split(start, '/') <= Split(p, '/') && |Split(start, '/')| < |Split(p, '/')|
  {
    hide Split;
    var rest := p[|start| + 1..];
    SplitJoined(start, '/', rest);
    assert start + ['/'] + rest == p;
  }

  lemma StartsOn(p: string, f: seq<string>)
    requires f != [] && f <= Split(p, '/') && |f| < |Split(p, '/')|
    ensures HasPrefix(p, Join(f, '/') + "/")
  {
    hide Split;
    var parts := Split(p, '/');
    var rest := parts[|f|..];
    assert parts == f + rest;
    JoinSplit(p, '/');
    JoinConcat(f, rest, '/');
    hide Join;
    assert p == (Join(f, '/') + "/") + Join(rest, '/');
  }

  // ----- networks -----

  /** A network holds another exactly when every address of the other is one of its own. */
  lemma HoldsMeans(p: Prefix, q: Prefix)
    requires p.Valid() && q.Valid()
    ensures p.Holds(q) <==> forall a: Addr :: q.Contains(a) ==> p.Contains(a)
  {
    if p.Holds(q) {
      forall a: Addr | q.Contains(a) ensures p.Contains(a) { HoldsContains(p, q, a); }
    } else if p.Contains(q.addr) {
      var turned: Addr := q.addr[q.bits := !q.addr[q.bits]];
      assert turned[..q.bits] == q.addr[..q.bits];
      Differs(p, turned, q.bits) by { assert q.addr[..p.bits][q.bits] == p.addr[..p.bits][q.bits]; }
      assert q.Contains(turned);
    } else {
      assert q.Contains(q.addr);
    }
  }

  function Bit(b: bool): nat { if b then 1 else 0 }

  /** The number sixteen bits write. */
  function Group(g: seq<bool>): nat
    requires |g| == 16
  {
    0x8000 * Bit(g[0]) + 0x4000 * Bit(g[1]) + 0x2000 * Bit(g[2]) + 0x1000 * Bit(g[3]) + 0x800 * Bit(g[4]) + 0x400 * Bit(g[5]) +
    0x200 * Bit(g[6]) + 0x100 * Bit(g[7]) + 0x80 * Bit(g[8]) + 0x40 * Bit(g[9]) + 0x20 * Bit(g[10]) + 0x10 * Bit(g[11]) +
    0x8 * Bit(g[12]) + 0x4 * Bit(g[13]) + 0x2 * Bit(g[14]) + Bit(g[15])
  }

  lemma Groups()
    ensures Group(GROUP_FFFF) == 0xffff && Group(GROUP_2002) == 0x2002 && Group(GROUP_0064) == 0x64
    ensures Group(GROUP_FF9B) == 0xff9b && Group(GROUP_0001) == 1
  {
  }

  /** An IPv6 address writes an IPv4 one: ::ffff:w, 64:ff9b::w, or 2002:w and anything after it. */
  predicate Embeds(a: Addr, w: Addr) {
    |w| == V4 && |a| == V6 &&
    (a == Zeros(80) + GROUP_FFFF + w || a == GROUP_0064 + GROUP_FF9B + Zeros(64) + w || a[..48] == GROUP_2002 + w)
  }

  /** Some address of the network writes it. */
  ghost predicate Writes(p: Prefix, w: Addr)
    requires p.Valid()
  {
    exists a: Addr :: p.Contains(a) && Embeds(a, w)
  }

  lemma EmbeddedIn(a: Addr, w: Addr)
    requires Embeds(a, w)
    ensures (MAPPED.Contains(a) && a[96..128] == w) || (NAT64.Contains(a) && a[96..128] == w) || (SIX_TO_4.Contains(a) && a[16..48] == w)
  {
    if a == Zeros(80) + GROUP_FFFF + w {
      Placed(MAPPED, a, 96);
    } else if a == GROUP_0064 + GROUP_FF9B + Zeros(64) + w {
      Placed(NAT64, a, 96);
    } else {
      assert a[..48][16..] == w;
      Placed(SIX_TO_4, a, 16);
    }
  }

  lemma Placed(t: Prefix, a: Addr, n: nat)
    requires t.Valid() && |a| == |t.addr| && t.bits == n && forall k :: 0 <= k < n ==> a[k] == t.addr[k]
    ensures t.Contains(a)
  {
  }

  lemma Agree(a: seq<bool>, b: seq<bool>, n: nat)
    requires n <= |a| && n <= |b| && forall k :: 0 <= k < n ==> a[k] == b[k]
    ensures a[..n] == b[..n]
  {
  }

  /** Inside a range, what a network carries is cut out of it at the range's place. */
  predicate Window(p: Prefix, lo: nat, c: Prefix)
    requires p.Valid() && |p.addr| == V6 && lo + V4 <= V6
  {
    c.Valid() && |c.addr| == V4 && lo <= p.bits && c.bits == Min(p.bits - lo, V4) && c.addr[..c.bits] == p.addr[lo..lo + V4][..c.bits]
  }

  lemma WindowIn(p: Prefix, lo: nat, c: Prefix, a: Addr)
    requires p.Valid() && |p.addr| == V6 && lo + V4 <= V6 && Window(p, lo, c) && p.Contains(a)
    ensures c.Contains(a[lo..lo + V4])
  {
    forall k | 0 <= k < c.bits ensures a[lo..lo + V4][k] == c.addr[k] {
      assert a[..p.bits][lo + k] == p.addr[..p.bits][lo + k];
      assert c.addr[..c.bits][k] == p.addr[lo..lo + V4][..c.bits][k];
    }
    Agree(a[lo..lo + V4], c.addr, c.bits);
  }

  lemma WindowOut(p: Prefix, lo: nat, c: Prefix, w: Addr)
    requires p.Valid() && |p.addr| == V6 && lo + V4 <= V6 && Window(p, lo, c) && c.Contains(w)
    ensures p.Contains(p.addr[..lo] + w + p.addr[lo + V4..])
  {
    var a: Addr := p.addr[..lo] + w + p.addr[lo + V4..];
    forall k | 0 <= k < p.bits ensures a[k] == p.addr[k] {
      if lo <= k < lo + V4 {
        assert w[..c.bits][k - lo] == c.addr[..c.bits][k - lo] == p.addr[lo..lo + V4][..c.bits][k - lo];
      }
    }
    Agree(a, p.addr, p.bits);
  }

  lemma CarriedWindow(p: Prefix)
    requires p.Valid() && Carried(p).Some? && !Wide(p)
    ensures MAPPED.Contains(p.addr) || NAT64.Contains(p.addr) ==> Window(p, 96, Carried(p).value)
    ensures !MAPPED.Contains(p.addr) && !NAT64.Contains(p.addr) ==> SIX_TO_4.Contains(p.addr) && Window(p, 16, Carried(p).value)
  {
    if MAPPED.Contains(p.addr) {
      InsideRange(p, p, MAPPED);
    } else if NAT64.Contains(p.addr) {
      InsideRange(p, p, NAT64);
    } else {
      InsideRange(p, p, SIX_TO_4);
    }
  }

  /** The address of a range that writes w. */
  function Written(t: Prefix, w: Addr): (a: Addr)
    requires |w| == V4 && t in {MAPPED, NAT64, SIX_TO_4}
    ensures t.Contains(a)
  {
    var a: Addr := if t == SIX_TO_4 then GROUP_2002 + w + Zeros(80) else t.addr[..96] + w;
    Agree(a, t.addr, t.bits);
    a
  }

  lemma WrittenEmbeds(t: Prefix, w: Addr)
    requires |w| == V4 && t in {MAPPED, NAT64, SIX_TO_4}
    ensures Embeds(Written(t, w), w)
  {
    if t == MAPPED {
      assert t.addr[..96] == Zeros(80) + GROUP_FFFF;
    } else if t == NAT64 {
      assert t.addr[..96] == GROUP_0064 + GROUP_FF9B + Zeros(64);
    } else {
      assert Written(t, w)[..48] == GROUP_2002 + w;
    }
  }

  lemma CarriedWrites(p: Prefix, w: Addr)
    requires p.Valid() && |w| == V4 && Carried(p).Some? && Carried(p).value.Contains(w)
    ensures Writes(p, w)
  {
    if Wide(p) {
      var t := if WiderThan(p, MAPPED) then MAPPED else if WiderThan(p, NAT64) then NAT64 else SIX_TO_4;
      WrittenEmbeds(t, w);
      var a := Written(t, w);
      assert a[..p.bits] == a[..t.bits][..p.bits] == t.addr[..t.bits][..p.bits] == t.addr[..p.bits];
      assert p.Contains(a);
    } else {
      CarriedWindow(p);
      var lo := if MAPPED.Contains(p.addr) || NAT64.Contains(p.addr) then 96 else 16;
      WindowOut(p, lo, Carried(p).value, w);
      WindowEmbeds(p.addr, lo, w);
    }
  }

  lemma WindowEmbeds(a: Addr, lo: nat, w: Addr)
    requires |a| == V6 && |w| == V4
    requires if lo == 96 then MAPPED.Contains(a) || NAT64.Contains(a) else lo == 16 && SIX_TO_4.Contains(a)
    ensures Embeds(a[..lo] + w + a[lo + V4..], w)
  {
    var e := a[..lo] + w + a[lo + V4..];
    if lo == 16 {
      assert a[..16] == GROUP_2002 by { assert SIX_TO_4.addr[..16] == GROUP_2002; }
      assert e[..48] == GROUP_2002 + w;
    } else {
      assert a[lo + V4..] == [] && e == a[..96] + w;
      assert MAPPED.addr[..96] == Zeros(80) + GROUP_FFFF && NAT64.addr[..96] == GROUP_0064 + GROUP_FF9B + Zeros(64);
    }
  }

  lemma WritesCarried(p: Prefix, a: Addr, w: Addr)
    requires p.Valid() && p.Contains(a) && Embeds(a, w)
    ensures Carried(p).Some? && Carried(p).value.Contains(w)
  {
    EmbeddedIn(a, w);
    hide Embeds;
    var t := if MAPPED.Contains(a) then MAPPED else if NAT64.Contains(a) then NAT64 else SIX_TO_4;
    Comparable(p, Single(a), t);
    if !Wide(p) {
      CarriedWindow(p);
      RangesDisjoint(p.addr);
      RangesDisjoint(a);
      WindowIn(p, if t == SIX_TO_4 then 16 else 96, Carried(p).value, a);
    }
  }

  /** The IPv4 addresses a network carries are exactly those its addresses write. */
  lemma CarriedMeans(p: Prefix, w: Addr)
    requires p.Valid() && |w| == V4
    ensures Carried(p).Some? && Carried(p).value.Contains(w) <==> Writes(p, w)
  {
    hide Carried, Embeds;
    if Carried(p).Some? && Carried(p).value.Contains(w) { CarriedWrites(p, w); }
    if a: Addr :| p.Contains(a) && Embeds(a, w) { WritesCarried(p, a, w); }
  }

  /** The forms of an address are itself and the IPv4 address it writes. */
  lemma FormsMean(a: Addr, f: Addr)
    ensures f in Forms(a) <==> f == a || Embeds(a, f)
  {
    hide Carried, Embeds;
    SingleCarries(a);
    OnlyItself(a);
    if |f| == V4 {
      CarriedMeans(Single(a), f);
      if Carried(Single(a)).Some? { OnlyItself(Forms(a)[1]); }
    } else {
      assert !Embeds(a, f) by { NoForm(a, f); }
      if Carried(Single(a)).Some? { assert |Forms(a)[1]| == V4; }
    }
  }

  lemma NoForm(a: Addr, f: Addr)
    requires |f| != V4
    ensures !Embeds(a, f)
  {
  }

  lemma OnlyItself(a: Addr)
    ensures forall b: Addr :: Single(a).Contains(b) <==> b == a
  {
    forall b: Addr ensures Single(a).Contains(b) <==> b == a {
      if |a| == |b| { assert a[..|a|] == a && b[..|b|] == b; }
    }
  }

  /** The network holds the address, or an address that writes it. */
  ghost predicate Reaches(p: Prefix, f: Addr)
    requires p.Valid()
  {
    p.Contains(f) || Writes(p, f)
  }

  lemma HeldByMeans(p: Prefix, f: Addr)
    requires p.Valid()
    ensures HeldBy(p, f) <==> Reaches(p, f)
  {
    hide Carried, Writes;
    if |f| == V4 {
      CarriedMeans(p, f);
    } else {
      assert !Writes(p, f) by { NoWriter(p, f); }
    }
  }

  lemma NoWriter(p: Prefix, f: Addr)
    requires p.Valid() && |f| != V4
    ensures !Writes(p, f)
  {
  }

  /** An address is excluded exactly when the exclude's network reaches it or the IPv4 address it writes. */
  lemma AddressExcludedMeans(x: Ref, a: Addr)
    requires ExcludePrefix(x).Some? && ExcludePrefix(x).value.Valid()
    ensures AddressExcluded(x, a) <==> exists f: Addr :: (f == a || Embeds(a, f)) && Reaches(ExcludePrefix(x).value, f)
  {
    hide Reaches, HeldBy, Embeds, Forms;
    var p := ExcludePrefix(x).value;
    forall f: Addr ensures f in Forms(a) <==> f == a || Embeds(a, f) { FormsMean(a, f); }
    forall f: Addr ensures HeldBy(p, f) <==> Reaches(p, f) { HeldByMeans(p, f); }
    if f: Addr :| (f == a || Embeds(a, f)) && Reaches(p, f) {
      var i :| 0 <= i < |Forms(a)| && Forms(a)[i] == f;
    }
  }

  /** Every address of the network, or every IPv4 address its addresses write, is one the exclude's network holds or writes. */
  ghost predicate Swallows(x: Prefix, net: Prefix)
    requires x.Valid() && net.Valid()
  {
    (forall a: Addr :: net.Contains(a) ==> x.Contains(a)) ||
    (forall a: Addr :: net.Contains(a) ==> Writes(x, a)) ||
    ((exists w: Addr :: Writes(net, w)) && ((forall w: Addr :: Writes(net, w) ==> x.Contains(w)) || (forall w: Addr :: Writes(net, w) ==> Writes(x, w))))
  }

  lemma CarriedSet(p: Prefix)
    requires p.Valid()
    ensures Carried(p).Some? <==> exists w: Addr :: Writes(p, w)
    ensures Carried(p).Some? ==> forall w: Addr :: Carried(p).value.Contains(w) <==> Writes(p, w)
  {
    hide Carried, Writes;
    forall w: Addr ensures Carried(p).Some? && Carried(p).value.Contains(w) <==> Writes(p, w) {
      if |w| == V4 { CarriedMeans(p, w); } else { NoWriter(p, w); }
    }
    if Carried(p).Some? { assert Carried(p).value.Contains(Carried(p).value.addr); }
  }

  lemma NetworkExcludedMeans(x: Prefix, net: Prefix)
    requires x.Valid() && net.Valid()
    ensures NetworkExcluded(x, net) <==> Swallows(x, net)
  {
    hide Carried, Writes;
    CarriedSet(x);
    CarriedSet(net);
    assert net.Contains(net.addr);
    HoldsMeans(x, net);
    if Carried(x).Some? { HoldsMeans(Carried(x).value, net); }
    if Carried(net).Some? { HoldsMeans(x, Carried(net).value); }
    if Carried(x).Some? && Carried(net).Some? { HoldsMeans(Carried(x).value, Carried(net).value); }
    ReadingsApart(x, net);
  }

  lemma ReadingsApart(x: Prefix, net: Prefix)
    requires x.Valid() && net.Valid()
    ensures NetworkExcluded(x, net) <==>
      (x.Holds(net) || (Carried(x).Some? && Carried(x).value.Holds(net)) || (Carried(net).Some? && x.Holds(Carried(net).value)) ||
       (Carried(x).Some? && Carried(net).Some? && Carried(x).value.Holds(Carried(net).value)))
  {
    hide Carried;
    var r, s := Readings(x), Readings(net);
    assert r[0].Holds(s[0]) == x.Holds(net);
    if Carried(x).Some? { assert r[1].Holds(s[0]) == Carried(x).value.Holds(net); }
    if Carried(net).Some? { assert r[0].Holds(s[1]) == x.Holds(Carried(net).value); }
    if Carried(x).Some? && Carried(net).Some? { assert r[1].Holds(s[1]) == Carried(x).value.Holds(Carried(net).value); }
  }

  // ----- under and excluded -----

  predicate LabelsUnder(name: string, d: string) { TailOf(Split(d, '.'), Split(name, '.')) }

  predicate SegmentsUnder(p: string, prefix: string) {
    Fixed(prefix) <= Split(p, '/') && (HasSuffix(prefix, "/") ==> |Fixed(prefix)| < |Split(p, '/')|)
  }

  predicate Organization(tenant: string) { "organizations/" <= tenant }

  /** What the documentation says falls under a root: equal, or inside it by labels, addresses, segments or owner. */
  ghost predicate Lies(c: Ref, root: Ref) {
    c == root ||
    match (root, c)
    case (Domain(d), Domain(name)) => LabelsUnder(name, d)
    case (Domain(d), Url(_, Named(name), _, _)) => LabelsUnder(name, d)
    case (Domain(d), Host(Named(name), _)) => LabelsUnder(name, d)
    case (Network(p), Url(_, Literal(a), _, _)) => p.Valid() && p.Contains(a)
    case (Network(p), Host(Literal(a), _)) => p.Valid() && p.Contains(a)
    case (Network(p), Network(q)) => p.Valid() && q.Valid() && forall a: Addr :: q.Contains(a) ==> p.Contains(a)
    case (Host(site, _), Url(_, at, _, _)) => at == site
    case (Url(scheme, site, port, path), Url(scheme', site', port', path')) =>
      scheme' == scheme && site' == site && port' == port && SegmentsUnder(path', path)
    case (SaaS(provider, tenant), Repo(_, owner, _)) => provider == "github" && owner == tenant
    case (Cloud(provider, tenant), Cloud(provider', tenant')) => provider' == provider && Organization(tenant) && !Organization(tenant')
    case _ => false
  }

  lemma NamedSomething(r: Ref)
    requires Canonical(r)
    ensures r.Domain? ==> r.name != ""
    ensures (r.Url? || r.Host?) && r.site.Named? ==> r.site.name != ""
  {
    SplitPlain("", '.');
    hide Split;
  }

  lemma BelowMeans(c: Ref, root: Ref)
    requires Canonical(c)
    ensures Below(c, root) <==> Lies(c, root)
  {
    NamedSomething(c);
    hide Canonical, DomainUnder, PathUnder;
    if root.Domain? { DomainUnderLabels(NameOf(c), root.name); }
    if root.Network? && c.Network? && root.prefix.Valid() && c.prefix.Valid() { HoldsMeans(root.prefix, c.prefix); }
    if root.Url? && c.Url? { PathUnderSegments(c.path, root.path); }
  }

  /** Under is exactly that. */
  lemma UnderMeans(n: Netip, c: Ref, root: Ref)
    requires Canonical(c) && Canonical(root) && Lawful(n)
    ensures Under(n, c, root) <==> Lies(c, root)
  {
    hide Under, Below, Lies, Canonical, Lawful;
    UnderIs(n, c, root);
    BelowMeans(c, root);
  }

  /** The addresses an exclude names. */
  function Named(x: Ref): Option<Prefix> {
    match x
    case Network(p) => Some(p)
    case Host(Literal(a), _) => Some(Prefix(a, |a|))
    case _ => None
  }

  function PortRead(scheme: string, port: nat): nat { if port != 0 then port else if scheme == "https" then 443 else if scheme == "http" then 80 else 0 }

  /** Address excludes cover what they reach, however it is written. */
  ghost predicate Reached(p: Prefix, c: Ref)
    requires p.Valid()
  {
    match c
    case Url(_, Literal(a), _, _) => exists f: Addr :: (f == a || Embeds(a, f)) && Reaches(p, f)
    case Host(Literal(a), _) => exists f: Addr :: (f == a || Embeds(a, f)) && Reaches(p, f)
    case Network(q) => q.Valid() && Swallows(p, q)
    case _ => false
  }

  /** What the documentation says an exclude covers. */
  ghost predicate Ruled(x: Ref, c: Ref) {
    match (x, c)
    case (Url(scheme, site, port, path), Url(scheme', site', port', path')) =>
      site' == site && (port' == port || PortRead(scheme', port') == PortRead(scheme, port)) &&
      Split(TrimSuffix(path, '/'), '/') <= Split(path', '/')
    case _ =>
      (Named(x).Some? && Named(x).value.Valid() && Reached(Named(x).value, c)) || (x.Host? && c.Host? && x.site == c.site) || Lies(c, x)
  }

  lemma SitePathMeans(x: Ref, c: Ref)
    requires x.Url? && c.Url? && Canonical(x) && Canonical(c)
    ensures SitePathCovered(x, c) <==> Ruled(x, c)
  {
    CleanPathTrim(x.path);
    CanonicalShape(c.path);
    CanonicalShape(x.path);
    hide Canonical, CanonicalPath;
    PrefixSegments(c.path, TrimSuffix(x.path, '/'));
  }

  lemma PrefixSegments(p: string, prefix: string)
    requires p != "" && p[0] == '/' && !HasSuffix(prefix, "/")
    ensures prefix == "" || p == prefix || HasPrefix(p, prefix + "/") <==> Split(prefix, '/') <= Split(p, '/')
  {
    PathUnderSegments(p, prefix);
    if prefix == "" {
      SplitPlain("", '/');
      SplitAt("", '/', p[1..]);
      assert "" + ['/'] + p[1..] == p;
    }
    hide Split;
  }

  lemma AddressCoveredMeans(x: Ref, c: Ref)
    requires !(x.Url? && c.Url?)
    ensures AddressCovered(x, c) <==> Named(x).Some? && Named(x).value.Valid() && Reached(Named(x).value, c)
  {
    hide Reaches, Embeds, Swallows, NetworkExcluded, AddressExcluded;
    assert ExcludePrefix(x) == Named(x);
    if Named(x).Some? && Named(x).value.Valid() {
      if AddrOf(c).Some? { AddressExcludedMeans(x, AddrOf(c).value); }
      if c.Network? && c.prefix.Valid() { NetworkExcludedMeans(Named(x).value, c.prefix); }
    } else if AddrOf(c).Some? {
      assert !AddressExcluded(x, AddrOf(c).value) by { NothingExcluded(x, AddrOf(c).value); }
    }
  }

  lemma NothingExcluded(x: Ref, a: Addr)
    requires ExcludePrefix(x).None? || !ExcludePrefix(x).value.Valid()
    ensures !AddressExcluded(x, a)
  {
  }

  /** Excludes is exactly that. */
  lemma ExcludesMeans(n: Netip, x: Ref, c: Ref)
    requires Canonical(x) && Canonical(c) && Lawful(n)
    ensures Excludes(n, x, c) <==> Ruled(x, c)
  {
    hide Excludes, Canonical, Lawful, AddressCovered, Below, Lies, SitePathCovered, Reached;
    ExcludesIs(n, x, c);
    BelowMeans(c, x);
    if x.Url? && c.Url? {
      SitePathMeans(x, c);
    } else {
      AddressCoveredMeans(x, c);
    }
  }

  /** So names that differ in their first label are not under each other, whatever letters they share: notexample.com and example.com. */
  lemma SiblingsApart(a: string, b: string, rest: string)
    requires '.' !in a && '.' !in b && a != b
    ensures !DomainUnder(a + ['.'] + rest, b + ['.'] + rest)
  {
    DomainUnderLabels(a + ['.'] + rest, b + ['.'] + rest);
    SplitAt(a, '.', rest);
    SplitAt(b, '.', rest);
    hide Split, DomainUnder;
    assert ([a] + Split(rest, '.'))[0] == a && ([b] + Split(rest, '.'))[0] == b;
  }
}
