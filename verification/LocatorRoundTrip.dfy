/** Parsing a locator, printing its id and reading the id back gives the locator again. */
module LocatorRoundTrip {
  import opened Options
  import opened Addresses
  import opened Decimal
  import opened Text
  import opened UrlPaths
  import opened LocatorSyntax

  // ----- what parsing yields is canonical -----

  lemma HostNameCanonical(n: Netip, s: string)
    requires ParseHostName(n, s).Some?
    ensures CanonicalSite(ParseHostName(n, s).value)
  {
  }

  lemma CutBytes(s: string, c: char)
    requires Bytes(s) && Cut(s, c).CutAt?
    ensures Bytes(Cut(s, c).before) && Bytes(Cut(s, c).after)
  {
    NoCutOf(s, c);
    hide Cut;
    var b, a := Cut(s, c).before, Cut(s, c).after;
    assert forall i :: 0 <= i < |b| ==> b[i] == s[i];
    assert forall i :: 0 <= i < |a| ==> a[i] == s[|b| + 1 + i];
  }

  /** A path decoded from a byte string is a byte string. */
  lemma HierarchyBytes(scheme: string, rest: string)
    requires Bytes(rest) && SplitHierarchy(scheme, rest).Some?
    ensures Bytes(SplitHierarchy(scheme, rest).value.path)
  {
    hide Cut, Unescape, SplitAuthority;
    var s := rest[2..];
    if Cut(s, '/').CutAt? { CutBytes(s, '/'); }
    UnescapeBytes(AuthorityAndPath(s).1);
  }

  lemma UrlBytes(s: string)
    requires Bytes(s) && SplitUrl(s).Some?
    ensures Bytes(SplitUrl(s).value.path)
  {
    hide Cut, SplitHierarchy, Lower;
    if Cut(s, '#').CutAt? { CutBytes(s, '#'); }
    var u := DropFragment(s).value;
    CutBytes(u, ':');
    HierarchyBytes(Lower(Cut(u, ':').before), Cut(u, ':').after);
  }

  lemma UrlCanonical(n: Netip, s: string)
    requires Bytes(s) && ParseUrl(n, s).Some?
    ensures Canonical(ParseUrl(n, s).value)
  {
    hide SplitUrl, ParseHostName, CanonicalSite, Normal, Escape, CanonicalPath, Bytes;
    var u := SplitUrl(s).value;
    HostNameCanonical(n, u.hostname);
    UrlBytes(s);
    CanonicalOf(u.path);
  }

  /** Whatever parseLocator accepts is a canonical locator of the kind asked for. */
  lemma ParsedCanonical(n: Netip, kind: string, s: string)
    requires Bytes(s) && ParseLocator(n, kind, s).Some?
    ensures Canonical(ParseLocator(n, kind, s).value)
    ensures KindOf(ParseLocator(n, kind, s).value) == kind
  {
    if kind == "url" { UrlCanonical(n, s); }
  }

  // ----- names and addresses never read as each other -----

  lemma NameFacts(n: Netip, d: string, min: nat)
    requires ValidName(d, min) && Lawful(n)
    ensures d != "" && AllIn(d, NameChar)
    ensures Lower(d) == d && TrimSuffix(d, '.') == d
    ensures n.parse(d) == None
  {
    var labels := Split(d, '.');
    assert forall k :: 0 <= k < |labels| ==> AllIn(labels[k], LabelChar);
    SplitChars(d, '.', LabelChar);
    assert AllIn(d, NameChar);
    LowerFixed(d);
    if d != "" && d[|d| - 1] == '.' { SplitEnds(d, '.'); }
    if n.parse(d).Some? {
      assert ':' !in d;
      assert forall i :: 0 <= i < |d| ==> d[i] == '.' || IsDigit(d[i]);
      SplitChars(d, '.', IsDigit);
    }
  }

  lemma SiteReadsBack(n: Netip, s: Site)
    requires CanonicalSite(s) && Lawful(n)
    ensures ParseHostName(n, SiteText(n, s)) == Some(s)
  {
    if s.Named? { NameFacts(n, s.name, 1); }
  }

  /** A site's text is a name, an IPv4 address, or an IPv6 address with a colon in it. */
  lemma SiteTextShape(n: Netip, s: Site)
    requires CanonicalSite(s) && Lawful(n)
    ensures SiteText(n, s) != ""
    ensures s.Literal? && |s.addr| == V6 ==> AllIn(SiteText(n, s), HexOrColon)
    ensures !(s.Literal? && |s.addr| == V6) ==> AllIn(SiteText(n, s), NameChar)
  {
    if s.Named? {
      NameFacts(n, s.name, 1);
    } else {
      assert n.parse(n.show(s.addr)).Some?;
      if |s.addr| == V4 { assert AllIn(n.show(s.addr), DigitOrDot); }
    }
  }

  /** Two canonical sites with one text are one site. */
  lemma SiteTextInjective(n: Netip, s: Site, t: Site)
    requires CanonicalSite(s) && CanonicalSite(t) && Lawful(n)
    requires SiteText(n, s) == SiteText(n, t)
    ensures s == t
  {
    SiteReadsBack(n, s);
    SiteReadsBack(n, t);
  }

  // ----- each kind's body reads back -----

  lemma DomainReadsBack(n: Netip, d: string)
    requires ValidName(d, 2) && Lawful(n)
    ensures ParseDomain(n, d) == Some(d)
  {
    NameFacts(n, d, 2);
  }

  lemma PortReadsBack(port: nat)
    requires 1 <= port <= 65535
    ensures ParsePort(Itoa(port)) == Some(port) && PortDigits(Itoa(port)) && Value(Itoa(port)) == port
  {
    ValueOfItoa(port);
  }

  lemma NetworkReadsBack(n: Netip, r: Ref)
    requires r.Network? && Canonical(r) && Lawful(n)
    ensures ParseNetwork(n, Body(n, r)) == Some(r)
  {
    hide ParsePrefix, Lawful, Itoa;
    PrefixReadsBack(n, r.prefix);
  }

  lemma PrefixReadsBack(n: Netip, p: Prefix)
    requires p.Valid() && Lawful(n)
    ensures ParsePrefix(n, n.show(p.addr) + "/" + Itoa(p.bits)) == Some(p)
  {
    hide CutLast, Itoa, Value;
    var addr, bits := n.show(p.addr), Itoa(p.bits);
    assert n.parse(addr) == Some(p.addr);
    hide Lawful;
    CutLastOf(addr, '/', bits);
    assert addr + "/" + bits == addr + ['/'] + bits;
    ValueOfItoa(p.bits);
  }

  lemma SplitBracketed(n: Netip, text: string, port: string)
    requires ']' !in text && n.parse(text).Some? && |n.parse(text).value| == V6
    ensures SplitHost(n, "[" + text + "]" + ":" + port) == Some((text, port))
  {
    hide Cut;
    var rest := "[" + text + "]" + ":" + port;
    CutOf("[" + text, ']', ":" + port);
    assert rest == ("[" + text) + [']'] + (":" + port);
    assert ("[" + text)[1..] == text && (":" + port)[1..] == port;
  }

  lemma SplitPlainHost(n: Netip, text: string, port: string)
    requires text != "" && AllIn(text, NameChar) && ':' !in port
    ensures SplitHost(n, text + ":" + port) == Some((text, port))
  {
    hide Cut;
    var rest := text + ":" + port;
    assert rest[0] == text[0];
    assert rest == text + [':'] + port;
    CutOf(text, ':', port);
  }

  lemma SplitHostOf(n: Netip, s: Site, port: string)
    requires CanonicalSite(s) && Lawful(n) && AllDigits(port)
    ensures SplitHost(n, HostText(n, s) + ":" + port) == Some((SiteText(n, s), port))
  {
    hide SplitHost, ValidName;
    SiteTextShape(n, s);
    if s.Literal? && |s.addr| == V6 {
      SplitBracketed(n, SiteText(n, s), port);
    } else {
      SplitPlainHost(n, SiteText(n, s), port);
    }
  }

  lemma HostTextPlain(n: Netip, site: Site, port: string)
    requires CanonicalSite(site) && Lawful(n) && AllDigits(port)
    ensures var s := HostText(n, site) + ":" + port; s != LOCAL && DropUser(s) == Some(s)
  {
    hide Cut, Lawful, CanonicalSite;
    var s := HostText(n, site) + ":" + port;
    SiteTextShape(n, site);
    assert '@' !in s;
    assert s != LOCAL by { assert s[|HostText(n, site)|] == ':'; assert ':' !in LOCAL; }
    NoCutOf(s, '@');
  }

  lemma HostReadsBack(n: Netip, r: Ref)
    requires r.Host? && Canonical(r) && Lawful(n)
    ensures ParseHost(n, Body(n, r)) == Some(r)
  {
    if r.site != Named(LOCAL) {
      hide SplitHost, ParseHostName, ParsePort, Itoa, Value, Lawful, CanonicalSite;
      var port, s := Itoa(r.port), Body(n, r);
      assert s == HostText(n, r.site) + ":" + port;
      HostTextPlain(n, r.site, port);
      SplitHostOf(n, r.site, port);
      PortReadsBack(r.port);
      SiteReadsBack(n, r.site);
    }
  }

  lemma AuthorityOf(n: Netip, s: Site, port: nat)
    requires CanonicalSite(s) && Lawful(n)
    ensures SplitAuthority(HostText(n, s) + PortText(port)) == Some((SiteText(n, s), if port == 0 then "" else Itoa(port)))
  {
    hide SplitAuthority, PortText, Lawful, CanonicalSite, Itoa;
    SiteTextShape(n, s);
    if s.Literal? && |s.addr| == V6 {
      BracketedAuthority(SiteText(n, s), port);
    } else {
      PlainAuthority(SiteText(n, s), port);
    }
  }

  lemma BracketedAuthority(text: string, port: nat)
    ensures SplitAuthority("[" + text + "]" + PortText(port)) == Some((text, if port == 0 then "" else Itoa(port)))
  {
    PortTextDigits(port);
    hide CutLast, Itoa, PortText, AllDigits;
    var tail := PortText(port);
    assert "[" + text + "]" + tail == ("[" + text) + [']'] + tail;
    CutLastOf("[" + text, ']', tail);
    assert ("[" + text)[1..] == text;
  }

  lemma PlainAuthority(text: string, port: nat)
    requires text != "" && AllIn(text, NameChar)
    ensures SplitAuthority(text + PortText(port)) == Some((text, if port == 0 then "" else Itoa(port)))
  {
    hide CutLast, Itoa;
    var a := text + PortText(port);
    assert a[0] == text[0];
    if port == 0 {
      NoCutLastOf(a, ':');
      assert a == text;
    } else {
      assert a == text + [':'] + Itoa(port);
      CutLastOf(text, ':', Itoa(port));
    }
  }

  lemma PortTextDigits(port: nat)
    ensures ']' !in PortText(port)
    ensures if port == 0 then PortText(port) == "" else
      PortText(port) != "" && PortText(port)[0] == ':' && PortText(port)[1..] == Itoa(port) && AllDigits(Itoa(port))
  {
    hide Itoa;
    if port != 0 { assert (":" + Itoa(port))[1..] == Itoa(port); }
  }

  lemma AuthorityShape(n: Netip, s: Site, port: nat)
    requires CanonicalSite(s) && Lawful(n)
    ensures HostText(n, s) + PortText(port) != "" && AllIn(HostText(n, s) + PortText(port), HostChar)
  {
    SiteTextShape(n, s);
  }

  lemma SplitHierarchyOf(scheme: string, authority: string, path: string)
    requires authority != "" && AllIn(authority, HostChar)
    requires path != "" && path[0] == '/' && '?' !in path
    requires SplitAuthority(authority).Some? && Unescape(path).Plain?
    ensures SplitHierarchy(scheme, "//" + authority + path) ==
      Some(UrlParts(scheme, SplitAuthority(authority).value.0, SplitAuthority(authority).value.1, Unescape(path).text))
  {
    hide Cut, Unescape, SplitAuthority;
    var rest := "//" + authority + path;
    assert rest[2..] == authority + ['/'] + path[1..];
    CutOf(authority, '/', path[1..]);
    assert "/" + path[1..] == path;
    assert '?' !in authority && '@' !in authority && '%' !in authority;
  }

  predicate UrlChar(c: char) { HostChar(c) || Kept(c) || c == '%' }

  lemma SplitUrlOf(scheme: string, rest: string)
    requires IsScheme(scheme) && AllIn(rest, UrlChar)
    ensures SplitUrl(scheme + ":" + rest) == SplitHierarchy(scheme, rest)
  {
    hide Cut, SplitHierarchy;
    var s := scheme + ":" + rest;
    assert AllIn(s, UrlChar);
    assert '#' !in s && Printable(s);
    NoCutOf(s, '#');
    CutOf(scheme, ':', rest);
    assert s == scheme + [':'] + rest;
    assert Lower(scheme) == scheme;
  }

  lemma RestChars(authority: string, path: string)
    requires AllIn(authority, HostChar) && forall i :: 0 <= i < |path| ==> Kept(path[i]) || path[i] == '%'
    ensures AllIn("//" + authority + path, UrlChar)
  {
  }

  lemma UrlPortReadsBack(scheme: string, port: nat)
    requires port <= 65535 && port != DefaultPort(scheme)
    ensures UrlPort(scheme, if port == 0 then "" else Itoa(port)) == Some(port)
  {
    if port != 0 { PortReadsBack(port); }
  }

  /** A canonical url's text splits into its parts, the path decoded. */
  lemma UrlSplits(n: Netip, r: Ref)
    requires r.Url? && Canonical(r) && Lawful(n)
    ensures Unescape(r.path).Plain?
    ensures SplitUrl(Body(n, r)) ==
      Some(UrlParts(r.scheme, SiteText(n, r.site), if r.port == 0 then "" else Itoa(r.port), Unescape(r.path).text))
  {
    hide SplitUrl, SplitHierarchy, SplitAuthority, Unescape, Normal, Escape, Itoa, CanonicalSite, Lawful, CanonicalPath;
    CanonicalShape(r.path);
    AuthorityOf(n, r.site, r.port);
    AuthorityShape(n, r.site, r.port);
    var authority := HostText(n, r.site) + PortText(r.port);
    var rest := "//" + authority + r.path;
    RestChars(authority, r.path);
    hide AllIn, HostText, PortText, SiteText;
    SplitUrlOf(r.scheme, rest);
    SplitHierarchyOf(r.scheme, authority, r.path);
    assert Body(n, r) == r.scheme + ":" + rest;
  }

  lemma UrlReadsBack(n: Netip, r: Ref)
    requires r.Url? && Canonical(r) && Lawful(n)
    ensures ParseUrl(n, Body(n, r)) == Some(r)
  {
    hide SplitUrl, Unescape, Normal, Escape, Itoa, Value, ParseHostName, CanonicalSite, Lawful, CanonicalPath, Body, UrlPort;
    UrlSplits(n, r);
    CanonicalShape(r.path);
    SiteReadsBack(n, r.site);
    UrlPortReadsBack(r.scheme, r.port);
  }

  lemma LowerRepo(tenant: string, repo: string)
    requires GithubName(tenant) && RepoName(repo)
    ensures Lower(tenant + "/" + repo) == tenant + "/" + repo && '/' !in tenant
  {
    LowerFixed(tenant + "/" + repo);
  }

  lemma GithubLower(tenant: string)
    requires GithubName(tenant)
    ensures Lower(tenant) == tenant
  {
    LowerFixed(tenant);
  }

  lemma SaaSReadsBack(n: Netip, r: Ref)
    requires r.SaaS? && Canonical(r) && Lawful(n)
    ensures ParseSaaS(n, Body(n, r)) == Some(r)
  {
    hide Cut, ParseDomain, ValidName, Lawful, Lower;
    CutOf(r.provider, ':', r.tenant);
    assert Body(n, r) == r.provider + [':'] + r.tenant;
    if r.provider == GITHUB { GithubLower(r.tenant); } else { DomainReadsBack(n, r.tenant); }
  }

  lemma RepoReadsBack(n: Netip, r: Ref)
    requires r.Repo? && Canonical(r)
    ensures ParseRepo(Body(n, r)) == Some(r)
  {
    hide Cut;
    var full := r.tenant + "/" + r.repo;
    LowerRepo(r.tenant, r.repo);
    CutOf(r.provider, ':', full);
    assert Body(n, r) == r.provider + [':'] + full;
    CutOf(r.tenant, '/', r.repo);
    assert full == r.tenant + ['/'] + r.repo;
  }

  lemma CloudReadsBack(n: Netip, r: Ref)
    requires r.Cloud? && Canonical(r)
    ensures ParseCloud(Body(n, r)) == Some(r)
  {
    hide Cut;
    CutOf(r.provider, ':', r.tenant);
    assert Body(n, r) == r.provider + [':'] + r.tenant;
  }

  /** The part of an id after its kind is text the kind's own parser reads back. */
  lemma BodyReadsBack(n: Netip, r: Ref)
    requires Canonical(r) && Lawful(n)
    ensures ParseLocator(n, KindOf(r), Body(n, r)) == Some(r)
  {
    hide ParseDomain, ParseUrl, ParseHost, ParseNetwork, ParseSaaS, ParseRepo, ParseCloud, Lawful, CanonicalSite, CanonicalPath, ValidName;
    match r
    case Domain(name) => DomainReadsBack(n, name);
    case Url(_, _, _, _) => UrlReadsBack(n, r);
    case Host(_, _) => HostReadsBack(n, r);
    case Network(_) => NetworkReadsBack(n, r);
    case SaaS(_, _) => SaaSReadsBack(n, r);
    case Repo(_, _, _) => RepoReadsBack(n, r);
    case Cloud(_, _) => CloudReadsBack(n, r);
  }

  /** A canonical locator's id is read back as that locator. */
  lemma IdReadsBack(n: Netip, r: Ref)
    requires Canonical(r) && Lawful(n)
    ensures ParseId(n, Id(n, r)) == Some(r)
  {
    hide ParseLocator, Body, Canonical, Lawful, Cut;
    CutOf(KindOf(r), ':', Body(n, r));
    assert Id(n, r) == KindOf(r) + [':'] + Body(n, r);
    BodyReadsBack(n, r);
  }

  /** Every text parseLocator accepts: its id reads back as the same locator, with the same id. */
  lemma RoundTrip(n: Netip, kind: string, s: string)
    requires Lawful(n) && Bytes(s) && ParseLocator(n, kind, s).Some?
    ensures var r := ParseLocator(n, kind, s).value; ParseId(n, Id(n, r)) == Some(r)
  {
    ParsedCanonical(n, kind, s);
    IdReadsBack(n, ParseLocator(n, kind, s).value);
  }

  /** What ParseId accepts is exactly the ids of canonical locators. */
  lemma IdsExactly(n: Netip, id: string)
    requires Lawful(n) && Bytes(id)
    ensures ParseId(n, id).Some? <==> exists r :: Canonical(r) && Id(n, r) == id
  {
    if ParseId(n, id).Some? {
      var c := Cut(id, ':');
      CutBytes(id, ':');
      ParsedCanonical(n, c.before, c.after);
      assert Id(n, ParseId(n, id).value) == id;
    }
    if r :| Canonical(r) && Id(n, r) == id { IdReadsBack(n, r); }
  }

  lemma IdInjective(n: Netip, r: Ref, q: Ref)
    requires Canonical(r) && Canonical(q) && Lawful(n) && Id(n, r) == Id(n, q)
    ensures r == q
  {
    IdReadsBack(n, r);
    IdReadsBack(n, q);
  }

  // ----- the laws asked of net/netip are consistent -----

  function BitText(a: Addr): (s: string)
    ensures |s| == |a| && forall i :: 0 <= i < |a| ==> s[i] == if a[i] then '1' else '0'
  {
    seq(|a|, i requires 0 <= i < |a| => if a[i] then '1' else '0')
  }

  function BitShow(a: Addr): string {
    if |a| == V6 then ":" + BitText(a) else BitText(a)
  }

  function BitParse(s: string): Option<Addr> {
    var digits := if s != "" && s[0] == ':' then s[1..] else s;
    if (|s| == V4 && AllDigits(s)) || (|s| == V6 + 1 && s[0] == ':') then
      Some(seq(|digits|, i requires 0 <= i < |digits| => digits[i] == '1'))
    else None
  }

  /** Writing every bit as a digit, with a colon before an IPv6 address, satisfies the laws. */
  lemma LawfulExists()
    ensures Lawful(Netip(BitShow, BitParse))
  {
    forall a: Addr ensures BitParse(BitShow(a)) == Some(a) {
      var s := BitShow(a);
      if |a| == V6 { assert s[1..] == BitText(a); }
      assert BitParse(s).value == a;
    }
  }
}
