/** Which texts are accepted as which locator: the spellings a canonical locator has besides its id (locator.go). */
module Spellings {
  import opened Options
  import opened Addresses
  import opened Decimal
  import opened Text
  import opened UrlPaths
  import opened CleanPaths
  import opened LocatorSyntax
  import opened LocatorRoundTrip

  // ----- the shapes of names, in numbers -----

  predicate LowerOrDigit(c: char) { 'a' <= c <= 'z' || '0' <= c <= '9' }

  /** Lowercase letters, digits and hyphens, a hyphen neither first nor last. */
  predicate Label(l: string, min: nat, max: nat) {
    min <= |l| <= max && (forall i :: 0 <= i < |l| ==> LowerOrDigit(l[i]) || l[i] == '-') && (l != "" ==> l[0] != '-' && l[|l| - 1] != '-')
  }

  lemma NameShapes(l: string)
    ensures DnsLabel(l) <==> Label(l, 1, 63)
    ensures GithubName(l) <==> Label(l, 1, 39)
    ensures GcpProject(l) <==> Label(l, 6, 30) && 'a' <= l[0] <= 'z'
    ensures SshUser(l) <==>
      1 <= |l| <= 32 && l[0] !in ".-" && forall i :: 0 <= i < |l| ==> LowerOrDigit(l[i]) || 'A' <= l[i] <= 'Z' || l[i] in "_.-"
    ensures RepoName(l) <==> 1 <= |l| <= 100 && l != "." && l != ".." && forall i :: 0 <= i < |l| ==> LowerOrDigit(l[i]) || l[i] in "._-"
  {
  }

  predicate Number(l: string) { forall i :: 0 <= i < |l| ==> '0' <= l[i] <= '9' }

  predicate Dotted(labels: seq<string>, d: string, min: nat) {
    labels != [] && min <= |labels| && d == Join(labels, '.') && |d| <= 253 && (forall i :: 0 <= i < |labels| ==> Label(labels[i], 1, 63)) &&
    !Number(labels[|labels| - 1])
  }

  /** A name: dotted labels, at most 253 characters, the last one no number. */
  lemma NamesAre(d: string, min: nat)
    ensures ValidName(d, min) <==> exists labels: seq<string> :: Dotted(labels, d, min)
  {
    forall l ensures DnsLabel(l) <==> Label(l, 1, 63) { NameShapes(l); }
    hide Split, DnsLabel, Label;
    if ValidName(d, min) {
      JoinSplit(d, '.');
      assert Dotted(Split(d, '.'), d, min);
    }
    if labels: seq<string> :| Dotted(labels, d, min) {
      assert forall i :: 0 <= i < |labels| ==> '.' !in labels[i] by { LabelsPlain(labels); }
      SplitJoin(labels, '.');
    }
  }

  lemma LabelsPlain(labels: seq<string>)
    requires forall i :: 0 <= i < |labels| ==> Label(labels[i], 1, 63)
    ensures forall i :: 0 <= i < |labels| ==> '.' !in labels[i]
  {
  }

  // ----- domains and tenants -----

  /** A domain is accepted in any case and with or without its last dot, and nothing else is. */
  lemma DomainSpellings(n: Netip, s: string, d: string)
    requires Lawful(n)
    ensures ParseDomain(n, s) == Some(d) <==> ValidName(d, 2) && (Lower(s) == d || Lower(s) == d + ".")
  {
    hide ValidName, Lawful, Lower;
    if ValidName(d, 2) && (Lower(s) == d || Lower(s) == d + ".") { DomainRead(n, s, d); }
  }

  lemma DomainRead(n: Netip, s: string, d: string)
    requires Lawful(n) && ValidName(d, 2) && (Lower(s) == d || Lower(s) == d + ".")
    ensures ParseDomain(n, s) == Some(d)
  {
    NameFacts(n, d, 2);
    hide ValidName, Lawful, Lower;
    assert TrimSuffix(d + ".", '.') == d;
    assert '/' !in d && ':' !in d && '@' !in d && '*' !in d;
  }

  predicate GithubText(s: string, t: string) { s == "github:" + t && Label(Lower(t), 1, 39) }

  predicate WorkspaceText(s: string, t: string, d: string) {
    s == "google-workspace:" + t && ValidName(d, 2) && (Lower(t) == d || Lower(t) == d + ".")
  }

  lemma SaaSSpellings(n: Netip, s: string, r: Ref)
    requires Lawful(n)
    ensures ParseSaaS(n, s) == Some(r) <==>
      (exists t :: GithubText(s, t) && r == SaaS("github", Lower(t))) ||
      (exists t, d :: WorkspaceText(s, t, d) && r == SaaS("google-workspace", d))
  {
    hide Lawful, ParseSaaS, GithubText, WorkspaceText, Lower;
    if t :| GithubText(s, t) && r == SaaS("github", Lower(t)) { GithubRead(n, s, t); }
    if t, d :| WorkspaceText(s, t, d) && r == SaaS("google-workspace", d) { WorkspaceRead(n, s, t, d); }
    if ParseSaaS(n, s) == Some(r) { SaaSRead(n, s, r); }
  }

  lemma GithubRead(n: Netip, s: string, t: string)
    requires GithubText(s, t)
    ensures ParseSaaS(n, s) == Some(SaaS("github", Lower(t)))
  {
    NameShapes(Lower(t));
    hide Lower, Cut, GithubName, Label;
    ProviderCut(s, "github", t);
  }

  lemma WorkspaceRead(n: Netip, s: string, t: string, d: string)
    requires Lawful(n) && WorkspaceText(s, t, d)
    ensures ParseSaaS(n, s) == Some(SaaS("google-workspace", d))
  {
    DomainSpellings(n, t, d);
    hide Lower, Cut, ValidName, ParseDomain, Lawful;
    ProviderCut(s, "google-workspace", t);
  }

  lemma SaaSRead(n: Netip, s: string, r: Ref)
    requires Lawful(n) && ParseSaaS(n, s) == Some(r)
    ensures (exists t :: GithubText(s, t) && r == SaaS("github", Lower(t))) ||
      (exists t, d :: WorkspaceText(s, t, d) && r == SaaS("google-workspace", d))
  {
    hide Lower, Cut, ValidName, ParseDomain, Lawful, GithubName, Label;
    NoCutOf(s, ':');
    var t := Cut(s, ':').after;
    if Cut(s, ':').before == GITHUB {
      assert s == "github:" + t;
      NameShapes(Lower(t));
      assert GithubText(s, t);
    } else {
      assert s == "google-workspace:" + t;
      var d := ParseDomain(n, t).value;
      DomainSpellings(n, t, d);
      assert WorkspaceText(s, t, d);
    }
  }

  lemma ProviderCut(s: string, provider: string, t: string)
    requires s == provider + ":" + t && ':' !in provider
    ensures Cut(s, ':') == CutAt(provider, t)
  {
    CutOf(provider, ':', t);
    assert s == provider + [':'] + t;
  }

  predicate RepoText(s: string, full: string, owner: string, name: string) {
    s == "github:" + full && Lower(full) == owner + "/" + name && Label(owner, 1, 39) && RepoName(name)
  }

  lemma RepoSpellings(s: string, r: Ref)
    ensures ParseRepo(s) == Some(r) <==>
      exists full, owner, name :: RepoText(s, full, owner, name) && r == Repo("github", owner, name)
  {
    hide ParseRepo, RepoText;
    if full, owner, name :| RepoText(s, full, owner, name) && r == Repo("github", owner, name) { RepoRead(s, full, owner, name); }
    if ParseRepo(s) == Some(r) { var full := RepoCut(s); }
  }

  lemma RepoRead(s: string, full: string, owner: string, name: string)
    requires RepoText(s, full, owner, name)
    ensures ParseRepo(s) == Some(Repo("github", owner, name))
  {
    NameShapes(owner);
    assert '/' !in owner;
    hide Cut, GithubName, RepoName, Lower, Label;
    ProviderCut(s, "github", full);
    CutOf(owner, '/', name);
    assert owner + ['/'] + name == owner + "/" + name;
  }

  lemma RepoCut(s: string) returns (full: string)
    requires ParseRepo(s).Some?
    ensures var r := ParseRepo(s).value; r.Repo? && r.provider == "github" && RepoText(s, full, r.tenant, r.repo)
  {
    NoCutOf(s, ':');
    full := Cut(s, ':').after;
    NoCutOf(Lower(full), '/');
    var c := Cut(Lower(full), '/');
    if c.CutAt? { NameShapes(c.before); }
    hide Cut, GithubName, RepoName, Lower, Label;
    assert s == "github:" + full;
    assert Lower(full) == c.before + "/" + c.after;
  }

  ghost predicate OrganizationNumber(id: string) {
    exists digits :: id == "organizations/" + digits && 1 <= |digits| <= 20 && forall i :: 0 <= i < |digits| ==> '0' <= digits[i] <= '9'
  }

  ghost predicate CloudText(s: string, id: string) {
    s == "gcp:" + id && ((Label(id, 6, 30) && 'a' <= id[0] <= 'z') || OrganizationNumber(id))
  }

  lemma CloudSpellings(s: string, r: Ref)
    ensures ParseCloud(s) == Some(r) <==> exists id :: CloudText(s, id) && r == Cloud("gcp", id)
  {
    hide ParseCloud, CloudText;
    if id :| CloudText(s, id) && r == Cloud("gcp", id) { CloudRead(s, id); }
    if ParseCloud(s) == Some(r) {
      CloudCut(s);
      CloudRead(s, r.tenant);
    }
  }

  lemma CloudCut(s: string)
    requires ParseCloud(s).Some?
    ensures var r := ParseCloud(s).value; r.Cloud? && CloudText(s, r.tenant)
  {
    NoCutOf(s, ':');
    var id := Cut(s, ':').after;
    NameShapes(id);
    OrganizationIs(id);
    hide Cut, GcpProject, GcpOrg, Label, OrganizationNumber;
    assert s == "gcp:" + id;
  }

  lemma CloudRead(s: string, id: string)
    requires CloudText(s, id)
    ensures ParseCloud(s) == Some(Cloud("gcp", id))
  {
    NameShapes(id);
    OrganizationIs(id);
    hide Cut, GcpProject, GcpOrg, Label, OrganizationNumber;
    ProviderCut(s, "gcp", id);
  }

  lemma OrganizationIs(id: string)
    ensures GcpOrg(id) <==> OrganizationNumber(id)
  {
    if GcpOrg(id) {
      var digits := id[|ORGANIZATIONS|..];
      assert id == "organizations/" + digits;
    }
    if digits :| id == "organizations/" + digits && 1 <= |digits| <= 20 && forall i :: 0 <= i < |digits| ==> '0' <= digits[i] <= '9' {
      assert id[|ORGANIZATIONS|..] == digits;
    }
  }

  // ----- networks -----

  /** ::ffff:0:0/96, whose addresses are written as IPv4, and 64:ff9b:1::/48, which is never contacted. */
  predicate RefusedLiteral(a: Addr) {
    |a| == V6 && (a[..96] == Zeros(80) + GROUP_FFFF || a[..48] == GROUP_0064 + GROUP_FF9B + GROUP_0001)
  }

  lemma RefusedIs(a: Addr)
    ensures RefusedLiteral(a) <==> !CanonicalLiteral(a)
  {
    assert MAPPED.addr[..96] == Zeros(80) + GROUP_FFFF;
    assert NAT64_LOCAL.addr[..48] == GROUP_0064 + GROUP_FF9B + GROUP_0001;
  }

  /** An address is read in any spelling, but for the refused ones; any other text is a name in lower case. */
  lemma SiteSpellings(n: Netip, s: string)
    ensures ParseHostName(n, s) ==
      if n.parse(s).Some? then (if RefusedLiteral(n.parse(s).value) then None else Some(Literal(n.parse(s).value)))
      else if ValidName(Lower(s), 1) then Some(Named(Lower(s))) else None
  {
    if n.parse(s).Some? { RefusedIs(n.parse(s).value); }
  }

  /** A network is accepted in any spelling of its address, and only with its host bits zero and outside the refused ranges. */
  lemma NetworkSpellings(n: Netip, text: string, p: Prefix)
    requires n.parse(text) == Some(p.addr) && p.Valid()
    ensures ParseNetwork(n, text + "/" + Itoa(p.bits)) == if Canonical(Network(p)) then Some(Network(p)) else None
  {
    hide CutLast, Itoa, Value;
    CutLastOf(text, '/', Itoa(p.bits));
    assert text + "/" + Itoa(p.bits) == text + ['/'] + Itoa(p.bits);
    ValueOfItoa(p.bits);
    assert ParsePrefix(n, text + "/" + Itoa(p.bits)) == Some(p);
    hide ParsePrefix;
  }

  // ----- hosts -----

  /** A host written without a port is read on port 22; a user before it is no part of the locator. */
  lemma HostSpellings(n: Netip, site: Site, port: nat, user: string)
    requires Lawful(n) && CanonicalSite(site) && site != Named(LOCAL) && 1 <= port <= 65535 && SshUser(user)
    ensures ParseHost(n, HostText(n, site)) == Some(Host(site, 22))
    ensures ParseHost(n, HostText(n, site) + ":" + Itoa(port)) == Some(Host(site, port))
    ensures ParseHost(n, user + "@" + HostText(n, site)) == Some(Host(site, 22))
    ensures ParseHost(n, user + "@" + HostText(n, site) + ":" + Itoa(port)) == Some(Host(site, port))
  {
    hide SplitHost, ParseHostName, ParsePort, Itoa, Value, Lawful, CanonicalSite, DropUser, SshUser, HostText, SiteText;
    var plain, full := HostText(n, site), HostText(n, site) + ":" + Itoa(port);
    BareHost(n, site);
    HostTextPlain(n, site, Itoa(port));
    SplitHostOf(n, site, Itoa(port));
    PortReadsBack(port);
    SiteReadsBack(n, site);
    UserDropped(user, plain);
    UserDropped(user, full);
    assert ParsePort("") == Some(22) by { NoPort(); }
    assert user + "@" + plain + ":" + Itoa(port) == user + "@" + full;
  }

  lemma NoPort()
    ensures ParsePort("") == Some(22)
  {
  }

  lemma UserDropped(user: string, rest: string)
    requires SshUser(user)
    ensures DropUser(user + "@" + rest) == Some(rest) && user + "@" + rest != LOCAL
  {
    hide Cut;
    assert '@' !in user;
    CutOf(user, '@', rest);
    assert user + ['@'] + rest == user + "@" + rest;
    assert (user + "@" + rest)[|user|] == '@' && '@' !in LOCAL;
  }

  lemma BareHost(n: Netip, site: Site)
    requires Lawful(n) && CanonicalSite(site) && site != Named(LOCAL)
    ensures var s := HostText(n, site); s != LOCAL && DropUser(s) == Some(s) && SplitHost(n, s) == Some((SiteText(n, site), ""))
  {
    SiteTextShape(n, site);
    NotLocal(n, site);
    if site.Literal? && |site.addr| == V6 {
      assert n.parse(n.show(site.addr)) == Some(site.addr);
      BareBracketed(n, n.show(site.addr));
    } else {
      BarePlain(n, SiteText(n, site));
    }
  }

  lemma BareBracketed(n: Netip, text: string)
    requires AllIn(text, HexOrColon) && n.parse(text).Some? && |n.parse(text).value| == V6
    ensures var s := "[" + text + "]"; DropUser(s) == Some(s) && SplitHost(n, s) == Some((text, ""))
  {
    hide Cut;
    var s := "[" + text + "]";
    NoCutOf(s, '@');
    assert s == ("[" + text) + [']'] + "";
    CutOf("[" + text, ']', "");
    assert ("[" + text)[1..] == text;
  }

  lemma BarePlain(n: Netip, text: string)
    requires text != "" && AllIn(text, NameChar)
    ensures DropUser(text) == Some(text) && SplitHost(n, text) == Some((text, ""))
  {
    hide Cut;
    NoCutOf(text, '@');
    NoCutOf(text, ':');
    assert text[0] != '[';
  }

  lemma NotLocal(n: Netip, site: Site)
    requires Lawful(n) && CanonicalSite(site) && site != Named(LOCAL)
    ensures HostText(n, site) != LOCAL
  {
    SiteTextShape(n, site);
    if site.Literal? {
      if |site.addr| == V6 {
        assert HostText(n, site)[0] == '[';
      } else {
        assert DigitOrDot(n.show(site.addr)[0]);
      }
    }
  }

  // ----- urls -----

  lemma {:induction false} SchemeSpelled(sc: string, rest: string)
    requires IsScheme(Lower(sc)) && AllIn(rest, UrlChar)
    ensures SplitUrl(sc + ":" + rest) == SplitHierarchy(Lower(sc), rest)
  {
    hide Cut, SplitHierarchy;
    var s := sc + ":" + rest;
    assert forall i :: 0 <= i < |sc| ==> AsciiAlnum(sc[i]) && !IsDigit(sc[i]) by {
      forall i | 0 <= i < |sc| ensures AsciiAlnum(sc[i]) && !IsDigit(sc[i]) { assert LowerChar(sc[i]) == Lower(sc)[i]; }
    }
    assert '#' !in s && Printable(s);
    NoCutOf(s, '#');
    CutOf(sc, ':', rest);
    assert s == sc + [':'] + rest;
  }

  lemma NoPath(scheme: string, authority: string)
    requires authority != "" && AllIn(authority, HostChar) && SplitAuthority(authority).Some?
    ensures SplitHierarchy(scheme, "//" + authority) ==
      Some(UrlParts(scheme, SplitAuthority(authority).value.0, SplitAuthority(authority).value.1, ""))
  {
    hide Cut, SplitAuthority;
    var rest := "//" + authority;
    assert rest[2..] == authority;
    NoCutOf(authority, '/');
    assert '?' !in authority && '@' !in authority && '%' !in authority && '/' !in authority;
  }

  /** A path as it may be written in a url: nothing, or rooted and over the kept bytes and well formed escapes. */
  predicate PathText(path: string) {
    (path == "" || path[0] == '/') && (forall i :: 0 <= i < |path| ==> Kept(path[i]) || path[i] == '%') && Unescape(path).Plain?
  }

  /**
   * A url is read in any case of its scheme, its default port is dropped, and its path is decoded, cleaned and encoded
   * again; an empty path is the root.
   */
  lemma UrlSpellings(n: Netip, sc: string, site: Site, port: nat, path: string)
    requires Lawful(n) && CanonicalSite(site) && port <= 65535 && PathText(path) && (Lower(sc) == "http" || Lower(sc) == "https")
    ensures var default := if Lower(sc) == "https" then 443 else 80;
      ParseUrl(n, sc + "://" + (HostText(n, site) + PortText(port)) + path) ==
        Some(Url(Lower(sc), site, if port == default then 0 else port, Escape(Normal(Unescape(path).text))))
  {
    hide Lower, SplitUrl, Unescape, Normal, Escape, Itoa, Value, ParseHostName, CanonicalSite, Lawful, HostText, PortText, PathText;
    UrlSpelledSplits(n, sc, site, port, path);
    SiteReadsBack(n, site);
    if port != 0 { PortReadsBack(port); }
  }

  lemma UrlSpelledSplits(n: Netip, sc: string, site: Site, port: nat, path: string)
    requires Lawful(n) && CanonicalSite(site) && PathText(path) && IsScheme(Lower(sc))
    ensures SplitUrl(sc + "://" + (HostText(n, site) + PortText(port)) + path) ==
      Some(UrlParts(Lower(sc), SiteText(n, site), if port == 0 then "" else Itoa(port), Unescape(path).text))
  {
    hide SplitUrl, SplitHierarchy, SplitAuthority, Itoa, CanonicalSite, Lawful;
    AuthorityOf(n, site, port);
    AuthorityShape(n, site, port);
    var authority := HostText(n, site) + PortText(port);
    var rest := "//" + authority + path;
    RestChars(authority, path);
    SchemeSpelled(sc, rest);
    assert sc + "://" + authority + path == sc + ":" + rest;
    if path == "" {
      assert rest == "//" + authority;
      NoPath(Lower(sc), authority);
    } else {
      assert '?' !in path;
      SplitHierarchyOf(Lower(sc), authority, path);
    }
  }

  lemma {:induction false} PlainText(s: string)
    requires '%' !in s
    ensures Unescape(s) == Plain(s)
  {
    if s != "" {
      PlainText(s[1..]);
      assert [s[0]] + s[1..] == s;
    }
  }

  predicate PlainParts(parts: seq<string>) {
    NoSlash(parts) && forall i :: 0 <= i < |parts| ==> forall k :: 0 <= k < |parts[i]| ==> Kept(parts[i][k])
  }

  lemma {:induction false} PlainJoin(parts: seq<string>)
    requires PlainParts(parts)
    ensures forall i :: 0 <= i < |Join(parts, '/')| ==> Kept(Join(parts, '/')[i])
  {
    if |parts| > 1 { PlainJoin(parts[1..]); }
  }

  lemma PlainPath(parts: seq<string>)
    requires PlainParts(parts)
    ensures PathText(Rooted(parts)) && Unescape(Rooted(parts)) == Plain(Rooted(parts))
  {
    PlainJoin(parts);
    PlainText(Rooted(parts));
  }

  /** So a url with a segment and its parent is the url without them: one prefix, one locator, one id. */
  lemma ParentInUrl(n: Netip, sc: string, site: Site, port: nat, pre: seq<string>, s: string, post: seq<string>)
    requires Lawful(n) && CanonicalSite(site) && port <= 65535 && (Lower(sc) == "http" || Lower(sc) == "https")
    requires PlainParts(pre) && PlainParts([s]) && PlainParts(post) && Segment(s) && post != []
    ensures var host := sc + "://" + (HostText(n, site) + PortText(port));
      ParseUrl(n, host + Rooted(pre + [s, ".."] + post)) == ParseUrl(n, host + Rooted(pre + post))
  {
    PlainPath(pre + [s, ".."] + post) by { assert forall k :: 0 <= k < |s| ==> Kept([s][0][k]); }
    PlainPath(pre + post);
    hide Unescape, PathText, Rooted, PlainParts, HostText, PortText, Lawful, CanonicalSite, Normal, Escape, ParseUrl;
    UrlSpellings(n, sc, site, port, Rooted(pre + [s, ".."] + post));
    UrlSpellings(n, sc, site, port, Rooted(pre + post));
    ParentRemoved(pre, s, post);
  }
}
