/**
 Locators: the seven kinds, their canonical ids, and the parsers between text and locator.

 net/netip's text form of an address is a parameter: any printer and parser that satisfy Lawful.
 Error wording, a host's SSH user and the text as written are not part of a locator here.
 */
module LocatorSyntax {
  import opened Options
  import opened Addresses
  import opened Decimal
  import opened Text
  import opened UrlPaths

  datatype Netip = Netip(show: Addr -> string, parse: string -> Option<Addr>)

  datatype Site = Named(name: string) | Literal(addr: Addr)

  datatype Ref =
    | Domain(name: string)
    | Url(scheme: string, site: Site, port: nat, path: string)
    | Host(site: Site, port: nat)
    | Network(prefix: Prefix)
    | SaaS(provider: string, tenant: string)
    | Repo(provider: string, tenant: string, repo: string)
    | Cloud(provider: string, tenant: string)

  const LOCAL := "local"
  const GITHUB := "github"
  const WORKSPACE := "google-workspace"
  const GCP := "gcp"
  const ORGANIZATIONS := "organizations/"

  // ----- alphabets and name shapes -----

  predicate LowerAlnum(c: char) { 'a' <= c <= 'z' || IsDigit(c) }
  predicate LabelChar(c: char) { LowerAlnum(c) || c == '-' }
  predicate NameChar(c: char) { LabelChar(c) || c == '.' }
  predicate DigitOrDot(c: char) { IsDigit(c) || c == '.' }
  predicate HexOrColon(c: char) { IsDigit(c) || 'a' <= c <= 'f' || c == ':' || c == '.' }
  predicate HostChar(c: char) { NameChar(c) || c == ':' || c == '[' || c == ']' }
  predicate RepoChar(c: char) { NameChar(c) || c == '_' }

  /** [a-z0-9]([a-z0-9-]{0,max-2}[a-z0-9])? */
  predicate Hyphenated(l: string, max: nat) {
    1 <= |l| <= max && LowerAlnum(l[0]) && LowerAlnum(l[|l| - 1]) && AllIn(l, LabelChar)
  }

  predicate DnsLabel(l: string) { Hyphenated(l, 63) }
  predicate GithubName(l: string) { Hyphenated(l, 39) }
  predicate RepoName(l: string) { 1 <= |l| <= 100 && AllIn(l, RepoChar) && l != "." && l != ".." }
  predicate GcpProject(l: string) { 6 <= |l| && Hyphenated(l, 30) && 'a' <= l[0] <= 'z' }
  predicate GcpOrg(l: string) {
    HasPrefix(l, ORGANIZATIONS) && 1 <= |l| - |ORGANIZATIONS| <= 20 && AllDigits(l[|ORGANIZATIONS|..])
  }

  /** checkLabels accepts d. */
  predicate ValidName(d: string, min: nat) {
    var labels := Split(d, '.');
    && |d| <= 253
    && |labels| >= min
    && !AllDigits(labels[|labels| - 1])
    && forall i :: 0 <= i < |labels| ==> DnsLabel(labels[i])
  }

  // ----- netip -----

  /** What the code relies on: printing then parsing is the identity, and no host name reads as an address. */
  ghost predicate Lawful(n: Netip) {
    && (forall a: Addr :: n.parse(n.show(a)) == Some(a))
    && (forall a: Addr :: |a| == V4 ==> AllIn(n.show(a), DigitOrDot))
    && (forall a: Addr :: |a| == V6 ==> ':' in n.show(a) && AllIn(n.show(a), HexOrColon))
    && (forall s :: n.parse(s).Some? ==> ':' in s || (s != "" && AllIn(s, DigitOrDot)))
  }

  // ----- canonical locators and their ids -----

  predicate CanonicalLiteral(a: Addr) {
    !MAPPED.Contains(a) && !NAT64_LOCAL.Contains(a)
  }

  predicate CanonicalSite(s: Site) {
    match s
    case Named(name) => ValidName(name, 1)
    case Literal(a) => CanonicalLiteral(a)
  }

  function DefaultPort(scheme: string): nat {
    if scheme == "https" then 443 else if scheme == "http" then 80 else 0
  }

  predicate IsScheme(s: string) { s == "http" || s == "https" }

  ghost predicate Canonical(r: Ref) {
    match r
    case Domain(name) => ValidName(name, 2)
    case Url(scheme, site, port, path) =>
      IsScheme(scheme) && CanonicalSite(site) && port <= 65535 && port != DefaultPort(scheme) && CanonicalPath(path)
    case Host(site, port) =>
      if site == Named(LOCAL) then port == 0 else CanonicalSite(site) && 1 <= port <= 65535
    case Network(p) =>
      HostBitsZero(p) && !MAPPED.Contains(p.addr) && !(p.bits >= NAT64_LOCAL.bits && NAT64_LOCAL.Contains(p.addr))
    case SaaS(provider, tenant) =>
      (provider == GITHUB && GithubName(tenant)) || (provider == WORKSPACE && ValidName(tenant, 2))
    case Repo(provider, tenant, repo) => provider == GITHUB && GithubName(tenant) && RepoName(repo)
    case Cloud(provider, tenant) => provider == GCP && (GcpProject(tenant) || GcpOrg(tenant))
  }

  function SiteText(n: Netip, s: Site): string {
    match s
    case Named(name) => name
    case Literal(a) => n.show(a)
  }

  function HostText(n: Netip, s: Site): string {
    if s.Literal? && |s.addr| == V6 then "[" + n.show(s.addr) + "]" else SiteText(n, s)
  }

  function KindOf(r: Ref): string {
    match r
    case Domain(_) => "domain"
    case Url(_, _, _, _) => "url"
    case Host(_, _) => "host"
    case Network(_) => "network"
    case SaaS(_, _) => "saas"
    case Repo(_, _, _) => "repo"
    case Cloud(_, _) => "cloud"
  }

  function PortText(port: nat): string {
    if port == 0 then "" else ":" + Itoa(port)
  }

  /** The part of the id after its kind. */
  function Body(n: Netip, r: Ref): string {
    match r
    case Domain(name) => name
    case Url(scheme, site, port, path) => scheme + "://" + (HostText(n, site) + PortText(port)) + path
    case Host(site, port) => if site == Named(LOCAL) then LOCAL else HostText(n, site) + ":" + Itoa(port)
    case Network(p) => n.show(p.addr) + "/" + Itoa(p.bits)
    case SaaS(provider, tenant) => provider + ":" + tenant
    case Repo(provider, tenant, repo) => provider + ":" + (tenant + "/" + repo)
    case Cloud(provider, tenant) => provider + ":" + tenant
  }

  function Id(n: Netip, r: Ref): string {
    KindOf(r) + ":" + Body(n, r)
  }

  // ----- parsers -----

  function ParseDomain(n: Netip, s: string): Option<string> {
    var d := TrimSuffix(Lower(s), '.');
    if n.parse(d).Some? || '/' in d || ':' in d || '@' in d || '*' in d || !ValidName(d, 2) then None else Some(d)
  }

  /** parseHostName; an address with a zone is not parsed. */
  function ParseHostName(n: Netip, s: string): Option<Site> {
    match n.parse(s)
    case Some(a) => if CanonicalLiteral(a) then Some(Literal(a)) else None
    case None => if ValidName(Lower(s), 1) then Some(Named(Lower(s))) else None
  }

  predicate SshUser(u: string) {
    1 <= |u| <= 32 && (AsciiAlnum(u[0]) || u[0] == '_')
    && forall i :: 0 <= i < |u| ==> AsciiAlnum(u[i]) || u[i] in "_.-"
  }

  predicate PortDigits(p: string) {
    AllDigits(p) && 1 <= Value(p) <= 65535
  }

  /** The port of a host locator: absent is 22, and a written one has one spelling. */
  function ParsePort(p: string): Option<nat> {
    if p == "" then Some(22)
    else if PortDigits(p) && Itoa(Value(p)) == p then Some(Value(p))
    else None
  }

  /** address[:port], or [address][:port] for IPv6. */
  function SplitHost(n: Netip, rest: string): Option<(string, string)> {
    if HasPrefix(rest, "[") then
      match Cut(rest, ']')
      case NoCut => None
      case CutAt(before, tail) =>
        var addr := before[1..];
        if n.parse(addr).None? || |n.parse(addr).value| != V6 then None
        else if tail == "" then Some((addr, ""))
        else if tail[0] == ':' then Some((addr, tail[1..]))
        else None
    else match Cut(rest, ':')
      case NoCut => Some((rest, ""))
      case CutAt(addr, port) => if ':' in port then None else Some((addr, port))
  }

  /** The text after a user name, or None when the user part is not one. */
  function DropUser(s: string): Option<string> {
    match Cut(s, '@')
    case NoCut => Some(s)
    case CutAt(user, after) => if SshUser(user) then Some(after) else None
  }

  function ParseHost(n: Netip, s: string): Option<Ref> {
    if s == LOCAL then Some(Host(Named(LOCAL), 0))
    else match DropUser(s)
      case None => None
      case Some(rest) =>
        match SplitHost(n, rest)
        case None => None
        case Some((addr, port)) =>
          match (ParsePort(port), ParseHostName(n, addr))
          case (Some(p), Some(site)) => if site == Named(LOCAL) then None else Some(Host(site, p))
          case _ => None
  }

  function ParsePrefix(n: Netip, s: string): Option<Prefix> {
    match CutLast(s, '/')
    case NoCut => None
    case CutAt(addr, bits) =>
      if n.parse(addr).None? || bits == "" || !AllDigits(bits) || (|bits| > 1 && bits[0] == '0') then None
      else if Value(bits) > |n.parse(addr).value| then None
      else Some(Prefix(n.parse(addr).value, Value(bits)))
  }

  function ParseNetwork(n: Netip, s: string): Option<Ref> {
    match ParsePrefix(n, s)
    case None => None
    case Some(p) =>
      if !p.Valid() || MAPPED.Contains(p.addr) || (p.bits >= NAT64_LOCAL.bits && NAT64_LOCAL.Contains(p.addr)) || p.Masked() != p
      then None else Some(Network(p))
  }

  datatype UrlParts = UrlParts(scheme: string, hostname: string, port: string, path: string)

  predicate SchemeText(s: string) {
    s != "" && AsciiAlnum(s[0]) && !IsDigit(s[0]) && forall i :: 0 <= i < |s| ==> AsciiAlnum(s[i]) || s[i] in "+-."
  }

  /** A URL's authority as Hostname() and Port() read it. */
  function SplitAuthority(a: string): Option<(string, string)> {
    if HasPrefix(a, "[") then
      match CutLast(a, ']')
      case NoCut => None
      case CutAt(before, tail) =>
        if before == "" || (tail != "" && (tail[0] != ':' || !AllDigits(tail[1..]))) then None
        else Some((before[1..], if tail == "" then "" else tail[1..]))
    else match CutLast(a, ':')
      case NoCut => Some((a, ""))
      case CutAt(h, p) => if AllDigits(p) then Some((h, p)) else None
  }

  predicate Printable(s: string) {
    forall i :: 0 <= i < |s| ==> ' ' <= s[i] && s[i] != 127 as char
  }

  /** The text after a scheme's // up to its first slash, and the rest. */
  function AuthorityAndPath(s: string): (string, string) {
    match Cut(s, '/')
    case NoCut => (s, "")
    case CutAt(before, after) => (before, "/" + after)
  }

  /** The text without an empty fragment; None when it has a fragment. */
  function DropFragment(s: string): Option<string> {
    match Cut(s, '#')
    case NoCut => Some(s)
    case CutAt(before, after) => if after == "" then Some(before) else None
  }

  /** The part of a URL after its scheme's colon. */
  function SplitHierarchy(scheme: string, rest: string): Option<UrlParts> {
    if '?' in rest || !HasPrefix(rest, "//") then None
    else
      var (authority, path) := AuthorityAndPath(rest[2..]);
      if authority == "" || '@' in authority || '%' in authority then None
      else match (SplitAuthority(authority), Unescape(path))
        case (Some((h, p)), Plain(decoded)) => Some(UrlParts(scheme, h, p, decoded))
        case _ => None
  }

  /** url.Parse where parseURL goes on: what it refuses (a user, a query, a fragment, no host) is None. */
  function SplitUrl(s: string): Option<UrlParts> {
    match DropFragment(s)
    case None => None
    case Some(u) =>
      match Cut(u, ':')
      case NoCut => None
      case CutAt(scheme, rest) =>
        if !Printable(u) || !SchemeText(scheme) then None else SplitHierarchy(Lower(scheme), rest)
  }

  function UrlPort(scheme: string, p: string): Option<nat> {
    if p == "" then Some(0)
    else if !PortDigits(p) then None
    else if Value(p) == DefaultPort(scheme) then Some(0)
    else Some(Value(p))
  }

  function ParseUrl(n: Netip, s: string): Option<Ref> {
    match SplitUrl(s)
    case None => None
    case Some(u) =>
      if !IsScheme(u.scheme) then None
      else match (ParseHostName(n, u.hostname), UrlPort(u.scheme, u.port))
        case (Some(site), Some(port)) => Some(Url(u.scheme, site, port, Escape(Normal(u.path))))
        case _ => None
  }

  function ParseSaaS(n: Netip, s: string): Option<Ref> {
    match Cut(s, ':')
    case NoCut => None
    case CutAt(provider, tenant) =>
      if provider == GITHUB then
        if GithubName(Lower(tenant)) then Some(SaaS(provider, Lower(tenant))) else None
      else if provider == WORKSPACE then
        match ParseDomain(n, tenant)
        case None => None
        case Some(d) => Some(SaaS(provider, d))
      else None
  }

  function ParseRepo(s: string): Option<Ref> {
    match Cut(s, ':')
    case NoCut => None
    case CutAt(provider, full) =>
      if provider != GITHUB then None
      else match Cut(Lower(full), '/')
        case NoCut => None
        case CutAt(owner, name) =>
          if GithubName(owner) && RepoName(name) then Some(Repo(provider, owner, name)) else None
  }

  function ParseCloud(s: string): Option<Ref> {
    match Cut(s, ':')
    case NoCut => None
    case CutAt(provider, id) =>
      if provider == GCP && (GcpProject(id) || GcpOrg(id)) then Some(Cloud(provider, id)) else None
  }

  function ParseLocator(n: Netip, kind: string, s: string): Option<Ref> {
    if kind == "domain" then
      match ParseDomain(n, s)
      case None => None
      case Some(d) => Some(Domain(d))
    else if kind == "url" then ParseUrl(n, s)
    else if kind == "host" then ParseHost(n, s)
    else if kind == "network" then ParseNetwork(n, s)
    else if kind == "saas" then ParseSaaS(n, s)
    else if kind == "repo" then ParseRepo(s)
    else if kind == "cloud" then ParseCloud(s)
    else None
  }

  function ParseId(n: Netip, id: string): Option<Ref> {
    match Cut(id, ':')
    case NoCut => None
    case CutAt(kind, rest) =>
      match ParseLocator(n, kind, rest)
      case None => None
      case Some(r) => if Id(n, r) == id then Some(r) else None
  }
}
