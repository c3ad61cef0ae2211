/** Which path of which origin may be read, before and after its name is resolved (scope.go). */
module Admission {
  import opened Options
  import opened Addresses
  import opened LocatorSyntax
  import opened ScopeAlgebra

  const DAY := 24 * 60 * 60

  /** A first_party confirmation: the start of its date, None when the date does not parse, and where the name points. */
  datatype Confirmation = Confirmation(date: Option<int>, target: string) {
    /** From its date through its date plus 365 days. */
    predicate Current(at: int) {
      date.Some? && date.value <= at < date.value + 366 * DAY
    }
  }

  datatype Asset = Asset(ref: Ref, firstParty: Option<Confirmation>)

  /** The engagement file as the gate reads it. */
  datatype Scope = Scope(n: Netip, roots: seq<Ref>, assets: seq<Asset>, intent: seq<Ref>, at: int)

  datatype Evidence = UrlRoot(root: Ref) | HostRoot(root: Ref) | NetworkRoot(root: Ref) | Operator(target: string) | Moved(target: string)

  datatype Lookup = Lookup(addrs: seq<Addr>, target: string) {
    predicate PointsAt(t: string) {
      t != "" && target == t
    }
  }

  datatype Verdict = Admitted(firstParty: bool) | Refused(why: string) | Resolve

  datatype Site = Site(paths: set<string>, firstParty: bool, network: set<string>, confirmed: set<string>, ev: Option<Evidence>)

  const EMPTY := Site({}, false, {}, {}, None)
  const WELL_KNOWN := {"/robots.txt", "/.well-known/security.txt"}

  predicate Counts(ev: Option<Evidence>) {
    ev.Some? && !ev.value.Moved?
  }

  /** Address(): what a locator's host is dialled as, "" when it has none. */
  function AddressText(n: Netip, r: Ref): string {
    match r
    case Domain(name) => name
    case Url(_, site, _, _) => SiteText(n, site)
    case Host(site, _) => SiteText(n, site)
    case _ => ""
  }

  predicate SameOrigin(n: Netip, a: Ref, o: Ref)
    requires o.Url?
    ensures SameOrigin(n, a, o) ==> a.Url?
  {
    a.Url? && a.scheme == o.scheme && AddressText(n, a) == AddressText(n, o) && a.port == o.port
  }

  // ----- which root or asset speaks for an origin -----

  datatype Authority = ByUrl | ByHost | ByNetwork

  predicate Speaks(s: Scope, how: Authority, root: Ref, o: Ref)
    requires o.Url?
    ensures how == ByUrl ==> (Speaks(s, how, root, o) <==> SameOrigin(s.n, root, o))
  {
    match how
    case ByUrl => SameOrigin(s.n, root, o)
    case ByHost => o.port == 0 && root.Host? && root.site != Named(LOCAL) && AddressText(s.n, root) == AddressText(s.n, o)
    case ByNetwork => o.port == 0 && root.Network? && root.prefix.Valid() && o.site.Literal? && root.prefix.Contains(o.site.addr)
  }

  /** The first of the first k roots that speaks for the origin in that way. */
  function FirstRoot(s: Scope, how: Authority, o: Ref, k: nat): Option<Ref>
    requires o.Url? && k <= |s.roots|
  {
    if k == 0 then None
    else if FirstRoot(s, how, o, k - 1).Some? then FirstRoot(s, how, o, k - 1)
    else if Speaks(s, how, s.roots[k - 1], o) then Some(s.roots[k - 1])
    else None
  }

  /** A declared url entry a url root contains: the root is its authority. */
  predicate Contained(s: Scope, a: Asset, o: Ref)
    requires o.Url?
    ensures Contained(s, a, o) ==> SameOrigin(s.n, a.ref, o)
  {
    SameOrigin(s.n, a.ref, o) && exists i :: 0 <= i < |s.roots| && s.roots[i].Url? && Under(s.n, a.ref, s.roots[i])
  }

  /** An entry whose confirmation is inside its year and is about this origin. */
  predicate Confirmed(s: Scope, a: Asset, o: Ref)
    requires o.Url?
    ensures Confirmed(s, a, o) ==> !Contained(s, a, o) && a.firstParty.Some?
  {
    && !Contained(s, a, o)
    && a.firstParty.Some? && a.firstParty.value.Current(s.at)
    && (SameOrigin(s.n, a.ref, o) ||
        (o.port == 0 && (a.ref.Domain? || a.ref.Host?) && AddressText(s.n, a.ref) == AddressText(s.n, o)))
  }

  function FirstConfirmed(s: Scope, o: Ref, k: nat): (e: Option<Evidence>)
    requires o.Url? && k <= |s.assets|
    ensures e.Some? ==> e.value.Operator?
  {
    if k == 0 then None
    else if FirstConfirmed(s, o, k - 1).Some? then FirstConfirmed(s, o, k - 1)
    else if Confirmed(s, s.assets[k - 1], o) then Some(Operator(s.assets[k - 1].firstParty.value.target))
    else None
  }

  /** The file's evidence for an origin: a url root, a host root, a network root, then the operator's word. */
  function EvidenceOf(s: Scope, o: Ref): (e: Option<Evidence>)
    requires o.Url?
    ensures e.Some? ==> !e.value.Moved?
  {
    var all := |s.roots|;
    if FirstRoot(s, ByUrl, o, all).Some? then Some(UrlRoot(FirstRoot(s, ByUrl, o, all).value))
    else if FirstRoot(s, ByHost, o, all).Some? then Some(HostRoot(FirstRoot(s, ByHost, o, all).value))
    else if FirstRoot(s, ByNetwork, o, all).Some? then Some(NetworkRoot(FirstRoot(s, ByNetwork, o, all).value))
    else FirstConfirmed(s, o, |s.assets|)
  }

  function RootEntries(s: Scope, o: Ref, k: nat): set<string>
    requires o.Url? && k <= |s.roots|
  {
    set i | 0 <= i < k && SameOrigin(s.n, s.roots[i], o) :: s.roots[i].path
  }

  function AssetEntries(s: Scope, o: Ref, k: nat): set<string>
    requires o.Url? && k <= |s.assets|
  {
    set i | 0 <= i < k && SameOrigin(s.n, s.assets[i].ref, o)
      && (Contained(s, s.assets[i], o) || Confirmed(s, s.assets[i], o)) :: s.assets[i].ref.path
  }

  function Entries(s: Scope, o: Ref): set<string>
    requires o.Url?
  {
    RootEntries(s, o, |s.roots|) + AssetEntries(s, o, |s.assets|)
  }

  /** evidence: the loops that find an origin's evidence and entry points. */
  method FindEvidence(s: Scope, o: Ref) returns (ev: Option<Evidence>, entries: set<string>)
    requires o.Url?
    ensures ev == EvidenceOf(s, o) && entries == Entries(s, o)
  {
    hide SameOrigin, Contained, Confirmed, Speaks;
    ev, entries := None, {};
    for i := 0 to |s.roots|
      invariant entries == RootEntries(s, o, i)
      invariant ev == if FirstRoot(s, ByUrl, o, i).Some? then Some(UrlRoot(FirstRoot(s, ByUrl, o, i).value)) else None
    {
      if SameOrigin(s.n, s.roots[i], o) {
        entries := entries + {s.roots[i].path};
        if ev == None { ev := Some(UrlRoot(s.roots[i])); }
      }
    }
    ghost var byUrl := ev;
    for i := 0 to |s.roots|
      invariant byUrl.Some? ==> ev == byUrl
      invariant byUrl.None? ==> ev == if FirstRoot(s, ByHost, o, i).Some? then Some(HostRoot(FirstRoot(s, ByHost, o, i).value)) else None
    {
      if Speaks(s, ByHost, s.roots[i], o) && ev == None { ev := Some(HostRoot(s.roots[i])); }
    }
    ghost var byHost := ev;
    for i := 0 to |s.roots|
      invariant byHost.Some? ==> ev == byHost
      invariant byHost.None? ==> ev == if FirstRoot(s, ByNetwork, o, i).Some? then Some(NetworkRoot(FirstRoot(s, ByNetwork, o, i).value)) else None
    {
      if Speaks(s, ByNetwork, s.roots[i], o) && ev == None { ev := Some(NetworkRoot(s.roots[i])); }
    }
    ghost var byRoot := ev;
    for i := 0 to |s.assets|
      invariant entries == RootEntries(s, o, |s.roots|) + AssetEntries(s, o, i)
      invariant byRoot.Some? ==> ev == byRoot
      invariant byRoot.None? ==> ev == FirstConfirmed(s, o, i)
    {
      var a := s.assets[i];
      if Contained(s, a, o) {
        entries := entries + {a.ref.path};
      } else if Confirmed(s, a, o) {
        if SameOrigin(s.n, a.ref, o) { entries := entries + {a.ref.path}; }
        if ev == None { ev := Some(Operator(a.firstParty.value.target)); }
      }
    }
  }

  // ----- the paths an origin may be read at -----

  /** The origin as a locator: None unless it is written canonically. */
  function Origin(s: Scope, origin: string): (o: Option<Ref>)
    ensures o.Some? ==> o.value.Url?
  {
    match ParseUrl(s.n, origin + "/")
    case Some(Url(scheme, site, port, path)) =>
      var o := Url(scheme, site, port, path);
      if path == "/" && Id(s.n, o) == "url:" + origin + "/" then Some(o) else None
    case _ => None
  }

  /** Some root gives the origin its front page, on its default port. */
  predicate Front(s: Scope, o: Ref)
    requires o.Url?
  {
    o.port == 0 && exists i :: 0 <= i < |s.roots| && FrontRoot(s, s.roots[i], o)
  }

  predicate FrontRoot(s: Scope, root: Ref, o: Ref)
    requires o.Url?
  {
    match root
    case Domain(d) => DomainUnder(NameOf(o), d)
    case _ => Speaks(s, ByHost, root, o) || Speaks(s, ByNetwork, root, o)
  }

  predicate HasNetworkRoot(s: Scope) {
    exists i :: 0 <= i < |s.roots| && s.roots[i].Network?
  }

  function IntentPaths(s: Scope, o: Ref): set<string>
    requires o.Url?
  {
    set i | 0 <= i < |s.intent| && SameOrigin(s.n, s.intent[i], o) :: s.intent[i].path
  }

  /** site: suspended are the names whose confirmation a provider fingerprint invalidated. */
  function SiteOf(s: Scope, suspended: set<string>, o: Ref): (sp: Site)
    requires o.Url?
    ensures sp.confirmed != {} ==> sp.ev.Some? && sp.ev.value.Operator?
  {
    var dropped := EvidenceOf(s, o).Some? && EvidenceOf(s, o).value.Operator? && NameOf(o) in suspended;
    var ev := if dropped then None else EvidenceOf(s, o);
    var entries := if dropped then {} else Entries(s, o);
    if !Front(s, o) && ev == None then EMPTY
    else
      var front := if Front(s, o) then {"/"} else {};
      var more := WELL_KNOWN + entries + IntentPaths(s, o);
      var word := ev.Some? && ev.value.Operator?;
      Site(if ev.Some? && !word then front + more else front,
           ev.Some? && !word,
           if (ev.None? || word) && HasNetworkRoot(s) then more else {},
           if word then more else {},
           ev)
  }

  /** site: its loops over the roots and the intent urls. */
  method ListSite(s: Scope, suspended: set<string>, o: Ref) returns (sp: Site)
    requires o.Url?
    ensures sp == SiteOf(s, suspended, o)
  {
    hide SameOrigin, FrontRoot, EvidenceOf, Entries;
    var front := false;
    if o.port == 0 {
      for i := 0 to |s.roots|
        invariant front <==> exists k :: 0 <= k < i && FrontRoot(s, s.roots[k], o)
      {
        front := front || FrontRoot(s, s.roots[i], o);
      }
    }
    var ev, entries := FindEvidence(s, o);
    if ev.Some? && ev.value.Operator? && NameOf(o) in suspended { ev, entries := None, {}; }
    if !front && ev == None { return EMPTY; }
    var more := WELL_KNOWN + entries;
    ghost var listed := more;
    for i := 0 to |s.intent|
      invariant more == listed + set k | 0 <= k < i && SameOrigin(s.n, s.intent[k], o) :: s.intent[k].path
    {
      if SameOrigin(s.n, s.intent[i], o) { more := more + {s.intent[i].path}; }
    }
    sp := EMPTY.(ev := ev, paths := if front then {"/"} else {});
    if ev.Some? && !ev.value.Operator? {
      sp := sp.(paths := sp.paths + more, firstParty := true);
    } else if ev.Some? {
      sp := sp.(confirmed := more);
    }
    if (ev == None || ev.value.Operator?) && HasNetworkRoot(s) { sp := sp.(network := more); }
  }

  // ----- the decision -----

  /** The root is a network that holds the address in one of its forms. */
  predicate RootHolds(root: Ref, a: Addr) {
    root.Network? && root.prefix.Valid() && exists j :: 0 <= j < |Forms(a)| && root.prefix.Contains(Forms(a)[j])
  }

  predicate InNetworkRoot(s: Scope, a: Addr) {
    exists i :: 0 <= i < |s.roots| && RootHolds(s.roots[i], a)
  }

  predicate AllInNetworkRoots(s: Scope, l: Lookup) {
    |l.addrs| > 0 && forall i :: 0 <= i < |l.addrs| ==> InNetworkRoot(s, l.addrs[i])
  }

  function RootHolding(s: Scope, a: Addr, k: nat): (r: Option<Ref>)
    requires k <= |s.roots|
    ensures r.Some? <==> exists i :: 0 <= i < k && RootHolds(s.roots[i], a)
  {
    if k == 0 then None
    else if RootHolding(s, a, k - 1).Some? then RootHolding(s, a, k - 1)
    else if RootHolds(s.roots[k - 1], a) then Some(s.roots[k - 1])
    else None
  }

  /** resolvedEvidence: a confirmation holds while the name points at its target; else a network root may. */
  method ResolvedEvidence(s: Scope, ev: Option<Evidence>, l: Lookup) returns (r: Option<Evidence>)
    ensures r == ResolvedOf(s, ev, l)
  {
    var file := ev;
    if ev.Some? && ev.value.Operator? && !l.PointsAt(ev.value.target) { file := Some(Moved(ev.value.target)); }
    if Counts(file) || |l.addrs| == 0 { return file; }
    var held := None;
    for i := 0 to |l.addrs|
      invariant forall k :: 0 <= k < i ==> InNetworkRoot(s, l.addrs[k])
      invariant held == if i == 0 then None else RootHolding(s, l.addrs[0], |s.roots|)
    {
      var root := RootHolding(s, l.addrs[i], |s.roots|);
      if root == None { return file; }
      if held == None { held := root; }
    }
    return Some(NetworkRoot(held.value));
  }

  function ResolvedOf(s: Scope, ev: Option<Evidence>, l: Lookup): (r: Option<Evidence>)
    ensures Counts(r) <==>
      || (ev.Some? && !ev.value.Moved? && !ev.value.Operator?)
      || (ev.Some? && ev.value.Operator? && l.PointsAt(ev.value.target))
      || AllInNetworkRoots(s, l)
  {
    var file := if ev.Some? && ev.value.Operator? && !l.PointsAt(ev.value.target) then Some(Moved(ev.value.target)) else ev;
    if Counts(file) || !AllInNetworkRoots(s, l) then file
    else Some(NetworkRoot(RootHolding(s, l.addrs[0], |s.roots|).value))
  }

  function SiteAt(s: Scope, suspended: set<string>, origin: string): Site {
    if Origin(s, origin).Some? then SiteOf(s, suspended, Origin(s, origin).value) else EMPTY
  }

  function Decide(s: Scope, sp: Site, path: string, l: Option<Lookup>): Verdict {
    if path in sp.paths then Admitted(sp.firstParty)
    else if path !in sp.network && path !in sp.confirmed then Refused("entry_point")
    else if l == None then Resolve
    else if Counts(ResolvedOf(s, if path in sp.confirmed then sp.ev else None, l.value)) then Admitted(true)
    else Refused("address_moved")
  }

  function Admits(s: Scope, suspended: set<string>, origin: string, path: string, l: Option<Lookup>): Verdict {
    Decide(s, SiteAt(s, suspended, origin), path, l)
  }

  // ----- laws -----

  /** The answer after resolution refines the answer before it. */
  lemma ResolutionRefines(s: Scope, suspended: set<string>, origin: string, path: string, l: Lookup)
    ensures var before, after := Admits(s, suspended, origin, path, None), Admits(s, suspended, origin, path, Some(l));
      && (!before.Resolve? ==> after == before)
      && !after.Resolve?
      && (before.Resolve? && after.Refused? ==> after.why == "address_moved")
  {
  }

  lemma {:induction false} FirstRootSource(s: Scope, how: Authority, o: Ref, k: nat)
    requires o.Url? && k <= |s.roots| && FirstRoot(s, how, o, k).Some?
    ensures exists i :: 0 <= i < k && Speaks(s, how, s.roots[i], o)
  {
    if FirstRoot(s, how, o, k - 1).Some? { FirstRootSource(s, how, o, k - 1); }
  }

  /** A root of the file places the origin: its front page, or a path well known, declared or intended for it. */
  ghost predicate RootGrounds(s: Scope, o: Ref, path: string)
    requires o.Url?
  {
    || (path == "/" && o.port == 0 && exists i :: 0 <= i < |s.roots| && FrontRoot(s, s.roots[i], o))
    || (path in WELL_KNOWN + Entries(s, o) + IntentPaths(s, o) &&
        exists i, how :: 0 <= i < |s.roots| && Speaks(s, how, s.roots[i], o))
  }

  /** What is admitted before resolution is admitted by a root: never by the operator's word alone. */
  lemma FileAdmissionGround(s: Scope, suspended: set<string>, origin: string, path: string)
    requires Admits(s, suspended, origin, path, None).Admitted?
    ensures Origin(s, origin).Some? && RootGrounds(s, Origin(s, origin).value, path)
  {
    hide Origin, FrontRoot, Speaks, Entries, IntentPaths, FirstConfirmed;
    var o, all := Origin(s, origin).value, |s.roots|;
    if FirstRoot(s, ByUrl, o, all).Some? {
      FirstRootSource(s, ByUrl, o, all);
    } else if FirstRoot(s, ByHost, o, all).Some? {
      FirstRootSource(s, ByHost, o, all);
    } else if FirstRoot(s, ByNetwork, o, all).Some? {
      FirstRootSource(s, ByNetwork, o, all);
    }
  }

  /** The confirmation the gate may still rely on for this path of this origin. */
  ghost predicate ConfirmationHolds(s: Scope, suspended: set<string>, origin: string, path: string, l: Lookup) {
    exists i ::
      && 0 <= i < |s.assets|
      && Origin(s, origin).Some?
      && Confirmed(s, s.assets[i], Origin(s, origin).value)
      && NameOf(Origin(s, origin).value) !in suspended
      && l.PointsAt(s.assets[i].firstParty.value.target)
      && path in WELL_KNOWN + Entries(s, Origin(s, origin).value) + IntentPaths(s, Origin(s, origin).value)
  }

  lemma {:induction false} FirstConfirmedSource(s: Scope, o: Ref, k: nat)
    requires o.Url? && k <= |s.assets| && FirstConfirmed(s, o, k).Some?
    ensures exists i :: (0 <= i < k && Confirmed(s, s.assets[i], o)
      && FirstConfirmed(s, o, k) == Some(Operator(s.assets[i].firstParty.value.target)))
  {
    hide Confirmed;
    if FirstConfirmed(s, o, k - 1).Some? { FirstConfirmedSource(s, o, k - 1); }
  }

  /** What is admitted only after resolution is admitted by a holding confirmation or by network roots alone. */
  lemma ResolvedAdmissionGround(s: Scope, suspended: set<string>, origin: string, path: string, l: Lookup)
    requires Admits(s, suspended, origin, path, None).Resolve?
    requires Admits(s, suspended, origin, path, Some(l)).Admitted?
    ensures ConfirmationHolds(s, suspended, origin, path, l) || AllInNetworkRoots(s, l)
  {
    hide Origin, Front, Contained, Confirmed, SameOrigin, Speaks, ResolvedOf, AllInNetworkRoots;
    var o := Origin(s, origin).value;
    var sp := SiteOf(s, suspended, o);
    if path in sp.confirmed && !AllInNetworkRoots(s, l) {
      FirstConfirmedSource(s, o, |s.assets|);
    }
  }

  /** Exactly when a path left open by the file is admitted once the name is resolved. */
  lemma ResolvedAdmissionExactly(s: Scope, suspended: set<string>, origin: string, path: string, l: Lookup)
    requires Admits(s, suspended, origin, path, None).Resolve?
    ensures var sp := SiteOf(s, suspended, Origin(s, origin).value);
      Admits(s, suspended, origin, path, Some(l)).Admitted? <==>
        (path in sp.confirmed && l.PointsAt(sp.ev.value.target)) || AllInNetworkRoots(s, l)
  {
  }

  /** A site that lists no more, and rests on no more than the operator's word where it lists less. */
  predicate ListsNoMore(b: Site, a: Site) {
    && b.paths <= a.paths && b.network <= a.network && b.confirmed <= a.confirmed
    && (b == a || (b.paths == a.paths && b.firstParty == a.firstParty && b.confirmed == {}))
  }

  lemma SuspensionListsLess(s: Scope, fewer: set<string>, more: set<string>, origin: string)
    requires fewer <= more
    ensures ListsNoMore(SiteAt(s, more, origin), SiteAt(s, fewer, origin))
  {
    hide Origin, Front, EvidenceOf, Entries, IntentPaths, HasNetworkRoot;
  }

  /** Suspending more confirmations admits no more, before and after resolution. */
  lemma SuspensionAdmitsLess(s: Scope, fewer: set<string>, more: set<string>, origin: string, path: string, l: Option<Lookup>)
    requires fewer <= more
    ensures Admits(s, more, origin, path, l).Admitted? ==> Admits(s, fewer, origin, path, l) == Admits(s, more, origin, path, l)
    ensures Admits(s, more, origin, path, l).Resolve? ==> Admits(s, fewer, origin, path, l).Resolve?
    ensures Admits(s, fewer, origin, path, l).Refused? ==> Admits(s, more, origin, path, l).Refused?
  {
    hide SiteAt, ResolvedOf;
    SuspensionListsLess(s, fewer, more, origin);
  }
}
