/** Exactly which paths are admitted, on the roots, assets and confirmations themselves (scope.go). */
module AdmissionMeaning {
  import opened Options
  import opened Addresses
  import opened Text
  import opened UrlPaths
  import opened LocatorSyntax
  import opened LocatorRoundTrip
  import opened ScopeAlgebra
  import opened ScopeMeaning
  import opened Admission

  /** Every locator of the file was accepted as one. */
  ghost predicate CanonicalScope(s: Scope) {
    Lawful(s.n) && (forall r :: r in s.roots ==> Canonical(r)) && (forall a :: a in s.assets ==> Canonical(a.ref)) &&
    forall u :: u in s.intent ==> Canonical(u)
  }

  // ----- what a root says of an origin -----

  predicate OnOrigin(a: Ref, o: Ref)
    requires o.Url?
  {
    a.Url? && a.scheme == o.scheme && a.site == o.site && a.port == o.port
  }

  /** The root is a site of this address, or a network holding it: on the default port alone. */
  predicate AddressRoot(root: Ref, o: Ref)
    requires o.Url?
  {
    o.port == 0 &&
    match root
    case Host(site, _) => site != LocatorSyntax.Named("local") && site == o.site
    case Network(p) => o.site.Literal? && p.Valid() && p.Contains(o.site.addr)
    case _ => false
  }

  predicate RootSpeaks(root: Ref, o: Ref)
    requires o.Url?
  {
    OnOrigin(root, o) || AddressRoot(root, o)
  }

  /** The front page is admitted: the name is under a domain root by labels, or the address is a root's, on the default port. */
  ghost predicate FrontAdmitted(s: Scope, o: Ref)
    requires o.Url?
  {
    exists r :: r in s.roots && (AddressRoot(r, o) || (r.Domain? && o.port == 0 && o.site.Named? && LabelsUnder(o.site.name, r.name)))
  }

  /** Inside its year: on its day or one of the 365 after it. */
  predicate InYear(c: Confirmation, at: int) { c.date.Some? && 0 <= at - c.date.value < 366 * 86400 }

  ghost predicate UnderUrlRoot(s: Scope, a: Ref) { exists r :: r in s.roots && r.Url? && Lies(a, r) }

  /** The operator's word for the origin: a current confirmation of its url, or of its name or address on the default port. */
  ghost predicate WordFor(s: Scope, a: Asset, o: Ref)
    requires o.Url?
  {
    a.firstParty.Some? && InYear(a.firstParty.value, s.at) && !(OnOrigin(a.ref, o) && UnderUrlRoot(s, a.ref)) &&
    (OnOrigin(a.ref, o) || (o.port == 0 && match a.ref
      case Domain(name) => o.site == LocatorSyntax.Named(name)
      case Host(site, _) => o.site == site
      case _ => false))
  }

  /** The paths beyond the front page: the two well known ones, and those of roots, assets and intents on the origin. */
  ghost predicate Listed(s: Scope, o: Ref, entries: bool, path: string)
    requires o.Url?
  {
    path == "/robots.txt" || path == "/.well-known/security.txt" ||
    (exists u :: u in s.intent && OnOrigin(u, o) && u.path == path) ||
    (entries && ((exists r :: r in s.roots && OnOrigin(r, o) && r.path == path) ||
                 (exists a :: a in s.assets && OnOrigin(a.ref, o) && a.ref.path == path && (UnderUrlRoot(s, a.ref) || WordFor(s, a, o)))))
  }

  // ----- the model's predicates are these -----

  lemma SameText(n: Netip, a: LocatorSyntax.Site, b: LocatorSyntax.Site)
    requires Lawful(n) && CanonicalSite(a) && CanonicalSite(b)
    ensures SiteText(n, a) == SiteText(n, b) <==> a == b
  {
    if SiteText(n, a) == SiteText(n, b) { SiteTextInjective(n, a, b); }
  }

  lemma SiteOk(r: Ref)
    requires Canonical(r)
    ensures r.Url? || r.Host? ==> CanonicalSite(r.site)
    ensures r.Domain? ==> CanonicalSite(LocatorSyntax.Named(r.name))
  {
    LocalIsName();
    hide CanonicalPath, Split;
  }

  lemma OriginIs(n: Netip, a: Ref, o: Ref)
    requires Lawful(n) && Canonical(a) && Canonical(o) && o.Url?
    ensures SameOrigin(n, a, o) <==> OnOrigin(a, o)
  {
    SiteOk(a);
    SiteOk(o);
    if a.Url? { SameText(n, a.site, o.site); }
    hide Lawful, Canonical, CanonicalSite;
  }

  lemma SpeaksIs(s: Scope, root: Ref, o: Ref)
    requires Lawful(s.n) && Canonical(root) && Canonical(o) && o.Url?
    ensures Speaks(s, ByUrl, root, o) <==> OnOrigin(root, o)
    ensures Speaks(s, ByHost, root, o) || Speaks(s, ByNetwork, root, o) <==> AddressRoot(root, o)
  {
    OriginIs(s.n, root, o);
    SiteOk(root);
    SiteOk(o);
    if root.Host? { SameText(s.n, root.site, o.site); }
    hide Lawful, Canonical, CanonicalSite;
  }

  lemma FrontIs(s: Scope, o: Ref)
    requires CanonicalScope(s) && Canonical(o) && o.Url?
    ensures Front(s, o) <==> FrontAdmitted(s, o)
  {
    NamedSomething(o);
    hide Canonical, Lawful, Speaks, DomainUnder, AddressRoot;
    forall r | r in s.roots
      ensures o.port == 0 && FrontRoot(s, r, o) <==>
        AddressRoot(r, o) || (r.Domain? && o.port == 0 && o.site.Named? && LabelsUnder(o.site.name, r.name))
    {
      SpeaksIs(s, r, o);
      DefaultOnly(r, o);
      if r.Domain? { DomainUnderLabels(ScopeAlgebra.NameOf(o), r.name); }
      if r.Domain? && o.site.Literal? { assert !DomainUnder("", r.name) by { NoName(r.name); } }
    }
  }

  lemma DefaultOnly(r: Ref, o: Ref)
    requires o.Url?
    ensures AddressRoot(r, o) ==> o.port == 0 && !r.Domain?
  {
  }

  lemma NoName(d: string)
    ensures !DomainUnder("", d)
  {
  }

  lemma CurrentIs(c: Confirmation, at: int)
    ensures c.Current(at) <==> InYear(c, at)
  {
  }

  lemma ContainedIs(s: Scope, a: Asset, o: Ref)
    requires CanonicalScope(s) && Canonical(a.ref) && Canonical(o) && o.Url?
    ensures Contained(s, a, o) <==> OnOrigin(a.ref, o) && UnderUrlRoot(s, a.ref)
  {
    OriginIs(s.n, a.ref, o);
    hide Canonical, Lawful, Under, Lies, SameOrigin;
    forall r | r in s.roots ensures Under(s.n, a.ref, r) <==> Lies(a.ref, r) { UnderMeans(s.n, a.ref, r); }
    if r :| r in s.roots && r.Url? && Lies(a.ref, r) { var i :| 0 <= i < |s.roots| && s.roots[i] == r; }
  }

  lemma ConfirmedIs(s: Scope, a: Asset, o: Ref)
    requires CanonicalScope(s) && Canonical(a.ref) && Canonical(o) && o.Url?
    ensures Confirmed(s, a, o) <==> WordFor(s, a, o)
  {
    ContainedIs(s, a, o);
    OriginIs(s.n, a.ref, o);
    SiteOk(a.ref);
    SiteOk(o);
    if a.ref.Host? { SameText(s.n, a.ref.site, o.site); }
    if a.ref.Domain? { SameText(s.n, LocatorSyntax.Named(a.ref.name), o.site); }
    if a.firstParty.Some? { CurrentIs(a.firstParty.value, s.at); }
    hide Canonical, Lawful, Contained, SameOrigin, UnderUrlRoot, InYear, CanonicalSite, Confirmation.Current;
  }

  lemma {:induction false} FirstRootFinds(s: Scope, how: Authority, o: Ref, k: nat)
    requires o.Url? && k <= |s.roots|
    ensures FirstRoot(s, how, o, k).Some? <==> exists i :: 0 <= i < k && Speaks(s, how, s.roots[i], o)
  {
    hide Speaks;
    if k > 0 { FirstRootFinds(s, how, o, k - 1); }
  }

  lemma {:induction false} FirstConfirmedFinds(s: Scope, o: Ref, k: nat)
    requires o.Url? && k <= |s.assets|
    ensures FirstConfirmed(s, o, k).Some? <==> exists i :: 0 <= i < k && Confirmed(s, s.assets[i], o)
  {
    hide Confirmed;
    if k > 0 { FirstConfirmedFinds(s, o, k - 1); }
  }

  ghost predicate SomeRootSpeaks(s: Scope, o: Ref)
    requires o.Url?
  {
    exists r :: r in s.roots && RootSpeaks(r, o)
  }

  ghost predicate SomeWord(s: Scope, o: Ref)
    requires o.Url?
  {
    exists a :: a in s.assets && WordFor(s, a, o)
  }

  lemma EvidenceIs(s: Scope, o: Ref)
    requires CanonicalScope(s) && Canonical(o) && o.Url?
    ensures EvidenceOf(s, o).Some? && !EvidenceOf(s, o).value.Operator? <==> SomeRootSpeaks(s, o)
    ensures EvidenceOf(s, o).Some? && EvidenceOf(s, o).value.Operator? <==> !SomeRootSpeaks(s, o) && SomeWord(s, o)
  {
    hide Canonical, Lawful, Speaks, Confirmed, WordFor, FirstRoot, FirstConfirmed, OnOrigin, AddressRoot;
    var all := |s.roots|;
    FirstRootFinds(s, ByUrl, o, all);
    FirstRootFinds(s, ByHost, o, all);
    FirstRootFinds(s, ByNetwork, o, all);
    FirstConfirmedFinds(s, o, |s.assets|);
    forall i | 0 <= i < all
      ensures RootSpeaks(s.roots[i], o) <==> Speaks(s, ByUrl, s.roots[i], o) || Speaks(s, ByHost, s.roots[i], o) || Speaks(s, ByNetwork, s.roots[i], o)
    {
      SpeaksIs(s, s.roots[i], o);
    }
    forall i | 0 <= i < |s.assets| ensures Confirmed(s, s.assets[i], o) <==> WordFor(s, s.assets[i], o) { ConfirmedIs(s, s.assets[i], o); }
  }

  lemma PathsAre(s: Scope, o: Ref, entries: bool, path: string)
    requires CanonicalScope(s) && Canonical(o) && o.Url?
    ensures path in WELL_KNOWN + (if entries then Entries(s, o) else {}) + IntentPaths(s, o) <==> Listed(s, o, entries, path)
  {
    hide Canonical, Lawful, Confirmed, Contained, WordFor, UnderUrlRoot;
    forall u | u in s.intent ensures SameOrigin(s.n, u, o) <==> OnOrigin(u, o) { OriginIs(s.n, u, o); }
    forall r | r in s.roots ensures SameOrigin(s.n, r, o) <==> OnOrigin(r, o) { OriginIs(s.n, r, o); }
    forall a | a in s.assets
      ensures SameOrigin(s.n, a.ref, o) <==> OnOrigin(a.ref, o)
      ensures OnOrigin(a.ref, o) ==> (Contained(s, a, o) || Confirmed(s, a, o) <==> UnderUrlRoot(s, a.ref) || WordFor(s, a, o))
    {
      OriginIs(s.n, a.ref, o);
      ContainedIs(s, a, o);
      ConfirmedIs(s, a, o);
    }
    hide SameOrigin, OnOrigin;
    IntentPath(s, o, path);
    RootPath(s, o, path);
    AssetPath(s, o, path);
  }

  lemma IntentPath(s: Scope, o: Ref, path: string)
    requires o.Url?
    ensures path in IntentPaths(s, o) <==> exists u :: u in s.intent && SameOrigin(s.n, u, o) && u.path == path
  {
    hide SameOrigin;
    if u :| u in s.intent && SameOrigin(s.n, u, o) && u.path == path { var i :| 0 <= i < |s.intent| && s.intent[i] == u; }
  }

  lemma RootPath(s: Scope, o: Ref, path: string)
    requires o.Url?
    ensures path in RootEntries(s, o, |s.roots|) <==> exists r :: r in s.roots && SameOrigin(s.n, r, o) && r.path == path
  {
    hide SameOrigin;
    if r :| r in s.roots && SameOrigin(s.n, r, o) && r.path == path { var i :| 0 <= i < |s.roots| && s.roots[i] == r; }
  }

  lemma AssetPath(s: Scope, o: Ref, path: string)
    requires o.Url?
    ensures path in AssetEntries(s, o, |s.assets|) <==>
      exists a :: a in s.assets && SameOrigin(s.n, a.ref, o) && a.ref.path == path && (Contained(s, a, o) || Confirmed(s, a, o))
  {
    hide SameOrigin, Contained, Confirmed;
    if a :| a in s.assets && SameOrigin(s.n, a.ref, o) && a.ref.path == path && (Contained(s, a, o) || Confirmed(s, a, o)) {
      var i :| 0 <= i < |s.assets| && s.assets[i] == a;
    }
  }

  // ----- the decision -----

  function NameText(o: Ref): string
    requires o.Url?
  {
    if o.site.Named? then o.site.name else ""
  }

  /** The operator's word stands for the origin: no root speaks for it, a confirmation does, and its name is not suspended. */
  ghost predicate WordStands(s: Scope, suspended: set<string>, o: Ref)
    requires o.Url?
  {
    !SomeRootSpeaks(s, o) && SomeWord(s, o) && NameText(o) !in suspended
  }

  ghost predicate EntriesCount(s: Scope, suspended: set<string>, o: Ref)
    requires o.Url?
  {
    SomeRootSpeaks(s, o) || !SomeWord(s, o) || NameText(o) !in suspended
  }

  ghost predicate NetworkRootIn(s: Scope) { exists r :: r in s.roots && r.Network? }

  /** What the file alone answers, exactly. */
  ghost function FileAnswer(s: Scope, suspended: set<string>, o: Ref, path: string): Verdict
    requires o.Url?
  {
    var roots, listed := SomeRootSpeaks(s, o), Listed(s, o, EntriesCount(s, suspended, o), path);
    if (path == "/" && FrontAdmitted(s, o)) || (roots && listed) then Admitted(roots)
    else if listed && !roots && (WordStands(s, suspended, o) || (FrontAdmitted(s, o) && NetworkRootIn(s))) then Resolve
    else Refused("entry_point")
  }

  lemma OriginCanonical(s: Scope, origin: string)
    requires Bytes(origin) && Origin(s, origin).Some?
    ensures Canonical(Origin(s, origin).value) && Origin(s, origin).value.Url?
  {
    hide ParseUrl, Canonical, Id;
    UrlCanonical(s.n, origin + "/");
  }

  /** Admission before the name is resolved is exactly that; an origin not written as its own id has no path. */
  lemma FileAdmissionExactly(s: Scope, suspended: set<string>, origin: string, path: string)
    requires CanonicalScope(s) && Bytes(origin)
    ensures Admits(s, suspended, origin, path, None) ==
      if Origin(s, origin).Some? then FileAnswer(s, suspended, Origin(s, origin).value, path) else Refused("entry_point")
  {
    hide Canonical, Lawful, Origin, CanonicalScope;
    if Origin(s, origin).Some? {
      OriginCanonical(s, origin);
      SiteDecides(s, suspended, Origin(s, origin).value, path);
    }
  }

  lemma SiteDecides(s: Scope, suspended: set<string>, o: Ref, path: string)
    requires CanonicalScope(s) && Canonical(o) && o.Url?
    ensures Decide(s, SiteOf(s, suspended, o), path, None) == FileAnswer(s, suspended, o, path)
  {
    hide EvidenceOf, Entries, IntentPaths, Front, FrontAdmitted, Listed, SomeRootSpeaks, SomeWord, Canonical, CanonicalScope, HasNetworkRoot, NetworkRootIn, ScopeAlgebra.NameOf, NameText, WELL_KNOWN;
    Plainly(s, o);
    EvidenceIs(s, o);
    FrontIs(s, o);
    PathsAre(s, o, EntriesCount(s, suspended, o), path);
  }

  lemma Plainly(s: Scope, o: Ref)
    requires o.Url?
    ensures HasNetworkRoot(s) <==> NetworkRootIn(s)
    ensures ScopeAlgebra.NameOf(o) == NameText(o)
  {
  }

  // ----- after the lookup -----

  /** A network root holds the address, or the IPv4 address it writes. */
  ghost predicate InsideRoots(s: Scope, a: Addr) { exists r, f: Addr :: r in s.roots && HoldsForm(r, a, f) }

  predicate HoldsForm(r: Ref, a: Addr, f: Addr) { r.Network? && r.prefix.Valid() && (f == a || Embeds(a, f)) && r.prefix.Contains(f) }

  lemma InsideIs(s: Scope, a: Addr)
    ensures InNetworkRoot(s, a) <==> InsideRoots(s, a)
  {
    hide Embeds, Forms;
    forall f: Addr ensures f in Forms(a) <==> f == a || Embeds(a, f) { FormsMean(a, f); }
    if InNetworkRoot(s, a) {
      var i :| 0 <= i < |s.roots| && RootHolds(s.roots[i], a);
      var j :| 0 <= j < |Forms(a)| && s.roots[i].prefix.Contains(Forms(a)[j]);
      assert HoldsForm(s.roots[i], a, Forms(a)[j]);
    }
    if r, f: Addr :| r in s.roots && HoldsForm(r, a, f) {
      var j :| 0 <= j < |Forms(a)| && Forms(a)[j] == f;
      var i :| 0 <= i < |s.roots| && s.roots[i] == r;
      assert RootHolds(s.roots[i], a);
    }
  }

  /** The confirmation that speaks first for the origin. */
  ghost predicate FirstWord(s: Scope, o: Ref, i: nat)
    requires o.Url?
  {
    i < |s.assets| && WordFor(s, s.assets[i], o) && forall k :: 0 <= k < i ==> !WordFor(s, s.assets[k], o)
  }

  lemma {:induction false} FirstConfirmedIs(s: Scope, o: Ref, k: nat, i: nat)
    requires o.Url? && i < k <= |s.assets| && Confirmed(s, s.assets[i], o) && forall j :: 0 <= j < i ==> !Confirmed(s, s.assets[j], o)
    ensures FirstConfirmed(s, o, k) == Some(Operator(s.assets[i].firstParty.value.target))
  {
    hide Confirmed;
    FirstConfirmedFinds(s, o, k - 1);
    if i < k - 1 { FirstConfirmedIs(s, o, k - 1, i); }
  }

  /** The word still holds: the name points at the target of the confirmation that speaks first. */
  ghost predicate WordHolds(s: Scope, suspended: set<string>, o: Ref, l: Lookup)
    requires o.Url?
  {
    WordStands(s, suspended, o) && l.target != "" && exists i: nat :: FirstWord(s, o, i) && s.assets[i].firstParty.value.target == l.target
  }

  ghost predicate AllInside(s: Scope, l: Lookup) { l.addrs != [] && forall a :: a in l.addrs ==> InsideRoots(s, a) }

  lemma WordTarget(s: Scope, suspended: set<string>, o: Ref, l: Lookup)
    requires CanonicalScope(s) && Canonical(o) && o.Url? && WordStands(s, suspended, o)
    ensures EvidenceOf(s, o).Some? && EvidenceOf(s, o).value.Operator? && (l.PointsAt(EvidenceOf(s, o).value.target) <==> WordHolds(s, suspended, o, l))
  {
    EvidenceIs(s, o);
    hide Canonical, CanonicalScope, WordFor, Confirmed, FirstRoot, FirstConfirmed, SomeRootSpeaks;
    forall i | 0 <= i < |s.assets| ensures Confirmed(s, s.assets[i], o) <==> WordFor(s, s.assets[i], o) { WordIs(s, i, o); }
    var i := EarliestWord(s, o, |s.assets|);
    FirstConfirmedIs(s, o, |s.assets|, i);
    assert forall k: nat :: FirstWord(s, o, k) ==> k == i;
    assert EvidenceOf(s, o) == FirstConfirmed(s, o, |s.assets|);
  }

  lemma WordIs(s: Scope, i: nat, o: Ref)
    requires CanonicalScope(s) && Canonical(o) && o.Url? && i < |s.assets|
    ensures Confirmed(s, s.assets[i], o) <==> WordFor(s, s.assets[i], o)
    ensures WordFor(s, s.assets[i], o) ==> s.assets[i].firstParty.Some?
  {
    hide Canonical, Lawful;
    ConfirmedIs(s, s.assets[i], o);
  }

  lemma {:induction false} EarliestWord(s: Scope, o: Ref, k: nat) returns (i: nat)
    requires o.Url? && k <= |s.assets| && exists j :: 0 <= j < k && WordFor(s, s.assets[j], o)
    ensures i < k && FirstWord(s, o, i)
  {
    hide WordFor;
    if exists j :: 0 <= j < k - 1 && WordFor(s, s.assets[j], o) { i := EarliestWord(s, o, k - 1); } else { i := k - 1; }
  }

  /** And after: what the file left open is admitted, as first party, exactly when the word holds or every address is inside network roots. */
  lemma LookupAdmissionExactly(s: Scope, suspended: set<string>, origin: string, path: string, l: Lookup)
    requires CanonicalScope(s) && Bytes(origin) && Origin(s, origin).Some?
    requires FileAnswer(s, suspended, Origin(s, origin).value, path) == Resolve
    ensures Admits(s, suspended, origin, path, Some(l)) ==
      if WordHolds(s, suspended, Origin(s, origin).value, l) || AllInside(s, l) then Admitted(true) else Refused("address_moved")
  {
    var o := Origin(s, origin).value;
    OriginCanonical(s, origin);
    hide Origin, Canonical, CanonicalScope;
    LookupDecides(s, suspended, o, path, l);
  }

  lemma LookupDecides(s: Scope, suspended: set<string>, o: Ref, path: string, l: Lookup)
    requires CanonicalScope(s) && Canonical(o) && o.Url? && FileAnswer(s, suspended, o, path) == Resolve
    ensures Decide(s, SiteOf(s, suspended, o), path, Some(l)) ==
      if WordHolds(s, suspended, o, l) || AllInside(s, l) then Admitted(true) else Refused("address_moved")
  {
    hide Canonical, CanonicalScope;
    SiteDecides(s, suspended, o, path);
    hide FileAnswer, InNetworkRoot, InsideRoots;
    forall a ensures InNetworkRoot(s, a) <==> InsideRoots(s, a) { InsideIs(s, a); }
    assert AllInNetworkRoots(s, l) <==> AllInside(s, l);
    hide AllInNetworkRoots, AllInside;
    ConfirmedPaths(s, suspended, o, path, l);
    hide SiteOf, WordHolds, WordStands;
  }

  lemma ConfirmedPaths(s: Scope, suspended: set<string>, o: Ref, path: string, l: Lookup)
    requires CanonicalScope(s) && Canonical(o) && o.Url? && Decide(s, SiteOf(s, suspended, o), path, None) == Resolve
    ensures var sp := SiteOf(s, suspended, o);
      (path in sp.confirmed && sp.ev.Some? && sp.ev.value.Operator? && l.PointsAt(sp.ev.value.target)) <==> WordHolds(s, suspended, o, l)
  {
    if WordStands(s, suspended, o) { WordTarget(s, suspended, o, l); }
    EvidenceIs(s, o);
    Plainly(s, o);
    hide EvidenceOf, Entries, IntentPaths, Front, SomeRootSpeaks, SomeWord, Canonical, CanonicalScope, HasNetworkRoot, ScopeAlgebra.NameOf, NameText, WELL_KNOWN, FirstWord, Lookup.PointsAt;
  }
}
