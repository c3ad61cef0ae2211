/** Name discovery under a domain root: the candidates, their order, and the capped resolver pass (discover.go). */
module Discovery {
  import opened Sorting
  import opened Captures

  /** notAfter is the latest certificate end as an instant, 0 when there is none. */
  datatype Candidate = Candidate(name: string, from: seq<string>, notAfter: int, declared: bool)

  const MAX_RESOLVED: nat := 1000
  const MAX_UNVERIFIED: nat := 200

  // ----- candidates -----

  datatype Found = Found(name: string, from: string, notAfter: int, declared: bool)

  function Joined(c: Candidate, f: Found): Candidate {
    Candidate(c.name, if f.from in c.from then c.from else c.from + [f.from],
              if f.notAfter > c.notAfter then f.notAfter else c.notAfter, c.declared || f.declared)
  }

  ghost predicate Latest(founds: seq<Found>, name: string, t: int) {
    (forall i :: 0 <= i < |founds| && founds[i].name == name ==> founds[i].notAfter <= t) &&
    (t == 0 || exists i :: 0 <= i < |founds| && founds[i].name == name && founds[i].notAfter == t) && t >= 0
  }

  /** What a candidate says is what was found under its name: every source once, the latest end, any declaration. */
  ghost predicate Summarizes(founds: seq<Found>, c: Candidate) {
    (forall s :: s in c.from <==> exists i :: 0 <= i < |founds| && founds[i].name == c.name && founds[i].from == s) &&
    (forall i, j :: 0 <= i < j < |c.from| ==> c.from[i] != c.from[j]) &&
    (c.declared <==> exists i :: 0 <= i < |founds| && founds[i].name == c.name && founds[i].declared) &&
    Latest(founds, c.name, c.notAfter)
  }

  /** One candidate per name found, under that name. */
  ghost predicate Collects(founds: seq<Found>, names: map<string, Candidate>) {
    (forall n :: n in names <==> exists i :: 0 <= i < |founds| && founds[i].name == n) &&
    (forall n :: n in names ==> names[n].name == n && Summarizes(founds, names[n]))
  }

  class Candidates {
    var names: map<string, Candidate>
    ghost var founds: seq<Found>

    ghost predicate Valid() reads this { Collects(founds, names) }

    constructor ()
      ensures Valid() && names == map[] && founds == []
    {
      names, founds := map[], [];
    }

    method Add(f: Found)
      requires Valid()
      modifies this
      ensures Valid() && founds == old(founds) + [f]
    {
      hide Summarizes;
      var c := if f.name in names then names[f.name] else Candidate(f.name, [], 0, false);
      if f.from !in c.from { c := c.(from := c.from + [f.from]); }
      if f.notAfter > c.notAfter { c := c.(notAfter := f.notAfter); }
      c := c.(declared := c.declared || f.declared);
      CollectsGrows(founds, names, f);
      names := names[f.name := c];
      founds := founds + [f];
    }

    /** The candidates as a list in their order; the map gives them in any order. */
    method Ordered(at: int) returns (list: seq<Candidate>)
      requires Valid()
      ensures Sorted(list, By(at)) && Lists(list, names)
    {
      var rest := names.Keys;
      list := [];
      while rest != {}
        invariant rest <= names.Keys && ListsBut(list, names, rest)
        decreases rest
      {
        var n :| n in rest;
        list, rest := list + [names[n]], rest - {n};
      }
      ListsAll(list, names);
      ByOrdered(at);
      SortSorted(list, By(at));
      SortLists(list, Sort(list, By(at)), names);
      list := Sort(list, By(at));
    }
  }

  /** list holds exactly the candidates of the map, each once. */
  ghost predicate Lists(list: seq<Candidate>, names: map<string, Candidate>) {
    multiset(list) == multiset(names.Values) &&
    forall i, j :: 0 <= i < j < |list| ==> list[i].name != list[j].name
  }

  ghost predicate ListsBut(list: seq<Candidate>, names: map<string, Candidate>, rest: set<string>) {
    (forall c :: c in list <==> c.name in names && c.name !in rest && names[c.name] == c) &&
    (forall i, j :: 0 <= i < j < |list| ==> list[i].name != list[j].name)
  }

  lemma ListsAll(list: seq<Candidate>, names: map<string, Candidate>)
    requires ListsBut(list, names, {}) && forall n :: n in names ==> names[n].name == n
    ensures Lists(list, names)
  {
    forall c ensures multiset(list)[c] == multiset(names.Values)[c] {
      Once(list, c);
      assert c in names.Values <==> c in list by {
        if c in names.Values {
          var n :| n in names && names[n] == c;
        }
      }
    }
    assert multiset(list) == multiset(names.Values);
  }

  lemma {:induction false} Once(list: seq<Candidate>, c: Candidate)
    requires forall i, j :: 0 <= i < j < |list| ==> list[i].name != list[j].name
    ensures multiset(list)[c] == if c in list then 1 else 0
  {
    if list != [] {
      Once(list[1..], c);
      assert list == [list[0]] + list[1..];
      assert list[0] !in list[1..];
    }
  }

  lemma SortLists(list: seq<Candidate>, sorted: seq<Candidate>, names: map<string, Candidate>)
    requires Lists(list, names) && multiset(sorted) == multiset(list)
    ensures Lists(sorted, names)
  {
    forall i, j | 0 <= i < j < |sorted| ensures sorted[i].name != sorted[j].name {
      Once(list, sorted[i]);
      assert sorted[i] in multiset(sorted) && sorted[j] in multiset(sorted);
      if sorted[i] == sorted[j] { Twice(sorted, i, j); }
      assert sorted[i] in list && sorted[j] in list;
    }
  }

  lemma CollectsGrows(founds: seq<Found>, names: map<string, Candidate>, f: Found)
    requires Collects(founds, names)
    ensures var c := if f.name in names then names[f.name] else Candidate(f.name, [], 0, false);
            Collects(founds + [f], names[f.name := Joined(c, f)])
  {
    var c := if f.name in names then names[f.name] else Candidate(f.name, [], 0, false);
    var all, names' := founds + [f], names[f.name := Joined(c, f)];
    assert all[|founds|] == f && forall i :: 0 <= i < |founds| ==> all[i] == founds[i];
    assert Summarizes(founds, c);
    hide Summarizes;
    forall n | n in names' ensures names'[n].name == n && Summarizes(all, names'[n]) {
      SummaryGrows(founds, names'[n], c, f);
    }
  }

  lemma SummaryGrows(founds: seq<Found>, other: Candidate, c: Candidate, f: Found)
    requires Summarizes(founds, c) && c.name == f.name
    ensures Summarizes(founds + [f], Joined(c, f))
    ensures Summarizes(founds, other) && other.name != f.name ==> Summarizes(founds + [f], other)
  {
    var all := founds + [f];
    assert all[|founds|] == f && forall i :: 0 <= i < |founds| ==> all[i] == founds[i];
    JoinedSources(founds, c, f);
    JoinedRest(founds, c, f);
    if Summarizes(founds, other) && other.name != f.name {
      OtherStays(founds, other, f);
    }
  }

  lemma OtherStays(founds: seq<Found>, other: Candidate, f: Found)
    requires Summarizes(founds, other) && other.name != f.name
    ensures Summarizes(founds + [f], other)
  {
    var all := founds + [f];
    assert all[|founds|] == f && forall i :: 0 <= i < |founds| ==> all[i] == founds[i];
  }

  lemma JoinedSources(founds: seq<Found>, c: Candidate, f: Found)
    requires Summarizes(founds, c) && c.name == f.name
    ensures var all, j := founds + [f], Joined(c, f);
      (forall s :: s in j.from <==> exists i :: 0 <= i < |all| && all[i].name == j.name && all[i].from == s) &&
      (forall a, b :: 0 <= a < b < |j.from| ==> j.from[a] != j.from[b])
  {
    var all, j := founds + [f], Joined(c, f);
    assert all[|founds|] == f && forall i :: 0 <= i < |founds| ==> all[i] == founds[i];
    assert forall s :: s in j.from <==> s in c.from || s == f.from;
  }

  lemma JoinedRest(founds: seq<Found>, c: Candidate, f: Found)
    requires Summarizes(founds, c) && c.name == f.name
    ensures var all, j := founds + [f], Joined(c, f);
      (j.declared <==> exists i :: 0 <= i < |all| && all[i].name == j.name && all[i].declared) && Latest(all, j.name, j.notAfter)
  {
    var all, j := founds + [f], Joined(c, f);
    assert all[|founds|] == f && forall i :: 0 <= i < |founds| ==> all[i] == founds[i];
  }

  // ----- the order -----

  /** The rank of a candidate's strongest ground: 0 the contract's own word, 1 a certificate still good at that moment, 2 anything older. */
  function Group(c: Candidate, at: int): nat { if c.declared then 0 else if c.notAfter >= at then 1 else 2 }

  function CompareCandidates(at: int, a: Candidate, b: Candidate): int {
    var g := CompareInt(Group(a, at), Group(b, at));
    if g != 0 then g
    else
      var t := CompareInt(b.notAfter, a.notAfter);
      if Group(a, at) == 1 && t != 0 then t else Compare(a.name, b.name)
  }

  function By(at: int): (Candidate, Candidate) -> int { (a, b) => CompareCandidates(at, a, b) }

  lemma ByOrdered(at: int)
    ensures Sorting.Ordered(By(at))
  {
    hide Compare;
    forall a, b ensures By(at)(a, b) <= 0 || By(at)(b, a) <= 0 { CompareFlips(a.name, b.name); }
    forall a, b, c | By(at)(a, b) <= 0 && By(at)(b, c) <= 0 ensures By(at)(a, c) <= 0 {
      if Compare(a.name, b.name) <= 0 && Compare(b.name, c.name) <= 0 { CompareTransitive(a.name, b.name, c.name); }
    }
  }

  /** Candidates that compare equal have one name. */
  lemma EqualName(at: int, x: Candidate, y: Candidate)
    requires CompareCandidates(at, x, y) <= 0 && CompareCandidates(at, y, x) <= 0
    ensures x.name == y.name
  {
    CompareFlips(x.name, y.name);
    CompareZero(x.name, y.name);
    hide Compare;
  }

  lemma OneOfName(list: seq<Candidate>, x: Candidate, y: Candidate)
    requires x in list && y in list && x.name == y.name
    requires forall i, j :: 0 <= i < j < |list| ==> list[i].name != list[j].name
    ensures x == y
  {
    var i :| 0 <= i < |list| && list[i] == x;
    var j :| 0 <= j < |list| && list[j] == y;
  }

  /** The list does not depend on the order the map gives its entries in: there is only one. */
  lemma OrderUnique(at: int, names: map<string, Candidate>, a: seq<Candidate>, b: seq<Candidate>)
    requires Sorted(a, By(at)) && Sorted(b, By(at)) && Lists(a, names) && Lists(b, names)
    ensures a == b
  {
    ByOrdered(at);
    hide Sorted, Sorting.Ordered, CompareCandidates;
    forall x, y | x in a && y in a && By(at)(x, y) <= 0 && By(at)(y, x) <= 0 ensures x == y {
      EqualName(at, x, y);
      OneOfName(a, x, y);
    }
    SortedUnique(a, b, By(at));
  }

  // ----- one lookup -----

  datatype Outcome = HasAddresses | NxDomain | NoData | Excluded | Unusable(why: string)

  datatype Lookup = Lookup(outcome: Outcome, chain: seq<string>, addresses: set<string>, finalInRoot: bool)

  datatype NameStatus = Resolves | Dangling | Gone | NoAddress | Insufficient | MatchesWildcard | NameExcluded | NotChecked

  /** The answer to the control label, when it was asked. */
  datatype Control = NoControl | Control(status: NameStatus, outcome: Outcome, chain: seq<string>, addresses: set<string>)

  predicate Marked(chain: seq<string>) { exists i :: 0 <= i < |chain| && HasMarker(chain[i]) }

  predicate MatchesControl(l: Lookup, c: Control) {
    c.Control? && c.status in {Resolves, Dangling} && (l.chain != [] || l.addresses != {}) &&
    !Marked(l.chain) && !Marked(c.chain) && l.outcome == c.outcome && l.chain == c.chain && l.addresses == c.addresses
  }

  function Classify(l: Lookup, declared: bool, control: Control, rewrites: bool): NameStatus {
    if l.outcome == Excluded then NameExcluded
    else if l.outcome.Unusable? then Insufficient
    else if !declared && MatchesControl(l, control) then MatchesWildcard
    else if l.outcome in {NxDomain, NoData} && l.chain != [] then (if rewrites then Insufficient else Dangling)
    else if l.outcome == NxDomain then Gone
    else if l.outcome == NoData then NoAddress
    else Resolves
  }

  // ----- the pass -----

  datatype Answer = RefusedExcluded(exclude: string) | NotSent(why: string) | Sent(lookup: Lookup)

  /** looked says the gate sent the lookup; cut that the name lay past the cap. */
  datatype Entry = Entry(name: string, from: seq<string>, expiredOnly: bool, status: NameStatus, looked: bool, cut: bool, read: bool)

  /** What discovery knows of the resolver: whether it invents answers, and whether that is known at all. */
  datatype ResolverState = ResolverState(rewrites: bool, known: bool)

  predicate Unverified(c: Candidate, counts: bool) { !c.declared && !counts }

  function LookedCount(es: seq<Entry>): nat {
    if es == [] then 0 else LookedCount(es[..|es| - 1]) + (if es[|es| - 1].looked then 1 else 0)
  }

  /** Names read that are neither declared nor evidenced. */
  ghost function UnverifiedRead(list: seq<Candidate>, counts: nat -> bool, es: seq<Entry>): nat
    requires |es| <= |list|
  {
    if es == [] then 0
    else
      var k := |es| - 1;
      UnverifiedRead(list, counts, es[..k]) + (if es[k].read && Unverified(list[k], counts(k)) then 1 else 0)
  }

  /** Exactly what an entry says, from the candidate, the gate's answer, and how many names were looked up and read unverified before. */
  ghost predicate RightEntry(c: Candidate, at: int, answer: Answer, counts: bool, rs: ResolverState, control: Control, looked: nat, unverified: nat, e: Entry) {
    e.name == c.name && e.from == c.from && (e.expiredOnly <==> Group(c, at) == 2) &&
    (e.cut <==> looked >= MAX_RESOLVED) &&
    (e.looked <==> !e.cut && answer.Sent?) &&
    (if e.cut then e.status == NotChecked
     else match answer
       case RefusedExcluded(_) => e.status == NameExcluded
       case NotSent(_) => e.status == NotChecked
       case Sent(l) => e.status == Classify(l, c.declared, control, rs.rewrites)) &&
    (e.read <==>
      (e.looked && e.status == Resolves &&
       (!Unverified(c, counts) || (!rs.rewrites && rs.known && unverified < MAX_UNVERIFIED))))
  }

  ghost predicate Right(list: seq<Candidate>, at: int, answer: nat -> Answer, counts: nat -> bool, rs: ResolverState, control: Control, es: seq<Entry>, k: nat)
    requires k < |es| <= |list|
  {
    RightEntry(list[k], at, answer(k), counts(k), rs, control, LookedCount(es[..k]), UnverifiedRead(list, counts, es[..k]), es[k])
  }

  /** One name: cut, refused, or looked up and settled. */
  method LookOne(c: Candidate, at: int, answer: Answer, counts: bool, rs: ResolverState, control: Control, looked: nat, unverified: nat) returns (e: Entry)
    ensures RightEntry(c, at, answer, counts, rs, control, looked, unverified, e)
  {
    hide Classify;
    e := Entry(c.name, c.from, Group(c, at) == 2, NotChecked, false, false, false);
    if looked >= MAX_RESOLVED { return e.(cut := true); }
    match answer {
      case RefusedExcluded(_) => e := e.(status := NameExcluded);
      case NotSent(_) =>
      case Sent(l) =>
        e := e.(looked := true, status := Classify(l, c.declared, control, rs.rewrites));
        if e.status == Resolves {
          if counts || c.declared {
            e := e.(read := true);
          } else if !rs.rewrites && rs.known && unverified < MAX_UNVERIFIED {
            e := e.(read := true);
          }
        }
    }
  }

  lemma RightBounds(c: Candidate, at: int, answer: Answer, counts: bool, rs: ResolverState, control: Control, looked: nat, unverified: nat, e: Entry)
    requires RightEntry(c, at, answer, counts, rs, control, looked, unverified, e)
    ensures e.looked ==> looked < MAX_RESOLVED
    ensures e.read && Unverified(c, counts) ==> unverified < MAX_UNVERIFIED
  {
    hide Classify;
  }

  /** An entry more: the ones before stand as they were, and the counts grow by what it is. */
  lemma EntryAdded(list: seq<Candidate>, at: int, answer: nat -> Answer, counts: nat -> bool, rs: ResolverState, control: Control, es: seq<Entry>, e: Entry)
    requires |es| < |list| && forall k :: 0 <= k < |es| ==> Right(list, at, answer, counts, rs, control, es, k)
    requires RightEntry(list[|es|], at, answer(|es|), counts(|es|), rs, control, LookedCount(es), UnverifiedRead(list, counts, es), e)
    ensures forall k :: 0 <= k <= |es| ==> Right(list, at, answer, counts, rs, control, es + [e], k)
    ensures LookedCount(es + [e]) == LookedCount(es) + (if e.looked then 1 else 0)
    ensures UnverifiedRead(list, counts, es + [e]) ==
      UnverifiedRead(list, counts, es) + (if e.read && Unverified(list[|es|], counts(|es|)) then 1 else 0)
  {
    hide RightEntry, Unverified;
    var all := es + [e];
    assert all[..|es|] == es && all[|es|] == e;
    forall k | 0 <= k <= |es| ensures Right(list, at, answer, counts, rs, control, all, k) {
      assert all[..k] == es[..k];
      if k < |es| {
        assert Right(list, at, answer, counts, rs, control, es, k) && all[k] == es[k];
      } else {
        assert es[..k] == es;
      }
    }
  }

  /**
   * The pass over the ordered candidates. answer and counts stand for the gate's answer about the kth name and for
   * whether its first-party evidence counts once resolved.
   */
  method LookUp(list: seq<Candidate>, at: int, answer: nat -> Answer, counts: nat -> bool, rs: ResolverState, control: Control) returns (es: seq<Entry>)
    ensures |es| == |list|
    ensures forall k :: 0 <= k < |list| ==> Right(list, at, answer, counts, rs, control, es, k)
    ensures LookedCount(es) <= MAX_RESOLVED && UnverifiedRead(list, counts, es) <= MAX_UNVERIFIED
  {
    es := [];
    var resolved, unverified := 0, 0;
    for i := 0 to |list|
      invariant |es| == i && resolved == LookedCount(es) <= MAX_RESOLVED
      invariant unverified == UnverifiedRead(list, counts, es) <= MAX_UNVERIFIED
      invariant forall k :: 0 <= k < i ==> Right(list, at, answer, counts, rs, control, es, k)
    {
      hide Right, RightEntry, LookedCount, UnverifiedRead;
      var e := LookOne(list[i], at, answer(i), counts(i), rs, control, resolved, unverified);
      RightBounds(list[i], at, answer(i), counts(i), rs, control, resolved, unverified, e);
      EntryAdded(list, at, answer, counts, rs, control, es, e);
      if e.looked { resolved := resolved + 1; }
      if e.read && Unverified(list[i], counts(i)) { unverified := unverified + 1; }
      es := es + [e];
    }
  }

  /** The caps are fair: a declared name lies past the cap only if every name looked up was declared. */
  lemma DeclaredNotCrowdedOut(list: seq<Candidate>, at: int, answer: nat -> Answer, counts: nat -> bool, rs: ResolverState, control: Control, es: seq<Entry>, k: nat, j: nat)
    requires |es| == |list| && Sorted(list, By(at)) && k < |list| && j < |list|
    requires forall i :: 0 <= i < |list| ==> Right(list, at, answer, counts, rs, control, es, i)
    requires list[k].declared && es[k].cut && es[j].looked
    ensures list[j].declared && j < k
  {
    hide Classify;
    assert Right(list, at, answer, counts, rs, control, es, k) && Right(list, at, answer, counts, rs, control, es, j);
    if j >= k { LookedMonotone(es, k, j); }
    SortedAt(list, By(at), j, k);
  }

  lemma {:induction false} LookedMonotone(es: seq<Entry>, k: nat, j: nat)
    requires k <= j <= |es|
    ensures LookedCount(es[..k]) <= LookedCount(es[..j])
  {
    if k < j {
      LookedMonotone(es, k, j - 1);
      assert es[..j][..j - 1] == es[..j - 1];
    }
  }

  /** A resolver that invents answers never makes a name dangle, and gets no unproved name read. */
  lemma RewriterProvesNothing(list: seq<Candidate>, at: int, answer: nat -> Answer, counts: nat -> bool, rs: ResolverState, control: Control, es: seq<Entry>, k: nat)
    requires |es| == |list| && k < |list| && Right(list, at, answer, counts, rs, control, es, k)
    ensures rs.rewrites ==> es[k].status != Dangling
    ensures rs.rewrites || !rs.known ==> (es[k].read ==> list[k].declared || counts(k))
    ensures es[k].read ==> answer(k).Sent? && answer(k).lookup.outcome == HasAddresses
    ensures es[k].read && !list[k].declared ==> !MatchesControl(answer(k).lookup, control)
  {
  }

  // ----- what a status says, on the lookup itself -----

  /** The answer is the control label's: the same outcome, chain and addresses, with something in them and nothing removed. */
  predicate Echoes(l: Lookup, declared: bool, control: Control) {
    !declared && control.Control? && (control.status == Resolves || control.status == Dangling) &&
    control.outcome == l.outcome && control.chain == l.chain && control.addresses == l.addresses && (|l.chain| > 0 || l.addresses != {}) &&
    forall i :: 0 <= i < |l.chain| ==> !Holds(l.chain[i], "[REDACTED:") && !Holds(l.chain[i], "[TRUNCATED:")
  }

  predicate Missing(l: Lookup) { l.outcome == NxDomain || l.outcome == NoData }

  lemma EchoesIs(l: Lookup, declared: bool, control: Control)
    ensures Echoes(l, declared, control) <==> !declared && MatchesControl(l, control)
  {
    hide Holds;
  }

  /** Every status of a name that was looked up, exactly. */
  lemma StatusExactly(list: seq<Candidate>, at: int, answer: nat -> Answer, counts: nat -> bool, rs: ResolverState, control: Control, es: seq<Entry>, k: nat)
    requires |es| == |list| && k < |list| && Right(list, at, answer, counts, rs, control, es, k) && es[k].looked
    ensures answer(k).Sent?
    ensures var l, s, echo := answer(k).lookup, es[k].status, Echoes(answer(k).lookup, list[k].declared, control);
      (s == NameExcluded <==> l.outcome == Excluded) &&
      (s == MatchesWildcard <==> l.outcome != Excluded && !l.outcome.Unusable? && echo) &&
      (s == Dangling <==> Missing(l) && |l.chain| > 0 && !echo && !rs.rewrites) &&
      (s == Insufficient <==> l.outcome.Unusable? || (Missing(l) && |l.chain| > 0 && !echo && rs.rewrites)) &&
      (s == Gone <==> l.outcome == NxDomain && l.chain == [] && !echo) &&
      (s == NoAddress <==> l.outcome == NoData && l.chain == [] && !echo) &&
      (s == Resolves <==> l.outcome == HasAddresses && !echo)
  {
    EchoesIs(answer(k).lookup, list[k].declared, control);
    hide Echoes, MatchesControl;
  }

  /** Which names are looked up and which are read, with both caps in numbers. */
  lemma LookedExactly(list: seq<Candidate>, at: int, answer: nat -> Answer, counts: nat -> bool, rs: ResolverState, control: Control, es: seq<Entry>, k: nat)
    requires |es| == |list| && k < |list| && Right(list, at, answer, counts, rs, control, es, k)
    ensures es[k].looked <==> LookedCount(es[..k]) < 1000 && answer(k).Sent?
    ensures !es[k].looked ==> es[k].status == if LookedCount(es[..k]) < 1000 && answer(k).RefusedExcluded? then NameExcluded else NotChecked
    ensures es[k].read <==>
      es[k].looked && es[k].status == Resolves &&
      (list[k].declared || counts(k) || (!rs.rewrites && rs.known && UnverifiedRead(list, counts, es[..k]) < 200))
    ensures es[k].expiredOnly <==> !list[k].declared && list[k].notAfter < at
  {
    hide Classify, LookedCount, UnverifiedRead;
  }

  /** a may stand before b: declared first, then unexpired, the latest first, and by name. */
  ghost predicate MayPrecede(at: int, a: Candidate, b: Candidate) {
    if a.declared != b.declared then a.declared
    else if !a.declared && (a.notAfter >= at) != (b.notAfter >= at) then a.notAfter >= at
    else if !a.declared && a.notAfter >= at && a.notAfter != b.notAfter then a.notAfter > b.notAfter
    else a.name == b.name || exists k: nat :: Precedes(a.name, b.name, k)
  }

  /** In the list every candidate may stand before those after it. */
  lemma OrderMeans(at: int, list: seq<Candidate>, i: nat, j: nat)
    requires Sorted(list, By(at)) && i < j < |list|
    ensures MayPrecede(at, list[i], list[j])
  {
    SortedAt(list, By(at), i, j);
    CompareMeans(list[i].name, list[j].name);
    CompareZero(list[i].name, list[j].name);
    hide Compare, Precedes, Sorted;
  }
}
