/**
 * How a phase 1 finding grades after any calls: exactly when no call can change it. A merged report may name a listener
 * the finding did not have (store.go), and the expected services grade by the listener (grade.go).
 */
module SeedGrades {
  import opened Options
  import opened SeverityChain
  import opened Grading
  import opened Text
  import opened Captures
  import opened FindingStore

  predicate ValidService(s: ServiceRef) { 1 <= s.port <= 65535 && (s.proto == "tcp" || s.proto == "udp") }

  predicate InSeeds(seeds: seq<Finding>, id: string) { exists j :: 0 <= j < |seeds| && seeds[j].id == id }

  /** The premise does not stand in the way: a finding, or one the model may file, or one no rule disproved. */
  predicate PremiseOpen(e: Run, seeds: seq<Finding>, p: string) { InSeeds(seeds, p) || !Disproved(e, p) || CustomID(p) }

  /** The model may report this id of a phase 1 finding, at some point of some run. */
  predicate Reportable(e: Run, seeds: seq<Finding>, id: string) {
    if HasPrefix(id, "custom:") then CustomID(id)
    else HostID(e, id) && Applicable(e, id) && forall p :: p in e.catalog[id].premise ==> PremiseOpen(e, seeds, p)
  }

  /** No listener a report may name changes how the finding grades. */
  ghost predicate Indifferent(g: Grader, seed: Finding) {
    forall s: ServiceRef :: ValidService(s) ==> FinalSeverity(g, seed.(service := Some(s))) == FinalSeverity(g, seed)
  }

  // ----- what calls can do to the listener -----

  /** The listener is the seed's, or one a report the model may make named for a seed without one. */
  predicate ListenerFrom(e: Run, seeds: seq<Finding>, seed: Finding, f: Finding) {
    f.service == seed.service ||
    (seed.service.None? && f.service.Some? && ValidService(f.service.value) && Reportable(e, seeds, seed.id))
  }

  lemma ServiceOfValid(s: Option<ServiceRef>)
    requires ServiceFits(s)
    ensures ServiceOf(s).Some? ==> ValidService(ServiceOf(s).value)
  {
    if s.Some? && s.value.proto != "" { assert Lower(s.value.proto) != ""; }
  }

  lemma ValidatedService(e: Run, st: State, c: Candidate)
    requires Validated(e, st, c).Some?
    ensures ServiceFits(c.service) && Validated(e, st, c).value.service == ServiceOf(c.service)
    ensures if HasPrefix(c.id, "custom:") then CustomID(c.id) else HostID(e, c.id) && RuleAllows(e, st.byID, c.id)
  {
    hide EvidenceOf, ServiceFits, ServiceOf, CustomID, RuleAllows, Said;
  }

  /** A validated report of an id is one the model may make: its premises are findings, or were never disproved. */
  lemma ValidatedReportable(e: Run, seeds: seq<Finding>, st: State, c: Candidate)
    requires Inv(e, seeds, st) && Validated(e, st, c).Some?
    ensures Reportable(e, seeds, c.id)
  {
    hide Validated, CustomID, Disproved, Applicable, Backed;
    ValidatedService(e, st, c);
    if !HasPrefix(c.id, "custom:") {
      forall p | p in e.catalog[c.id].premise ensures PremiseOpen(e, seeds, p) {
        if p in st.byID { FiledOpen(e, seeds, st, p); }
      }
    }
  }

  lemma FiledOpen(e: Run, seeds: seq<Finding>, st: State, p: string)
    requires Inv(e, seeds, st) && p in st.byID
    ensures PremiseOpen(e, seeds, p)
  {
    hide CustomID, Disproved, Applicable, Backed;
    var k := st.byID[p];
    if k < |seeds| {
      assert Stands(st.outputs, seeds[k], st.findings[k]);
      assert seeds[k].id == p;
    } else {
      assert Grounded(e, st.outputs, st.byID, st.findings[k]);
    }
  }

  lemma MergedListener(e: Run, seeds: seq<Finding>, seed: Finding, have: Finding, found: Finding)
    requires ListenerFrom(e, seeds, seed, have) && Reportable(e, seeds, seed.id)
    requires found.service.Some? ==> ValidService(found.service.value)
    ensures ListenerFrom(e, seeds, seed, Merged(have, found))
  {
    hide Reportable, Holds, AppendAll;
  }

  lemma FinalLast(e: Run, seeds: seq<Finding>, calls: seq<Call>)
    requires Seeds(seeds) && calls != []
    ensures Final(e, seeds, calls) == FindingStore.After(e, Final(e, seeds, calls[..|calls| - 1]), calls[|calls| - 1])
  {
    hide FindingStore.After, Inv;
    assert Inv(e, seeds, Final(e, seeds, calls[..|calls| - 1]));
  }

  lemma {:induction false} ListenersFrom(e: Run, seeds: seq<Finding>, calls: seq<Call>, i: nat)
    requires Seeds(seeds) && i < |seeds|
    ensures ListenerFrom(e, seeds, seeds[i], FindingAt(e, seeds, calls, i))
  {
    hide ListenerFrom, Inv, Validated, RuledOutBy;
    if calls == [] {
      SameListener(e, seeds, seeds[i]);
    } else {
      var before, call := calls[..|calls| - 1], calls[|calls| - 1];
      ListenersFrom(e, seeds, before, i);
      FinalLast(e, seeds, calls);
      var st := Final(e, seeds, before);
      InvKeeps(e, seeds, st);
      InvKeeps(e, seeds, Final(e, seeds, calls));
      match call
      case Observed(_, _) =>
      case RuleOutCall(c) => RuledOutSame(e, st, c);
      case ReportCall(c) =>
        if Validated(e, st, c).Some? {
          var f := Validated(e, st, c).value;
          ValidatedReportable(e, seeds, st, c);
          ValidatedService(e, st, c);
          ServiceOfValid(c.service);
          SeedAt(e, seeds, st, i);
          if f.id in st.byID && st.byID[f.id] == i { MergedListener(e, seeds, seeds[i], st.findings[i], f); }
        }
    }
  }

  lemma RuledOutSame(e: Run, st: State, c: Candidate)
    ensures RuledOutBy(e, st, c).findings == st.findings && RuledOutBy(e, st, c).byID == st.byID
  {
    hide RuleOutFits, MergedRuling;
  }

  lemma SameListener(e: Run, seeds: seq<Finding>, seed: Finding)
    ensures ListenerFrom(e, seeds, seed, seed)
  {
  }

  lemma InvKeeps(e: Run, seeds: seq<Finding>, st: State)
    requires Inv(e, seeds, st)
    ensures |seeds| <= |st.findings| && Indexed(st)
  {
  }

  lemma SeedAt(e: Run, seeds: seq<Finding>, st: State, i: nat)
    requires Inv(e, seeds, st) && i < |seeds|
    ensures st.findings[i].id == seeds[i].id
  {
    assert Stands(st.outputs, seeds[i], st.findings[i]);
  }

  ghost function FindingAt(e: Run, seeds: seq<Finding>, calls: seq<Call>, i: nat): (f: Finding)
    requires Seeds(seeds) && i < |seeds|
    ensures f.id == seeds[i].id && f.category == seeds[i].category && f.base == seeds[i].base && f.custom == seeds[i].custom
  {
    var st := Final(e, seeds, calls);
    assert Stands(st.outputs, seeds[i], st.findings[i]);
    st.findings[i]
  }

  // ----- the grade stands -----

  lemma SameGrade(g: Grader, f: Finding, f': Finding)
    requires f'.id == f.id && f'.category == f.category && f'.base == f.base && f'.custom == f.custom
    requires g.context.None? || g.context.value.services == [] || f'.service == f.service
    ensures FinalSeverity(g, f') == FinalSeverity(g, f) && Graded(g, f').status == Graded(g, f).status
  {
    hide Folded, Expected, Acceptance;
    if g.context.Some? {
      var c := g.context.value;
      assert ServiceRows(c, f') == ServiceRows(c, f);
      SameExposure(c, f, f');
      assert Adjustments(c, f') == Adjustments(c, f);
    }
    assert Table(g, f') == Table(g, f);
  }

  /** What a caller can check before any call: nothing a report may say changes the grade of this finding. */
  ghost predicate GradeFixed(e: Run, seeds: seq<Finding>, i: nat)
    requires i < |seeds|
  {
    e.grader.context.None? || e.grader.context.value.services == [] || seeds[i].service.Some? ||
    !Reportable(e, seeds, seeds[i].id) || RowsIndifferent(e.grader, seeds[i])
  }

  lemma GradeStands(e: Run, seeds: seq<Finding>, calls: seq<Call>, i: nat)
    requires Seeds(seeds) && i < |seeds| && GradeFixed(e, seeds, i)
    ensures FinalSeverity(e.grader, FindingAt(e, seeds, calls, i)) == FinalSeverity(e.grader, seeds[i])
  {
    hide FinalSeverity, Graded, Reportable, FindingAt, RowsIndifferent;
    var f, seed := FindingAt(e, seeds, calls, i), seeds[i];
    ListenersFrom(e, seeds, calls, i);
    SameGrade(e.grader, seed.(service := f.service), f);
    if seed.service.None? { IndifferentExactly(e.grader, seed); }
    if e.grader.context.None? || e.grader.context.value.services == [] || f.service == seed.service {
      SameGrade(e.grader, seed, f);
    }
  }

  // ----- and otherwise a run changes it -----

  const OBSERVATION := "o"
  const OUTPUT := Output("c", true, "x")

  /** A report of the id that cites the one observation and names the listener. */
  function Naming(id: string, s: Option<ServiceRef>): Candidate {
    Candidate(id, "", "t", Some(Sure), [Evidence(OBSERVATION, "", "x")], "i", Some(Remediation("r", [], "")), "", Some(Info), s)
  }

  ghost predicate Seen(st: State) { OBSERVATION in st.outputs && st.outputs[OBSERVATION] == OUTPUT }

  lemma Quoted()
    ensures TrimSpace("x") == "x" && ExcerptIn("x", "x")
  {
    assert WordEnd("x", 1) == 1;
    assert WordEnd("x", 0) == 1;
    assert "x"[..1] == "x" && "x"[1..] == "";
    assert Fields("x") == ["x"];
    assert FoldBlanks("x") == "x";
    assert HoldsAt("x", "x", 0);
  }

  lemma NamingCited(st: State, id: string, s: Option<ServiceRef>)
    requires Seen(st)
    ensures EvidenceOf(st.outputs, Naming(id, s).evidence).Some?
  {
    Quoted();
    hide ExcerptIn, TrimSpace;
  }

  /** Such a report is accepted where the model may make it, and says the listener. */
  lemma NamingValidated(e: Run, st: State, id: string, s: Option<ServiceRef>)
    requires Seen(st) && (s.Some? ==> ValidService(s.value))
    requires if HasPrefix(id, "custom:") then CustomID(id) else HostID(e, id) && RuleAllows(e, st.byID, id)
    ensures Validated(e, st, Naming(id, s)).Some? && Validated(e, st, Naming(id, s)).value.service == s
  {
    NamingCited(st, id, s);
    PlainProto(s);
    hide EvidenceOf, CustomID, RuleAllows, ServiceFits, ServiceOf;
  }

  lemma PlainProto(s: Option<ServiceRef>)
    requires s.Some? ==> ValidService(s.value)
    ensures ServiceFits(s) && ServiceOf(s) == s
  {
    LowerFixed("tcp");
    LowerFixed("udp");
  }

  /** Reports of those premises the model may file itself. */
  function PremiseCalls(premise: seq<string>): seq<Call> {
    if premise == [] then []
    else
      var rest, p := PremiseCalls(premise[..|premise| - 1]), premise[|premise| - 1];
      if CustomID(p) then rest + [ReportCall(Naming(p, None))] else rest
  }

  function Premises(e: Run, id: string): seq<string> { if HasPrefix(id, "custom:") || id !in e.catalog then [] else e.catalog[id].premise }

  function Prelude(premise: seq<string>): seq<Call> { [Observed(OBSERVATION, OUTPUT)] + PremiseCalls(premise) }

  /** The run that names the listener: an observation, the premises, the report. */
  function NamingRun(e: Run, id: string, s: ServiceRef): seq<Call> {
    Prelude(Premises(e, id)) + [ReportCall(Naming(id, Some(s)))]
  }

  /** After the prelude the observation is there, the premises are filed, and the finding is as phase 1 left it. */
  ghost predicate Prepared(e: Run, seeds: seq<Finding>, premise: seq<string>, i: nat, st: State)
    requires i < |seeds|
  {
    Inv(e, seeds, st) && Seen(st) && st.findings[i] == seeds[i] &&
    (forall j :: 0 <= j < |seeds| ==> seeds[j].id in st.byID) &&
    (forall p :: p in premise && CustomID(p) ==> p in st.byID)
  }

  lemma {:induction false} PreludeRuns(e: Run, seeds: seq<Finding>, premise: seq<string>, i: nat)
    requires Seeds(seeds) && i < |seeds|
    requires seeds[i].id in premise ==> !CustomID(seeds[i].id)
    ensures Prepared(e, seeds, premise, i, Final(e, seeds, Prelude(premise)))
  {
    if premise == [] {
      ObservedFirst(e, seeds, i);
    } else {
      var rest, p := premise[..|premise| - 1], premise[|premise| - 1];
      hide Final, Prepared, CustomID, Naming, Inv;
      assert premise == rest + [p];
      PreludeRuns(e, seeds, rest, i);
      PreludeGrows(e, seeds, rest, i, p);
    }
  }

  lemma PreludeGrows(e: Run, seeds: seq<Finding>, rest: seq<string>, i: nat, p: string)
    requires Seeds(seeds) && i < |seeds| && Prepared(e, seeds, rest, i, Final(e, seeds, Prelude(rest)))
    requires p == seeds[i].id ==> !CustomID(p)
    ensures Prepared(e, seeds, rest + [p], i, Final(e, seeds, Prelude(rest + [p])))
  {
    hide Final, Prepared, CustomID, Naming, Inv;
    assert (rest + [p])[..|rest|] == rest;
    var before := Prelude(rest);
    if CustomID(p) {
      var call := ReportCall(Naming(p, None));
      assert Prelude(rest + [p]) == before + [call];
      assert (before + [call])[..|before|] == before;
      FinalLast(e, seeds, before + [call]);
      PremiseFiled(e, seeds, rest, i, Final(e, seeds, before), p);
    } else {
      assert Prelude(rest + [p]) == before;
      PremiseSkipped(e, seeds, rest, i, Final(e, seeds, before), p);
    }
  }

  lemma PremiseSkipped(e: Run, seeds: seq<Finding>, rest: seq<string>, i: nat, st: State, p: string)
    requires i < |seeds| && Prepared(e, seeds, rest, i, st) && !CustomID(p)
    ensures Prepared(e, seeds, rest + [p], i, st)
  {
    hide CustomID, Inv, Seen;
  }

  lemma ObservedFirst(e: Run, seeds: seq<Finding>, i: nat)
    requires Seeds(seeds) && i < |seeds|
    ensures Prepared(e, seeds, [], i, Final(e, seeds, Prelude([])))
  {
    hide Inv;
    var call := Observed(OBSERVATION, OUTPUT);
    assert Prelude([]) == [call];
    FinalLast(e, seeds, [call]);
    assert [call][..0] == [];
    StartIndexed(seeds);
  }

  lemma PremiseFiled(e: Run, seeds: seq<Finding>, rest: seq<string>, i: nat, st: State, p: string)
    requires Seeds(seeds) && i < |seeds| && Prepared(e, seeds, rest, i, st) && CustomID(p) && p != seeds[i].id
    ensures Prepared(e, seeds, rest + [p], i, FindingStore.After(e, st, ReportCall(Naming(p, None))))
  {
    assert HasPrefix(p, "custom:");
    hide CustomID, Validated, Inv;
    NamingValidated(e, st, p, None);
    CallKeeps(e, seeds, st, ReportCall(Naming(p, None)));
    InvKeeps(e, seeds, st);
  }

  /** The run leaves the finding with the listener it named. */
  lemma NamingRuns(e: Run, seeds: seq<Finding>, i: nat, s: ServiceRef)
    requires Seeds(seeds) && i < |seeds| && Reportable(e, seeds, seeds[i].id) && seeds[i].service.None? && ValidService(s)
    ensures FindingAt(e, seeds, NamingRun(e, seeds[i].id, s), i).service == Some(s)
  {
    hide CustomID, Final, Validated, Inv, Applicable, Disproved;
    var id := seeds[i].id;
    var premise := Premises(e, id);
    NotCustom(id);
    PreludeRuns(e, seeds, premise, i);
    var before, call := Prelude(premise), ReportCall(Naming(id, Some(s)));
    var st := Final(e, seeds, before);
    assert (before + [call])[..|before|] == before;
    FinalLast(e, seeds, before + [call]);
    if !HasPrefix(id, "custom:") {
      forall p | p in premise && p !in st.byID ensures !Disproved(e, p) { assert PremiseOpen(e, seeds, p); }
    }
    NamingValidated(e, st, id, Some(s));
    InvKeeps(e, seeds, st);
    SeedIndex(seeds, st, i);
    MergedService(seeds[i], Validated(e, st, Naming(id, Some(s))).value);
  }

  lemma NotCustom(id: string)
    ensures !HasPrefix(id, "custom:") ==> !CustomID(id)
  {
  }

  lemma SeedIndex(seeds: seq<Finding>, st: State, i: nat)
    requires Indexed(st) && i < |seeds| <= |st.findings| && st.findings[i] == seeds[i]
    ensures seeds[i].id in st.byID && st.byID[seeds[i].id] == i
  {
  }

  lemma MergedService(have: Finding, found: Finding)
    requires have.service.None?
    ensures Merged(have, found).service == found.service
  {
    hide Holds, AppendAll;
  }

  /**
   * No run of calls changes how a phase 1 finding grades exactly when there is no context, no service is declared, the
   * listener is known, the model may not report the id, or neither row a listener can bring in changes the grade.
   */
  lemma SeedGradeExactly(e: Run, seeds: seq<Finding>, i: nat)
    requires Seeds(seeds) && i < |seeds|
    ensures (forall calls :: FinalSeverity(e.grader, FindingAt(e, seeds, calls, i)) == FinalSeverity(e.grader, seeds[i])) <==>
      GradeFixed(e, seeds, i)
  {
    hide FinalSeverity, FindingAt, Reportable, RowsIndifferent;
    if GradeFixed(e, seeds, i) {
      forall calls ensures FinalSeverity(e.grader, FindingAt(e, seeds, calls, i)) == FinalSeverity(e.grader, seeds[i]) {
        GradeStands(e, seeds, calls, i);
      }
    } else {
      IndifferentExactly(e.grader, seeds[i]);
      var s :| ValidService(s) && FinalSeverity(e.grader, seeds[i].(service := Some(s))) != FinalSeverity(e.grader, seeds[i]);
      var calls := NamingRun(e, seeds[i].id, s);
      NamingRuns(e, seeds, i, s);
      SameGrade(e.grader, seeds[i].(service := Some(s)), FindingAt(e, seeds, calls, i));
    }
  }

  /** For one: naming a declared listener makes a finding information, unless the host faces the internet. */
  lemma DeclaredListenerRegrades(e: Run, seeds: seq<Finding>, i: nat, s: ServiceRef)
    requires Seeds(seeds) && i < |seeds| && Reportable(e, seeds, seeds[i].id) && seeds[i].service.None? && ValidService(s)
    requires e.grader.context.Some? && e.grader.context.value.exposure != "internet"
    requires Expected(e.grader.context.value.services, s).Some?
    ensures FinalSeverity(e.grader, FindingAt(e, seeds, NamingRun(e, seeds[i].id, s), i)) == Info
  {
    hide FinalSeverity, FindingAt, Reportable;
    NamingRuns(e, seeds, i, s);
    DeclaredServiceIsInfo(e.grader, FindingAt(e, seeds, NamingRun(e, seeds[i].id, s), i));
  }

  // ----- the last condition, read off the table -----

  /** The grade the table gives with these rows for the listener. */
  function RowGrade(c: Context, seed: Finding, rows: seq<Adjustment>): Severity {
    Capped(seed.custom, Folded(seed.custom, seed.base, rows + (ExposureRows(c, seed) + EnvironmentRows(c))))
  }

  /** The row that takes a finding with this base down to information. */
  function ToInfo(base: Severity): Adjustment { Adjustment("expected_service", Info.Rank() - base.Rank()) }

  /** A report may name a declared service. */
  predicate DeclaresValid(services: seq<Service>) {
    exists i :: 0 <= i < |services| && 1 <= services[i].port <= 65535 && Lower(services[i].proto) in {"tcp", "udp"}
  }

  /** A report may name a service nobody declared. */
  ghost predicate LeavesOpen(services: seq<Service>) { exists s: ServiceRef :: ValidService(s) && Expected(services, s).None? }

  /** Neither row for a listener moves the grade, where a report can bring that row in. */
  ghost predicate RowsIndifferent(g: Grader, seed: Finding) {
    g.context.None? || g.context.value.services == [] ||
    (var c := g.context.value;
     (DeclaresValid(c.services) ==> RowGrade(c, seed, [ToInfo(seed.base)]) == RowGrade(c, seed, [])) &&
     (seed.category == NETWORK && LeavesOpen(c.services) ==> RowGrade(c, seed, [Adjustment("unexpected_service", 1)]) == RowGrade(c, seed, [])))
  }

  lemma {:induction false} FoldDeltas(custom: bool, base: Severity, a: seq<Adjustment>, b: seq<Adjustment>)
    requires |a| == |b| && forall i :: 0 <= i < |a| ==> a[i].delta == b[i].delta
    ensures Folded(custom, base, a).severity == Folded(custom, base, b).severity
    ensures Folded(custom, base, a).raisedBy.Some? == Folded(custom, base, b).raisedBy.Some?
  {
    if a != [] { FoldDeltas(custom, base, a[..|a| - 1], b[..|b| - 1]); }
  }

  lemma GradeByDeltas(c: Context, seed: Finding, a: Adjustment, b: Adjustment)
    requires a.delta == b.delta
    ensures RowGrade(c, seed, [a]) == RowGrade(c, seed, [b])
  {
    var rest := ExposureRows(c, seed) + EnvironmentRows(c);
    FoldDeltas(seed.custom, seed.base, [a] + rest, [b] + rest);
    hide Folded, ExposureRows, EnvironmentRows;
  }

  lemma GradeIsRowGrade(c: Context, g: Grader, f: Finding)
    requires g.context == Some(c)
    ensures FinalSeverity(g, f) == RowGrade(c, f, ServiceRows(c, f))
  {
    hide Folded, ServiceRows, ExposureRows, EnvironmentRows, Capped;
    var a, b, d := ServiceRows(c, f), ExposureRows(c, f), EnvironmentRows(c);
    assert a + b + d == a + (b + d);
  }

  /** Naming a listener brings in the row of its kind. */
  lemma NamedGrade(c: Context, g: Grader, seed: Finding, s: ServiceRef)
    requires g.context == Some(c) && c.services != []
    ensures FinalSeverity(g, seed.(service := Some(s))) ==
      if Expected(c.services, s).Some? then RowGrade(c, seed, [ToInfo(seed.base)])
      else if seed.category == NETWORK then RowGrade(c, seed, [Adjustment("unexpected_service", 1)])
      else RowGrade(c, seed, [])
  {
    var f := seed.(service := Some(s));
    GradeIsRowGrade(c, g, f);
    SameExposure(c, f, seed);
    var rows := ServiceRows(c, f);
    if Expected(c.services, s).Some? {
      hide Expected, FinalSeverity, Folded, Capped;
      assert |rows| == 1 && rows == [rows[0]] && rows[0].delta == ToInfo(seed.base).delta;
      GradeByDeltas(c, seed, rows[0], ToInfo(seed.base));
    } else if seed.category == NETWORK {
      hide Expected, FinalSeverity, Folded, Capped;
      assert rows == [Adjustment("unexpected_service", 1)];
    }
  }

  lemma DeclaredIsNamed(services: seq<Service>)
    ensures DeclaresValid(services) <==> exists s: ServiceRef :: ValidService(s) && Expected(services, s).Some?
  {
    LowerFixed("tcp");
    LowerFixed("udp");
    if DeclaresValid(services) {
      var i :| 0 <= i < |services| && 1 <= services[i].port <= 65535 && Lower(services[i].proto) in {"tcp", "udp"};
      var s := ServiceRef(services[i].port, Lower(services[i].proto));
      assert SameService(services[i], s);
      assert ValidService(s) && Expected(services, s).Some?;
    }
    if s: ServiceRef :| ValidService(s) && Expected(services, s).Some? {
      var svc := Expected(services, s).value;
      var i :| 0 <= i < |services| && services[i] == svc;
      assert Lower(s.proto) == s.proto;
    }
  }

  /** For a finding without a listener, no listener changes the grade exactly when the table's two rows do not. */
  lemma IndifferentExactly(g: Grader, seed: Finding)
    requires seed.service.None?
    ensures Indifferent(g, seed) <==> RowsIndifferent(g, seed)
  {
    if g.context.None? || g.context.value.services == [] {
      forall s: ServiceRef | ValidService(s) ensures FinalSeverity(g, seed.(service := Some(s))) == FinalSeverity(g, seed) {
        SameGrade(g, seed, seed.(service := Some(s)));
      }
    } else {
      var c := g.context.value;
      DeclaredIsNamed(c.services);
      GradeIsRowGrade(c, g, seed);
      assert ServiceRows(c, seed) == [];
      hide FinalSeverity, RowGrade, Expected, DeclaresValid, ValidService;
      ByRows(c, g, seed);
    }
  }

  lemma ByRows(c: Context, g: Grader, seed: Finding)
    requires g.context == Some(c) && c.services != []
    requires FinalSeverity(g, seed) == RowGrade(c, seed, [])
    requires DeclaresValid(c.services) <==> exists s: ServiceRef :: ValidService(s) && Expected(c.services, s).Some?
    ensures Indifferent(g, seed) <==> RowsIndifferent(g, seed)
  {
    hide FinalSeverity, RowGrade, Expected, DeclaresValid, ValidService;
    forall s: ServiceRef ensures FinalSeverity(g, seed.(service := Some(s))) ==
      if Expected(c.services, s).Some? then RowGrade(c, seed, [ToInfo(seed.base)])
      else if seed.category == NETWORK then RowGrade(c, seed, [Adjustment("unexpected_service", 1)])
      else RowGrade(c, seed, [])
    {
      NamedGrade(c, g, seed, s);
    }
    if Indifferent(g, seed) {
      if DeclaresValid(c.services) {
        var s: ServiceRef :| ValidService(s) && Expected(c.services, s).Some?;
        assert FinalSeverity(g, seed.(service := Some(s))) == FinalSeverity(g, seed);
      }
      if seed.category == NETWORK && LeavesOpen(c.services) {
        var s: ServiceRef :| ValidService(s) && Expected(c.services, s).None?;
        assert FinalSeverity(g, seed.(service := Some(s))) == FinalSeverity(g, seed);
      }
    }
  }
}
