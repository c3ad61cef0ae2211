/** Findings and the deterministic grading (finding.go, grade.go). */
module Grading {
  import opened Options
  import opened SeverityChain
  import Text

  datatype Source = Rule | Model
  datatype Confidence = Sure | Likely | Unsure
  datatype FindingStatus = Open | Accepted
  datatype Evidence = Evidence(observation: string, check: string, excerpt: string)
  datatype Remediation = Remediation(summary: string, commands: seq<string>, caveat: string)
  datatype ServiceRef = ServiceRef(port: int, proto: string)
  datatype Adjustment = Adjustment(rule: string, delta: int)

  datatype Finding = Finding(
    id: string, title: string, category: string, base: Severity, severity: Severity, adjustments: seq<Adjustment>,
    status: FindingStatus, acceptedReason: string, source: Source, confidence: Confidence, platform: string,
    evidence: seq<Evidence>, impact: string, remediation: Remediation, note: string, service: Option<ServiceRef>,
    custom: bool, cappedBy: Option<string>)

  /** A declared service, its name the key the adjustment rule carries. */
  datatype Service = Service(port: int, proto: string, key: string)

  /** An accepted risk; expires is the instant the acceptance lapses, if any. */
  datatype Risk = Risk(id: string, reason: string, expires: Option<int>)

  datatype Context = Context(exposure: string, environment: string, services: seq<Service>, risks: seq<Risk>)

  datatype Grader = Grader(context: Option<Context>, emulated: bool, now: int)

  const REMOTE_ACCESS := "remote-access"
  const NETWORK := "network"

  datatype Step =
    | BaseStep(to: Severity)
    | AdjustStep(from: Severity, to: Severity, rule: string, ignored: bool)
    | CapStep(from: Severity, to: Severity)
    | ConfidenceStep
    | StatusStep(status: FindingStatus)
    | FinalStep(to: Severity, status: FindingStatus)

  // ----- the table -----

  predicate SameService(svc: Service, s: ServiceRef) { svc.port == s.port && Text.Lower(svc.proto) == Text.Lower(s.proto) }

  function Expected(services: seq<Service>, s: ServiceRef): (r: Option<Service>)
    ensures r.None? <==> forall i :: 0 <= i < |services| ==> !SameService(services[i], s)
    ensures r.Some? ==> r.value in services && SameService(r.value, s)
  {
    if services == [] then None
    else if SameService(services[0], s) then Some(services[0])
    else Expected(services[1..], s)
  }

  function Acceptance(risks: seq<Risk>, id: string): (r: Option<Risk>)
    ensures r.None? <==> forall i :: 0 <= i < |risks| ==> risks[i].id != id
    ensures r.Some? ==> r.value in risks && r.value.id == id
  {
    if risks == [] then None else if risks[0].id == id then Some(risks[0]) else Acceptance(risks[1..], id)
  }

  predicate Expired(r: Risk, now: int) { r.expires.Some? && now > r.expires.value }

  function ServiceRows(c: Context, f: Finding): seq<Adjustment> {
    if f.service.None? || c.services == [] then []
    else match Expected(c.services, f.service.value)
      case Some(svc) => [Adjustment("expected_service:" + svc.key, Info.Rank() - f.base.Rank())]
      case None => if f.category == NETWORK then [Adjustment("unexpected_service", 1)] else []
  }

  function ExposureRows(c: Context, f: Finding): seq<Adjustment> {
    if c.exposure == "internet" && (f.category == REMOTE_ACCESS || f.category == NETWORK) then [Adjustment("exposure:internet", 1)]
    else if c.exposure == "airgapped" && f.category == REMOTE_ACCESS then [Adjustment("exposure:airgapped", -2)]
    else []
  }

  function EnvironmentRows(c: Context): seq<Adjustment> {
    if c.environment == "dev" then [Adjustment("environment:dev", -1)] else []
  }

  function Adjustments(c: Context, f: Finding): seq<Adjustment> { ServiceRows(c, f) + ExposureRows(c, f) + EnvironmentRows(c) }

  // ----- the fold -----

  /** Severity, the adjustments that moved it, and the last raise past high. */
  datatype Fold = Fold(severity: Severity, taken: seq<Adjustment>, raisedBy: Option<string>, steps: seq<Step>)

  function Adjusted(custom: bool, s: Fold, a: Adjustment): Fold {
    var next := s.severity.Shift(a.delta);
    if custom && next.Rank() > s.severity.Rank() then s.(steps := s.steps + [AdjustStep(s.severity, s.severity, a.rule, true)])
    else if next == s.severity then s.(steps := s.steps + [AdjustStep(s.severity, next, a.rule, true)])
    else Fold(next, s.taken + [a], if next.Rank() > High.Rank() && s.severity.Rank() <= High.Rank() then Some(a.rule) else s.raisedBy,
              s.steps + [AdjustStep(s.severity, next, a.rule, false)])
  }

  function Folded(custom: bool, base: Severity, adjs: seq<Adjustment>): Fold {
    if adjs == [] then Fold(base, [], None, [BaseStep(base)])
    else Adjusted(custom, Folded(custom, base, adjs[..|adjs| - 1]), adjs[|adjs| - 1])
  }

  function Table(g: Grader, f: Finding): Fold {
    Folded(f.custom, f.base, if g.context.Some? then Adjustments(g.context.value, f) else [])
  }

  predicate CapsHigh(s: Fold) { s.raisedBy.Some? && s.severity.Rank() > High.Rank() }

  function HighCapped(s: Fold): Severity { if CapsHigh(s) then High else s.severity }

  function Capped(custom: bool, s: Fold): Severity {
    if custom && HighCapped(s).Rank() > Medium.Rank() then Medium else HighCapped(s)
  }

  function FinalSeverity(g: Grader, f: Finding): Severity { Capped(f.custom, Table(g, f)) }

  function StatusOf(g: Grader, id: string): (FindingStatus, string) {
    if g.context.None? then (Open, "")
    else match Acceptance(g.context.value.risks, id)
      case None => (Open, "")
      case Some(r) => if Expired(r, g.now) then (Open, "") else (Accepted, r.reason)
  }

  function Graded(g: Grader, f: Finding): Finding {
    f.(adjustments := Table(g, f).taken,
       severity := FinalSeverity(g, f),
       status := StatusOf(g, f.id).0,
       acceptedReason := StatusOf(g, f.id).1,
       cappedBy := if CapsHigh(Table(g, f)) then Table(g, f).raisedBy else None,
       confidence := if g.emulated && f.source == Model && f.confidence == Sure then Likely else f.confidence)
  }

  /** The table applied step by step. */
  method AdjustAll(custom: bool, base: Severity, adjs: seq<Adjustment>) returns (s: Fold)
    ensures s == Folded(custom, base, adjs)
    ensures ChainOf(s.steps, base, s.severity)
  {
    s := Fold(base, [], None, [BaseStep(base)]);
    assert adjs[..0] == [];
    for i := 0 to |adjs|
      invariant s == Folded(custom, base, adjs[..i])
      invariant ChainOf(s.steps, base, s.severity)
    {
      assert adjs[..i + 1][..i] == adjs[..i];
      hide ChainOf;
      var next := s.severity.Shift(adjs[i].delta);
      if custom && next.Rank() > s.severity.Rank() {
        ChainGrows(s.steps, base, s.severity, AdjustStep(s.severity, s.severity, adjs[i].rule, true));
        s := s.(steps := s.steps + [AdjustStep(s.severity, s.severity, adjs[i].rule, true)]);
        continue;
      }
      ChainGrows(s.steps, base, s.severity, AdjustStep(s.severity, next, adjs[i].rule, next == s.severity));
      if next == s.severity {
        s := s.(steps := s.steps + [AdjustStep(s.severity, next, adjs[i].rule, true)]);
        continue;
      }
      var raisedBy := if next.Rank() > High.Rank() && s.severity.Rank() <= High.Rank() then Some(adjs[i].rule) else s.raisedBy;
      s := Fold(next, s.taken + [adjs[i]], raisedBy, s.steps + [AdjustStep(s.severity, next, adjs[i].rule, false)]);
    }
    assert adjs[..|adjs|] == adjs;
  }

  /** The caps after the whole table: a raise past high, then a custom finding's medium. */
  method Cap(custom: bool, base: Severity, s: Fold) returns (severity: Severity, cappedBy: Option<string>, steps: seq<Step>)
    requires ChainOf(s.steps, base, s.severity)
    ensures severity == Capped(custom, s) && cappedBy == if CapsHigh(s) then s.raisedBy else None
    ensures ChainOf(steps, base, severity)
  {
    hide ChainOf;
    severity, cappedBy, steps := s.severity, None, s.steps;
    if s.raisedBy.Some? && severity.Rank() > High.Rank() {
      ChainGrows(steps, base, severity, CapStep(severity, High));
      steps := steps + [CapStep(severity, High)];
      severity, cappedBy := High, s.raisedBy;
    }
    if custom && severity.Rank() > Medium.Rank() {
      ChainGrows(steps, base, severity, CapStep(severity, Medium));
      steps := steps + [CapStep(severity, Medium)];
      severity := Medium;
    }
  }

  /** The accepted risk, if any, and the step that says so. */
  method Accept(g: Grader, id: string) returns (status: FindingStatus, reason: string, said: seq<Step>)
    ensures (status, reason) == StatusOf(g, id)
    ensures said == [] || said == [StatusStep(status)]
  {
    hide Acceptance;
    status, reason, said := Open, "", [];
    if g.context.Some? {
      var risk := Acceptance(g.context.value.risks, id);
      if risk.Some? {
        if !Expired(risk.value, g.now) { status, reason := Accepted, risk.value.reason; }
        said := [StatusStep(status)];
      }
    }
  }

  method Grade(g: Grader, f: Finding) returns (r: Finding, steps: seq<Step>)
    ensures r == Graded(g, f)
    ensures ChainOf(steps, f.base, r.severity)
  {
    hide StatusOf, Adjustments, Folded, ChainOf, Capped, CapsHigh;
    var s := AdjustAll(f.custom, f.base, if g.context.Some? then Adjustments(g.context.value, f) else []);
    var severity, cappedBy;
    severity, cappedBy, steps := Cap(f.custom, f.base, s);
    var confidence := f.confidence;
    if g.emulated && f.source == Model && f.confidence == Sure {
      ChainGrows(steps, f.base, severity, ConfidenceStep);
      steps, confidence := steps + [ConfidenceStep], Likely;
    }
    var status, reason, said := Accept(g, f.id);
    if said != [] { ChainGrows(steps, f.base, severity, StatusStep(status)); } else { assert steps + said == steps; }
    steps := steps + said;
    ChainGrows(steps, f.base, severity, FinalStep(severity, status));
    steps := steps + [FinalStep(severity, status)];
    r := f.(adjustments := s.taken, severity := severity, status := status, acceptedReason := reason, cappedBy := cappedBy, confidence := confidence);
  }

  // ----- the chain a reader is shown -----

  /** Where a step leaves a severity that stood at s. */
  function After(step: Step, s: Severity): Severity {
    match step
    case BaseStep(to) => to
    case AdjustStep(_, to, _, _) => to
    case CapStep(_, to) => to
    case _ => s
  }

  predicate Starts(step: Step, s: Severity) {
    match step
    case BaseStep(_) => false
    case AdjustStep(from, to, _, ignored) => from == s && (ignored <==> to == s)
    case CapStep(from, to) => from == s && to.Rank() < from.Rank()
    case FinalStep(to, _) => to == s
    case _ => true
  }

  /** The steps are linked: they start at the base, each starts where the last one ended, and they end at the severity. */
  predicate ChainOf(steps: seq<Step>, base: Severity, end: Severity) {
    steps != [] &&
    if |steps| == 1 then steps[0] == BaseStep(base) && end == base
    else
      var last := steps[|steps| - 1];
      exists mid :: ChainOf(steps[..|steps| - 1], base, mid) && Starts(last, mid) && end == After(last, mid)
  }

  lemma ChainGrows(steps: seq<Step>, base: Severity, s: Severity, step: Step)
    requires ChainOf(steps, base, s) && Starts(step, s)
    ensures ChainOf(steps + [step], base, After(step, s))
  {
    var all := steps + [step];
    assert ChainOf(all[..|all| - 1], base, s) by { assert all[..|all| - 1] == steps; }
    assert all[|all| - 1] == step;
  }

  // ----- what grading promises -----

  lemma {:induction false} FoldBound(custom: bool, base: Severity, adjs: seq<Adjustment>)
    ensures var s := Folded(custom, base, adjs);
      (custom ==> s.severity.Rank() <= base.Rank() && s.raisedBy.None?) &&
      (s.severity == Critical && s.raisedBy.None? ==> base == Critical)
  {
    if adjs != [] { FoldBound(custom, base, adjs[..|adjs| - 1]); }
  }

  /** No finding ends above both its base and high; a custom one never above its base, nor above medium. */
  lemma GradeCeiling(g: Grader, f: Finding)
    ensures FinalSeverity(g, f).Rank() <= Graver(f.base, High).Rank()
    ensures f.custom ==> FinalSeverity(g, f).Rank() <= f.base.Rank() && FinalSeverity(g, f).Rank() <= Medium.Rank()
  {
    hide Folded;
    FoldBound(f.custom, f.base, if g.context.Some? then Adjustments(g.context.value, f) else []);
  }

  /** Grading reads nothing it writes, so grading again changes nothing. */
  lemma GradeIdempotent(g: Grader, f: Finding)
    ensures Graded(g, Graded(g, f)) == Graded(g, f)
  {
    hide Folded, Acceptance;
    var r := Graded(g, f);
    if g.context.Some? {
      var c := g.context.value;
      assert ServiceRows(c, r) == ServiceRows(c, f) && ExposureRows(c, r) == ExposureRows(c, f);
      assert Adjustments(c, r) == Adjustments(c, f);
    }
    assert Table(g, r) == Table(g, f);
  }

  /** A declared service, seen on its port, is information unless exposure raises it. */
  lemma DeclaredServiceIsInfo(g: Grader, f: Finding)
    requires g.context.Some? && f.service.Some? && Expected(g.context.value.services, f.service.value).Some?
    requires g.context.value.exposure != "internet"
    ensures FinalSeverity(g, f) == Info
  {
    var c := g.context.value;
    var rows, b := ServiceRows(c, f), ExposureRows(c, f) + EnvironmentRows(c);
    DeclaredRow(c, f);
    RowsSplit(c, f, f);
    RowsLower(c, f);
    hide Adjustments, ServiceRows, ExposureRows, EnvironmentRows, Folded, Expected;
    OnlyLowers(f.custom, f.base, rows, b);
  }

  lemma RowsLower(c: Context, f: Finding)
    requires c.exposure != "internet"
    ensures var b := ExposureRows(c, f) + EnvironmentRows(c); forall i :: 0 <= i < |b| ==> b[i].delta <= 0
  {
  }

  lemma DeclaredRow(c: Context, f: Finding)
    requires f.service.Some? && Expected(c.services, f.service.value).Some?
    ensures Folded(f.custom, f.base, ServiceRows(c, f)).severity == Info
  {
    var rows := ServiceRows(c, f);
    assert c.services != [];
    hide Expected;
    assert |rows| == 1 && rows[..0] == [];
    FoldedEmpty(f.custom, f.base);
  }

  lemma AdjustedLowers(custom: bool, s: Fold, a: Adjustment)
    requires a.delta <= 0
    ensures Adjusted(custom, s, a).severity.Rank() <= s.severity.Rank()
  {
  }

  lemma {:induction false} OnlyLowers(custom: bool, base: Severity, a: seq<Adjustment>, b: seq<Adjustment>)
    requires forall i :: 0 <= i < |b| ==> b[i].delta <= 0
    ensures Folded(custom, base, a + b).severity.Rank() <= Folded(custom, base, a).severity.Rank()
  {
    hide Folded, Adjusted;
    if b == [] {
      assert a + b == a;
    } else {
      OnlyLowers(custom, base, a, b[..|b| - 1]);
      FoldedLast(custom, base, a, b);
      AdjustedLowers(custom, Folded(custom, base, a + b[..|b| - 1]), b[|b| - 1]);
    }
  }

  // ----- a graver base never grades lower -----

  /** Two findings the table reads alike but for how severe their base is. */
  predicate SameButBase(f: Finding, f': Finding) {
    f'.category == f.category && f'.service == f.service && f'.custom == f.custom && f.base.Rank() <= f'.base.Rank()
  }

  lemma AdjustedMonotone(custom: bool, s: Fold, t: Fold, a: Adjustment)
    requires s.severity.Rank() <= t.severity.Rank()
    ensures Adjusted(custom, s, a).severity.Rank() <= Adjusted(custom, t, a).severity.Rank()
  {
  }

  lemma FoldedLast(custom: bool, base: Severity, a: seq<Adjustment>, b: seq<Adjustment>)
    requires b != []
    ensures Folded(custom, base, a + b) == Adjusted(custom, Folded(custom, base, a + b[..|b| - 1]), b[|b| - 1])
  {
    hide Adjusted;
    assert (a + b)[..|a + b| - 1] == a + b[..|b| - 1];
  }

  lemma {:induction false} FoldMonotone(custom: bool, base: Severity, base': Severity, a: seq<Adjustment>, a': seq<Adjustment>, b: seq<Adjustment>)
    requires Folded(custom, base, a).severity.Rank() <= Folded(custom, base', a').severity.Rank()
    ensures Folded(custom, base, a + b).severity.Rank() <= Folded(custom, base', a' + b).severity.Rank()
  {
    hide Adjusted, Folded;
    if b == [] {
      assert a + b == a && a' + b == a';
    } else {
      FoldMonotone(custom, base, base', a, a', b[..|b| - 1]);
      FoldedLast(custom, base, a, b);
      FoldedLast(custom, base', a', b);
      AdjustedMonotone(custom, Folded(custom, base, a + b[..|b| - 1]), Folded(custom, base', a' + b[..|b| - 1]), b[|b| - 1]);
    }
  }

  lemma ServiceRowsMonotone(c: Context, f: Finding, f': Finding)
    requires SameButBase(f, f')
    ensures Folded(f.custom, f.base, ServiceRows(c, f)).severity.Rank() <= Folded(f.custom, f'.base, ServiceRows(c, f')).severity.Rank()
  {
    hide Expected;
    var a, a' := ServiceRows(c, f), ServiceRows(c, f');
    if a != [] {
      assert Folded(f.custom, f.base, a[..0]) == Fold(f.base, [], None, [BaseStep(f.base)]);
      assert Folded(f.custom, f'.base, a'[..0]) == Fold(f'.base, [], None, [BaseStep(f'.base)]);
    }
  }

  lemma SameExposure(c: Context, f: Finding, f': Finding)
    requires f.category == f'.category
    ensures ExposureRows(c, f) == ExposureRows(c, f')
  {
  }

  lemma FoldedEmpty(custom: bool, base: Severity)
    ensures Folded(custom, base, []).severity == base
  {
  }

  lemma RowsSplit(c: Context, f: Finding, f': Finding)
    requires SameButBase(f, f')
    ensures var b := ExposureRows(c, f) + EnvironmentRows(c);
      Adjustments(c, f) == ServiceRows(c, f) + b && Adjustments(c, f') == ServiceRows(c, f') + b
  {
    SameExposure(c, f, f');
    hide ServiceRows, ExposureRows, EnvironmentRows;
  }

  lemma TableMonotone(g: Grader, f: Finding, f': Finding)
    requires SameButBase(f, f')
    ensures Table(g, f).severity.Rank() <= Table(g, f').severity.Rank()
  {
    hide Folded, Adjustments, ServiceRows, ExposureRows, EnvironmentRows;
    if g.context.Some? {
      var c := g.context.value;
      RowsSplit(c, f, f');
      ServiceRowsMonotone(c, f, f');
      FoldMonotone(f.custom, f.base, f'.base, ServiceRows(c, f), ServiceRows(c, f'), ExposureRows(c, f) + EnvironmentRows(c));
    } else {
      FoldedEmpty(f.custom, f.base);
      FoldedEmpty(f'.custom, f'.base);
    }
  }

  /** A finding whose base is graver never grades lower, whatever the context: the caps keep the order. */
  lemma GradeMonotone(g: Grader, f: Finding, f': Finding)
    requires SameButBase(f, f')
    ensures FinalSeverity(g, f).Rank() <= FinalSeverity(g, f').Rank()
  {
    TableMonotone(g, f, f');
    TableBound(g, f);
    if f.base == f'.base { SameTable(g, f, f'); }
    hide Table, Capped;
    CapsKeepOrder(f.custom, Table(g, f), Table(g, f'));
  }

  lemma TableBound(g: Grader, f: Finding)
    ensures Table(g, f).severity == Critical && Table(g, f).raisedBy.None? ==> f.base == Critical
  {
    hide Folded, Adjustments;
    FoldBound(f.custom, f.base, if g.context.Some? then Adjustments(g.context.value, f) else []);
  }

  lemma CapsKeepOrder(custom: bool, s: Fold, t: Fold)
    requires s.severity.Rank() <= t.severity.Rank()
    requires s.severity == Critical && s.raisedBy.None? ==> s == t
    ensures Capped(custom, s).Rank() <= Capped(custom, t).Rank()
  {
  }

  lemma SameTable(g: Grader, f: Finding, f': Finding)
    requires SameButBase(f, f') && f.base == f'.base
    ensures Table(g, f) == Table(g, f')
  {
    hide Folded, Expected;
    if g.context.Some? {
      assert ServiceRows(g.context.value, f) == ServiceRows(g.context.value, f');
      RowsSplit(g.context.value, f, f');
      hide Adjustments, ServiceRows, ExposureRows;
    }
  }
}
