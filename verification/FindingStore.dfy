/** The store of a run's findings: what a model may report, merge and rule out (store.go, evaluate.go). */
module FindingStore {
  import opened Options
  import opened SeverityChain
  import opened Grading
  import opened Text
  import opened Captures
  import opened Sorting
  import Rules

  /** A check's captured output of this run. */
  datatype Output = Output(check: string, ok: bool, raw: string)

  /** A catalog definition; hosts says it is of the hosts area. */
  datatype Def = Def(title: string, category: string, hosts: bool, multiFact: bool, base: Severity,
                     impact: string, remediation: Remediation, premise: seq<string>)

  datatype PostureRule = PostureRule(finding: string, platform: string)
  datatype Reading = NotApplicable | Read(status: Rules.Status)
  datatype Assessment = Assessment(finding: string, reading: Reading)

  const ANY := "any"

  /** What a store never changes: its grading, the catalog, and what the posture rules found. */
  datatype Run = Run(grader: Grader, platform: string, catalog: map<string, Def>,
                     rules: seq<PostureRule>, assessments: seq<Assessment>)

  datatype RuledOut = RuledOut(id: string, note: string, evidence: seq<Evidence>)

  /** outputs is the run's observations, which only grow. */
  datatype State = State(findings: seq<Finding>, byID: map<string, nat>, ruledOut: seq<RuledOut>, outputs: map<string, Output>)

  /** What report_finding carries; confidence and proposed are None when the text is not one of the levels. */
  datatype Candidate = Candidate(
    id: string, note: string, title: string, confidence: Option<Confidence>, evidence: seq<Evidence>, impact: string,
    remediation: Option<Remediation>, contextNote: string, proposed: Option<Severity>, service: Option<ServiceRef>)

  /** What happens to a store: a check of the run gives an observation, or the model reports or rules out. */
  datatype Call = Observed(id: string, output: Output) | ReportCall(c: Candidate) | RuleOutCall(c: Candidate)

  // ----- evidence -----

  function JoinWords(ws: seq<string>): string {
    if ws == [] then "" else if |ws| == 1 then ws[0] else ws[0] + " " + JoinWords(ws[1..])
  }

  function FoldBlanks(s: string): string { JoinWords(Fields(s)) }

  predicate ExcerptIn(excerpt: string, output: string) { FoldBlanks(excerpt) != "" && Holds(FoldBlanks(output), FoldBlanks(excerpt)) }

  function AppendEvidence(have: seq<Evidence>, ev: Evidence): seq<Evidence> { if ev in have then have else have + [ev] }

  function AppendAll(have: seq<Evidence>, more: seq<Evidence>): (r: seq<Evidence>)
    ensures have <= r
    ensures forall ev :: ev in r <==> ev in have || ev in more
    decreases |more|
  {
    if more == [] then have else AppendEvidence(AppendAll(have, more[..|more| - 1]), more[|more| - 1])
  }

  method AppendEach(have: seq<Evidence>, more: seq<Evidence>) returns (r: seq<Evidence>)
    ensures r == AppendAll(have, more)
  {
    r := have;
    for i := 0 to |more|
      invariant r == AppendAll(have, more[..i])
    {
      assert more[..i + 1][..i] == more[..i];
      r := AppendEvidence(r, more[i]);
    }
    assert more[..|more|] == more;
  }

  /** The entry cites a capture of this run that succeeded, and quotes it. */
  predicate Citable(outs: map<string, Output>, ev: Evidence) {
    ev.observation != "" && TrimSpace(ev.excerpt) != "" &&
    ev.observation in outs && outs[ev.observation].ok &&
    (ev.check != "" ==> ev.check == outs[ev.observation].check) &&
    ExcerptIn(ev.excerpt, outs[ev.observation].raw)
  }

  function Cited(outs: map<string, Output>, ev: Evidence): Evidence
    requires Citable(outs, ev)
  {
    Evidence(ev.observation, outs[ev.observation].check, TrimSpace(ev.excerpt))
  }

  /** The validated entries without repetition; None when one of them is not citable. */
  function EvidenceOf(outs: map<string, Output>, entries: seq<Evidence>): (r: Option<seq<Evidence>>)
    ensures r.Some? <==> forall i :: 0 <= i < |entries| ==> Citable(outs, entries[i])
    ensures r.Some? && entries != [] ==> r.value != []
  {
    if entries == [] then Some([])
    else
      var rest, ev := EvidenceOf(outs, entries[..|entries| - 1]), entries[|entries| - 1];
      assert entries == entries[..|entries| - 1] + [ev];
      if rest.Some? && Citable(outs, ev) then Some(AppendEvidence(rest.value, Cited(outs, ev))) else None
  }

  method CheckEvidence(outs: map<string, Output>, entries: seq<Evidence>) returns (r: Option<seq<Evidence>>)
    ensures r == EvidenceOf(outs, entries)
  {
    hide Citable;
    var out := [];
    for i := 0 to |entries|
      invariant Some(out) == EvidenceOf(outs, entries[..i])
    {
      assert entries[..i + 1][..i] == entries[..i];
      if !Citable(outs, entries[i]) { return None; }
      out := AppendEvidence(out, Cited(outs, entries[i]));
    }
    assert entries[..|entries|] == entries;
    return Some(out);
  }

  /** A stored entry stands on this run: its observation succeeded, and its output holds the excerpt, blanks folded. */
  predicate Backed(outs: map<string, Output>, ev: Evidence) {
    ev.observation in outs && outs[ev.observation].ok && ev.check == outs[ev.observation].check &&
    ExcerptIn(ev.excerpt, outs[ev.observation].raw)
  }

  /** Every validated entry is backed. */
  lemma {:induction false} EvidenceBacked(outs: map<string, Output>, entries: seq<Evidence>)
    ensures EvidenceOf(outs, entries).Some? ==> forall ev :: ev in EvidenceOf(outs, entries).value ==> Backed(outs, ev)
  {
    if entries != [] {
      EvidenceBacked(outs, entries[..|entries| - 1]);
      FieldsTrim(entries[|entries| - 1].excerpt);
    }
  }

  // ----- validation -----

  predicate SlugChar(c: char) { 'a' <= c <= 'z' || '0' <= c <= '9' || c == '_' || c == '-' }

  /** custom:<slug>, the slug of 3 to 64 characters. */
  predicate CustomID(id: string) {
    HasPrefix(id, "custom:") && 10 <= |id| <= 71 &&
    ('a' <= id[7] <= 'z' || '0' <= id[7] <= '9') && forall i :: 7 <= i < |id| ==> SlugChar(id[i])
  }

  /** A catalog id the model may speak of. */
  predicate HostID(e: Run, id: string) { id in e.catalog && e.catalog[id].hosts && !e.catalog[id].multiFact }

  predicate Disproved(e: Run, id: string) {
    exists i :: 0 <= i < |e.assessments| && e.assessments[i] == Assessment(id, Read(Rules.NotMatched))
  }

  /** The id has no posture rule, or one of its rules is of this platform. */
  predicate Applicable(e: Run, id: string) {
    e.platform == "" ||
    (forall i :: 0 <= i < |e.rules| ==> e.rules[i].finding != id) ||
    (exists i :: 0 <= i < |e.rules| && e.rules[i].finding == id && (e.rules[i].platform == ANY || e.rules[i].platform == e.platform))
  }

  predicate RuleAllows(e: Run, byID: map<string, nat>, id: string)
    requires id in e.catalog
  {
    Applicable(e, id) &&
    (id !in byID ==> !Disproved(e, id)) &&
    forall p :: p in e.catalog[id].premise && p !in byID ==> !Disproved(e, p)
  }

  predicate ServiceFits(s: Option<ServiceRef>) {
    s.Some? ==> 1 <= s.value.port <= 65535 && Lower(s.value.proto) in {"", "tcp", "udp"}
  }

  function ServiceOf(s: Option<ServiceRef>): Option<ServiceRef> {
    if s.None? then None else Some(ServiceRef(s.value.port, if s.value.proto == "" then "tcp" else Lower(s.value.proto)))
  }

  predicate Said(r: Option<Remediation>) { r.Some? && r.value.summary != "" }

  function Validated(e: Run, st: State, c: Candidate): (r: Option<Finding>)
    ensures r.Some? ==> r.value.id == c.id && r.value.source == Model
  {
    if c.confidence.None? || c.evidence == [] then None
    else
      var ev := EvidenceOf(st.outputs, c.evidence);
      if ev.None? || !ServiceFits(c.service) then None
      else
        var f := Finding(c.id, c.title, "custom", Info, Info, [], Open, "", Model, c.confidence.value, e.platform, ev.value,
                         c.impact, if c.remediation.Some? then c.remediation.value else Remediation("", [], ""),
                         c.contextNote, ServiceOf(c.service), false, None);
        if HasPrefix(c.id, "custom:") then
          if !CustomID(c.id) || c.proposed.None? || c.title == "" || c.impact == "" || !Said(c.remediation) then None
          else
            var s := if c.proposed.value.Rank() > Medium.Rank() then Medium else c.proposed.value;
            Some(f.(base := s, severity := s, custom := true))
        else if !HostID(e, c.id) || !RuleAllows(e, st.byID, c.id) then None
        else
          var def := e.catalog[c.id];
          Some(f.(title := def.title, category := def.category, base := def.base, severity := def.base,
                  impact := if c.impact != "" then c.impact else def.impact,
                  remediation := if Said(c.remediation) then c.remediation.value else def.remediation))
  }

  function ConfidenceRank(c: Confidence): nat { match c case Sure => 2 case Likely => 1 case Unsure => 0 }

  function Merged(have: Finding, found: Finding): Finding {
    have.(evidence := AppendAll(have.evidence, found.evidence),
          note := if found.note == "" || Holds(have.note, found.note) then have.note
                  else (if have.note == "" then "" else have.note + " ") + "model: " + found.note,
          service := if have.service.None? then found.service else have.service,
          confidence := if have.source == Model && ConfidenceRank(found.confidence) > ConfidenceRank(have.confidence)
                        then found.confidence else have.confidence)
  }

  // ----- the two calls -----

  /** byID is an exact index: every finding under its own id, and nothing else. */
  ghost predicate Indexed(st: State) {
    (forall i :: 0 <= i < |st.findings| ==> st.findings[i].id in st.byID && st.byID[st.findings[i].id] == i) &&
    (forall id :: id in st.byID ==> st.byID[id] < |st.findings| && st.findings[st.byID[id]].id == id)
  }

  function Without(rs: seq<RuledOut>, id: string): (r: seq<RuledOut>)
    ensures forall x :: x in r <==> x in rs && x.id != id
  {
    if rs == [] then [] else if rs[0].id == id then Without(rs[1..], id) else [rs[0]] + Without(rs[1..], id)
  }

  ghost function Reported(e: Run, st: State, c: Candidate): State
    requires Indexed(st)
  {
    match Validated(e, st, c)
    case None => st
    case Some(f) =>
      if f.id in st.byID then st.(findings := st.findings[st.byID[f.id] := Merged(st.findings[st.byID[f.id]], f)])
      else State(st.findings + [f], st.byID[f.id := |st.findings|], Without(st.ruledOut, f.id), st.outputs)
  }

  predicate RuleOutFits(e: Run, st: State, c: Candidate) {
    (if HasPrefix(c.id, "custom:") then CustomID(c.id) else HostID(e, c.id)) &&
    c.id !in st.byID && TrimSpace(c.note) != "" && EvidenceOf(st.outputs, c.evidence).Some?
  }

  function FirstRuledOut(rs: seq<RuledOut>, id: string): (i: nat)
    ensures i <= |rs|
    ensures i < |rs| ==> rs[i].id == id
    ensures forall j :: 0 <= j < i ==> rs[j].id != id
  {
    if rs == [] || rs[0].id == id then 0 else FirstRuledOut(rs[1..], id) + 1
  }

  function MergedRuling(have: RuledOut, note: string, ev: seq<Evidence>): RuledOut {
    RuledOut(have.id, if Holds(have.note, note) then have.note else have.note + " " + note, AppendAll(have.evidence, ev))
  }

  function RuledOutBy(e: Run, st: State, c: Candidate): State {
    if !RuleOutFits(e, st, c) then st
    else
      var note, ev, i := TrimSpace(c.note), EvidenceOf(st.outputs, c.evidence).value, FirstRuledOut(st.ruledOut, c.id);
      if i < |st.ruledOut| then st.(ruledOut := st.ruledOut[i := MergedRuling(st.ruledOut[i], note, ev)])
      else st.(ruledOut := st.ruledOut + [RuledOut(c.id, note, ev)])
  }

  ghost function After(e: Run, st: State, call: Call): State
    requires Indexed(st)
  {
    match call
    case Observed(id, o) => if id in st.outputs then st else st.(outputs := st.outputs[id := o])
    case ReportCall(c) => Reported(e, st, c)
    case RuleOutCall(c) => RuledOutBy(e, st, c)
  }

  // ----- what every call keeps -----

  /** What phase 1 hands over: rule findings under distinct ids. */
  ghost predicate Seeds(seeds: seq<Finding>) {
    forall i :: 0 <= i < |seeds| ==> seeds[i].source == Rule && (forall j :: 0 <= j < i ==> seeds[j].id != seeds[i].id)
  }

  ghost predicate Apart(rs: seq<RuledOut>) { forall i, j :: 0 <= i < j < |rs| ==> rs[i].id != rs[j].id }

  ghost predicate RulingsApart(st: State) {
    Apart(st.ruledOut) &&
    (forall i :: 0 <= i < |st.ruledOut| ==> st.ruledOut[i].id !in st.byID)
  }

  /** A phase 1 finding stands: its source, text, base and confidence as they were, its evidence only longer. */
  ghost predicate Stands(outs: map<string, Output>, seed: Finding, f: Finding) {
    f.id == seed.id && f.source == seed.source && f.title == seed.title && f.category == seed.category &&
    f.base == seed.base && f.confidence == seed.confidence && f.platform == seed.platform && f.impact == seed.impact &&
    f.remediation == seed.remediation && f.custom == seed.custom && seed.note <= f.note && seed.evidence <= f.evidence &&
    (seed.service.Some? ==> f.service == seed.service) &&
    (forall ev :: ev in f.evidence ==> ev in seed.evidence || Backed(outs, ev))
  }

  /** A model finding is grounded: a bounded custom one, or a catalog one no posture rule speaks against. */
  ghost predicate Grounded(e: Run, outs: map<string, Output>, byID: map<string, nat>, f: Finding) {
    f.source == Model && f.evidence != [] && (forall ev :: ev in f.evidence ==> Backed(outs, ev)) &&
    if f.custom then CustomID(f.id) && f.base.Rank() <= Medium.Rank()
    else
      HostID(e, f.id) && Applicable(e, f.id) && !Disproved(e, f.id) &&
      f.title == e.catalog[f.id].title && f.category == e.catalog[f.id].category && f.base == e.catalog[f.id].base &&
      forall p :: p in e.catalog[f.id].premise && p !in byID ==> !Disproved(e, p)
  }

  ghost predicate Keeps(e: Run, seeds: seq<Finding>, st: State) {
    |seeds| <= |st.findings| &&
    (forall i :: 0 <= i < |seeds| ==> Stands(st.outputs, seeds[i], st.findings[i])) &&
    (forall i :: |seeds| <= i < |st.findings| ==> Grounded(e, st.outputs, st.byID, st.findings[i]))
  }

  ghost predicate Inv(e: Run, seeds: seq<Finding>, st: State) {
    Indexed(st) && RulingsApart(st) && Keeps(e, seeds, st) &&
    forall i :: 0 <= i < |st.ruledOut| ==> forall ev :: ev in st.ruledOut[i].evidence ==> Backed(st.outputs, ev)
  }

  lemma ValidatedGrounded(e: Run, st: State, c: Candidate)
    requires Validated(e, st, c).Some?
    ensures var f := Validated(e, st, c).value;
      f.evidence != [] && (forall ev :: ev in f.evidence ==> Backed(st.outputs, ev)) &&
      (f.id !in st.byID ==> Grounded(e, st.outputs, st.byID, f))
  {
    hide EvidenceOf, Backed, Applicable, Disproved, CustomID;
    EvidenceBacked(st.outputs, c.evidence);
  }

  lemma MergedStands(outs: map<string, Output>, seed: Finding, have: Finding, found: Finding)
    requires Stands(outs, seed, have) && seed.source == Rule
    requires forall ev :: ev in found.evidence ==> Backed(outs, ev)
    ensures Stands(outs, seed, Merged(have, found))
  {
    hide Backed, Holds;
  }

  lemma MergedGrounded(e: Run, outs: map<string, Output>, byID: map<string, nat>, have: Finding, found: Finding)
    requires Grounded(e, outs, byID, have)
    requires forall ev :: ev in found.evidence ==> Backed(outs, ev)
    ensures Grounded(e, outs, byID, Merged(have, found))
  {
    hide Backed, Holds, Applicable, Disproved, CustomID;
  }

  lemma {:induction false} AppendAllKnown(have: seq<Evidence>, more: seq<Evidence>)
    requires forall ev :: ev in more ==> ev in have
    ensures AppendAll(have, more) == have
  {
    if more != [] { AppendAllKnown(have, more[..|more| - 1]); }
  }

  lemma HoldsEnd(before: string, note: string)
    ensures Holds(before + note, note)
  {
    assert HoldsAt(before + note, note, |before|);
  }

  lemma NoteOnce(have: Finding, found: Finding)
    requires found.note != ""
    ensures Holds(Merged(have, found).note, found.note)
  {
    hide Holds, AppendAll;
    if !Holds(have.note, found.note) {
      var before := (if have.note == "" then "" else have.note + " ") + "model: ";
      assert Merged(have, found).note == before + found.note;
      HoldsEnd(before, found.note);
    }
  }

  /** Reporting the same candidate again changes nothing: no evidence, note or service is added twice. */
  lemma MergeIdempotent(have: Finding, found: Finding)
    ensures Merged(Merged(have, found), found) == Merged(have, found)
    ensures Merged(have, found).confidence in {have.confidence, found.confidence}
    ensures have.source == Model ==> ConfidenceRank(Merged(have, found).confidence) >= ConfidenceRank(found.confidence)
    ensures ConfidenceRank(Merged(have, found).confidence) >= ConfidenceRank(have.confidence)
  {
    if found.note != "" { NoteOnce(have, found); }
    AppendAllKnown(AppendAll(have.evidence, found.evidence), found.evidence);
    hide Holds, AppendAll;
  }

  lemma ReportKeeps(e: Run, seeds: seq<Finding>, st: State, c: Candidate)
    requires Seeds(seeds) && Inv(e, seeds, st)
    ensures Inv(e, seeds, Reported(e, st, c))
  {
    hide Validated, Stands, Backed, Grounded;
    var v := Validated(e, st, c);
    if v.Some? {
      ValidatedGrounded(e, st, c);
      var f := v.value;
      if f.id in st.byID {
        var i := st.byID[f.id];
        if i < |seeds| { MergedStands(st.outputs, seeds[i], st.findings[i], f); } else { MergedGrounded(e, st.outputs, st.byID, st.findings[i], f); }
        MergedID(st.findings[i], f);
      } else {
        AddedKeeps(e, seeds, st, f);
      }
    }
  }

  lemma MergedID(have: Finding, found: Finding)
    ensures Merged(have, found).id == have.id
  {
  }

  lemma AddedKeeps(e: Run, seeds: seq<Finding>, st: State, f: Finding)
    requires Inv(e, seeds, st) && f.id !in st.byID && Grounded(e, st.outputs, st.byID, f)
    ensures Inv(e, seeds, State(st.findings + [f], st.byID[f.id := |st.findings|], Without(st.ruledOut, f.id), st.outputs))
  {
    hide Stands, Backed, Without;
    var st' := State(st.findings + [f], st.byID[f.id := |st.findings|], Without(st.ruledOut, f.id), st.outputs);
    forall i | |seeds| <= i < |st'.findings| ensures Grounded(e, st'.outputs, st'.byID, st'.findings[i]) {
      MoreIDs(e, st.outputs, st.byID, st'.byID, st'.findings[i]);
    }
    hide Grounded;
    WithoutApart(st.ruledOut, f.id);
    forall r | r in st'.ruledOut ensures r in st.ruledOut && r.id != f.id { WithoutIn(st.ruledOut, f.id, r); }
    assert Indexed(st');
  }

  lemma WithoutIn(rs: seq<RuledOut>, id: string, r: RuledOut)
    ensures r in Without(rs, id) <==> r in rs && r.id != id
  {
  }

  lemma MoreIDs(e: Run, outs: map<string, Output>, byID: map<string, nat>, more: map<string, nat>, f: Finding)
    requires Grounded(e, outs, byID, f) && forall id :: id in byID ==> id in more
    ensures Grounded(e, outs, more, f)
  {
    hide Backed, Disproved, Applicable;
  }

  lemma {:induction false} WithoutApart(rs: seq<RuledOut>, id: string)
    requires Apart(rs)
    ensures Apart(Without(rs, id))
  {
    if rs != [] {
      WithoutApart(rs[1..], id);
      var rest := Without(rs[1..], id);
      forall j | 0 <= j < |rest| ensures rest[j].id != rs[0].id {
        assert rest[j] in rs[1..];
        var k :| 0 <= k < |rs| - 1 && rs[1..][k] == rest[j];
        assert rs[k + 1].id != rs[0].id;
      }
      assert Apart([rs[0]] + rest);
    }
  }

  lemma RuleOutKeeps(e: Run, seeds: seq<Finding>, st: State, c: Candidate)
    requires Inv(e, seeds, st)
    ensures Inv(e, seeds, RuledOutBy(e, st, c))
  {
    hide Stands, Grounded, Backed, EvidenceOf, Holds;
    EvidenceBacked(st.outputs, c.evidence);
    var st' := RuledOutBy(e, st, c);
    assert st'.findings == st.findings && st'.byID == st.byID && st'.outputs == st.outputs;
    assert Keeps(e, seeds, st') && Indexed(st');
    hide Keeps, Indexed, TrimSpace;
    assert forall k :: 0 <= k < |st.ruledOut| ==> st'.ruledOut[k].id == st.ruledOut[k].id;
  }

  // ----- runs -----

  function Index(findings: seq<Finding>): map<string, nat> {
    if findings == [] then map[] else Index(findings[..|findings| - 1])[findings[|findings| - 1].id := |findings| - 1]
  }

  function Start(seeds: seq<Finding>): State { State(seeds, Index(seeds), [], map[]) }

  lemma {:induction false} StartIndexed(seeds: seq<Finding>)
    requires Seeds(seeds)
    ensures Indexed(Start(seeds))
  {
    if seeds != [] {
      var rest, f := seeds[..|seeds| - 1], seeds[|seeds| - 1];
      StartIndexed(rest);
      assert seeds == rest + [f];
      IndexGrows(rest, Index(rest), f);
    }
  }

  lemma IndexGrows(findings: seq<Finding>, byID: map<string, nat>, f: Finding)
    requires Indexed(State(findings, byID, [], map[])) && forall i :: 0 <= i < |findings| ==> findings[i].id != f.id
    ensures Indexed(State(findings + [f], byID[f.id := |findings|], [], map[]))
  {
  }

  lemma StartKeeps(e: Run, seeds: seq<Finding>)
    requires Seeds(seeds)
    ensures Inv(e, seeds, Start(seeds))
  {
    StartIndexed(seeds);
  }

  /** Observations are never replaced, so what stood on them still does. */
  lemma ObservedKeeps(e: Run, seeds: seq<Finding>, st: State, id: string, o: Output)
    requires Inv(e, seeds, st)
    ensures Inv(e, seeds, After(e, st, Observed(id, o)))
  {
    if id !in st.outputs {
      hide ExcerptIn, Disproved, Applicable, CustomID, HostID;
      var st' := st.(outputs := st.outputs[id := o]);
      assert forall ev :: Backed(st.outputs, ev) ==> Backed(st'.outputs, ev);
      hide Backed;
      forall i | 0 <= i < |seeds| ensures Stands(st'.outputs, seeds[i], st'.findings[i]) {
        assert Stands(st.outputs, seeds[i], st.findings[i]);
      }
      forall i | |seeds| <= i < |st.findings| ensures Grounded(e, st'.outputs, st'.byID, st'.findings[i]) {
        assert Grounded(e, st.outputs, st.byID, st.findings[i]);
      }
      hide Stands, Grounded;
      assert Keeps(e, seeds, st');
    }
  }

  lemma CallKeeps(e: Run, seeds: seq<Finding>, st: State, call: Call)
    requires Seeds(seeds) && Inv(e, seeds, st)
    ensures Inv(e, seeds, After(e, st, call))
  {
    hide Inv;
    match call
    case Observed(id, o) => ObservedKeeps(e, seeds, st, id, o);
    case ReportCall(c) => ReportKeeps(e, seeds, st, c);
    case RuleOutCall(c) => RuleOutKeeps(e, seeds, st, c);
  }

  /** The store after any sequence of calls keeps the whole invariant. */
  ghost function Final(e: Run, seeds: seq<Finding>, calls: seq<Call>): (st: State)
    requires Seeds(seeds)
    ensures Inv(e, seeds, st)
  {
    if calls == [] then
      StartKeeps(e, seeds);
      Start(seeds)
    else
      var before, call := Final(e, seeds, calls[..|calls| - 1]), calls[|calls| - 1];
      CallKeeps(e, seeds, before, call);
      After(e, before, call)
  }

  /** calls is the run so far: the fields are always what that run leaves. */
  class Store {
    const run: Run
    ghost const seeds: seq<Finding>
    var findings: seq<Finding>
    var byID: map<string, nat>
    var ruledOut: seq<RuledOut>
    var outputs: map<string, Output>
    ghost var calls: seq<Call>

    function Contents(): State reads this { State(findings, byID, ruledOut, outputs) }

    ghost predicate Valid() reads this { Seeds(seeds) && Contents() == Final(run, seeds, calls) }

    constructor (run: Run, seeds: seq<Finding>)
      requires Seeds(seeds)
      ensures Valid() && this.run == run && this.seeds == seeds && calls == [] && findings == seeds && outputs == map[]
    {
      var index: map<string, nat> := map[];
      for i := 0 to |seeds|
        invariant index == Index(seeds[..i])
      {
        assert seeds[..i + 1][..i] == seeds[..i];
        index := index[seeds[i].id := i];
      }
      assert seeds[..|seeds|] == seeds;
      this.run, this.seeds, findings, byID, ruledOut, outputs, calls := run, seeds, seeds, index, [], map[], [];
    }

    /** A check ran: its output is an observation of this run from now on. */
    method Observe(id: string, o: Output)
      requires Valid()
      modifies this
      ensures Valid() && calls == old(calls) + [Observed(id, o)]
      ensures id in outputs && (forall k :: k in old(outputs) ==> k in outputs && outputs[k] == old(outputs[k]))
      ensures findings == old(findings) && byID == old(byID) && ruledOut == old(ruledOut)
    {
      hide Inv, Seeds;
      calls := calls + [Observed(id, o)];
      assert calls[..|calls| - 1] == old(calls);
      if id !in outputs { outputs := outputs[id := o]; }
    }

    /** The graded finding, or None with the store as it was. */
    method Report(c: Candidate) returns (r: Option<Finding>)
      requires Valid()
      modifies this
      ensures Valid() && calls == old(calls) + [ReportCall(c)]
      ensures r.None? <==> Validated(run, old(Contents()), c).None?
      ensures r.None? ==> Contents() == old(Contents())
      ensures r.Some? ==> c.id in byID && r.value == Graded(run.grader, findings[byID[c.id]])
      ensures outputs == old(outputs)
      ensures forall id :: id in old(byID) ==> id in byID && byID[id] == old(byID[id])
    {
      hide Validated, Inv, Graded, Merged;
      assert Inv(run, seeds, Contents());
      assert Indexed(Contents()) by { InvIndexed(run, seeds, Contents()); }
      calls := calls + [ReportCall(c)];
      assert calls[..|calls| - 1] == old(calls);
      var f := Validate(run, Contents(), c);
      if f == None { return None; }
      if f.value.id in byID {
        var i := byID[f.value.id];
        var merged := Merge(findings[i], f.value);
        findings := findings[i := merged];
        var graded, _ := Grade(run.grader, findings[i]);
        return Some(graded);
      }
      ruledOut := Without(ruledOut, f.value.id);
      byID := byID[f.value.id := |findings|];
      findings := findings + [f.value];
      var graded, _ := Grade(run.grader, f.value);
      return Some(graded);
    }

    method RuleOut(c: Candidate) returns (r: Option<RuledOut>)
      requires Valid()
      modifies this
      ensures Valid() && calls == old(calls) + [RuleOutCall(c)]
      ensures r.Some? <==> RuleOutFits(run, old(Contents()), c)
      ensures findings == old(findings) && byID == old(byID) && outputs == old(outputs)
      ensures r.None? ==> Contents() == old(Contents())
      ensures r.Some? ==> r.value in ruledOut && r.value.id == c.id
    {
      hide CustomID, HostID, EvidenceOf, TrimSpace, Inv, MergedRuling;
      assert Inv(run, seeds, Contents());
      assert Indexed(Contents()) by { InvIndexed(run, seeds, Contents()); }
      calls := calls + [RuleOutCall(c)];
      assert calls[..|calls| - 1] == old(calls);
      if HasPrefix(c.id, "custom:") {
        if !CustomID(c.id) { return None; }
      } else if !HostID(run, c.id) {
        return None;
      }
      if c.id in byID { return None; }
      var note := TrimSpace(c.note);
      if note == "" { return None; }
      var ev := CheckEvidence(outputs, c.evidence);
      if ev == None { return None; }
      for i := 0 to |ruledOut|
        invariant forall k :: 0 <= k < i ==> ruledOut[k].id != c.id
        invariant Contents() == old(Contents())
      {
        if ruledOut[i].id != c.id { continue; }
        var have := MergeRuling(ruledOut[i], note, ev.value);
        assert FirstRuledOut(ruledOut, c.id) == i;
        ruledOut := ruledOut[i := have];
        assert ruledOut[i] == have;
        return Some(have);
      }
      ruledOut := ruledOut + [RuledOut(c.id, note, ev.value)];
      assert ruledOut[|ruledOut| - 1].id == c.id;
      return Some(RuledOut(c.id, note, ev.value));
    }
  }

  lemma InvIndexed(e: Run, seeds: seq<Finding>, st: State)
    requires Inv(e, seeds, st)
    ensures Indexed(st)
  {
  }

  method MergeRuling(have: RuledOut, note: string, ev: seq<Evidence>) returns (r: RuledOut)
    ensures r == MergedRuling(have, note, ev) && r.id == have.id
  {
    var all := AppendEach(have.evidence, ev);
    r := RuledOut(have.id, have.note, all);
    if !Holds(have.note, note) { r := r.(note := have.note + " " + note); }
  }

  method Merge(have: Finding, found: Finding) returns (r: Finding)
    ensures r == Merged(have, found)
  {
    hide Holds;
    var all := AppendEach(have.evidence, found.evidence);
    r := have.(evidence := all);
    if found.note != "" && !Holds(have.note, found.note) {
      if have.note != "" { r := r.(note := r.note + " "); }
      r := r.(note := r.note + "model: " + found.note);
    }
    if have.service == None { r := r.(service := found.service); }
    if have.source == Model && ConfidenceRank(found.confidence) > ConfidenceRank(have.confidence) {
      r := r.(confidence := found.confidence);
    }
  }

  method Validate(e: Run, st: State, c: Candidate) returns (r: Option<Finding>)
    ensures r == Validated(e, st, c)
  {
    hide EvidenceOf, RuleAllows, HostID, CustomID;
    if c.confidence == None || |c.evidence| == 0 { return None; }
    var ev := CheckEvidence(st.outputs, c.evidence);
    if ev == None || !ServiceFits(c.service) { return None; }
    var f := Finding(c.id, c.title, "custom", Info, Info, [], Open, "", Model, c.confidence.value, e.platform, ev.value,
                     c.impact, if c.remediation.Some? then c.remediation.value else Remediation("", [], ""),
                     c.contextNote, ServiceOf(c.service), false, None);
    if HasPrefix(c.id, "custom:") {
      if !CustomID(c.id) || c.proposed == None || c.title == "" || c.impact == "" || !Said(c.remediation) { return None; }
      var s := if c.proposed.value.Rank() > Medium.Rank() then Medium else c.proposed.value;
      return Some(f.(base := s, severity := s, custom := true));
    }
    if !HostID(e, c.id) { return None; }
    HostKnown(e, c.id);
    var allowed := RuleAllowed(e, st.byID, c.id);
    if !allowed { return None; }
    var def := e.catalog[c.id];
    f := f.(title := def.title, category := def.category, base := def.base, severity := def.base, impact := def.impact, remediation := def.remediation);
    if c.impact != "" { f := f.(impact := c.impact); }
    if Said(c.remediation) { f := f.(remediation := c.remediation.value); }
    return Some(f);
  }

  lemma HostKnown(e: Run, id: string)
    requires HostID(e, id)
    ensures id in e.catalog
  {
  }

  /** disproved: a posture rule read the id on complete evidence and found it absent. */
  method IsDisproved(e: Run, id: string) returns (d: bool)
    ensures d <==> Disproved(e, id)
  {
    for i := 0 to |e.assessments|
      invariant forall k :: 0 <= k < i ==> e.assessments[k] != Assessment(id, Read(Rules.NotMatched))
    {
      if e.assessments[i].finding == id && e.assessments[i].reading == Read(Rules.NotMatched) {
        assert e.assessments[i] == Assessment(id, Read(Rules.NotMatched));
        return true;
      }
    }
    return false;
  }

  method RuleAllowed(e: Run, byID: map<string, nat>, id: string) returns (ok: bool)
    requires id in e.catalog
    ensures ok <==> RuleAllows(e, byID, id)
  {
    hide Disproved;
    var covered, applicable := false, false;
    for i := 0 to |e.rules|
      invariant covered <==> exists k :: 0 <= k < i && e.rules[k].finding == id
      invariant applicable <==> exists k :: 0 <= k < i && e.rules[k].finding == id && (e.rules[k].platform == ANY || e.rules[k].platform == e.platform)
    {
      if e.rules[i].finding == id {
        covered := true;
        if e.rules[i].platform == ANY || e.rules[i].platform == e.platform { applicable := true; }
      }
    }
    if covered && e.platform != "" && !applicable { return false; }
    if id !in byID {
      var own := IsDisproved(e, id);
      if own { return false; }
    }
    var premise := e.catalog[id].premise;
    for i := 0 to |premise|
      invariant forall k :: 0 <= k < i && premise[k] !in byID ==> !Disproved(e, premise[k])
    {
      if premise[i] in byID { continue; }
      var gone := IsDisproved(e, premise[i]);
      if gone {
        assert premise[i] in e.catalog[id].premise;
        return false;
      }
    }
    return true;
  }

  // ----- phase 1 -----

  /** A posture rule of this platform with what it read; the predicates are modelled in Rules and AccountJoin. */
  datatype Judged = Judged(finding: string, reading: Reading, evidence: seq<Evidence>)

  predicate Fires(e: map<string, Def>, j: Judged) { j.reading == Read(Rules.Matched) && j.finding in e }

  /** The finding is the catalog's, and its evidence is exactly what the fired rules of its id read. */
  ghost predicate Produced(catalog: map<string, Def>, js: seq<Judged>, f: Finding) {
    f.id in catalog && f.title == catalog[f.id].title && f.category == catalog[f.id].category && f.base == catalog[f.id].base &&
    f.impact == catalog[f.id].impact && f.remediation == catalog[f.id].remediation &&
    f.source == Rule && f.confidence == Sure && !f.custom && f.service == None && f.note == "" &&
    f.severity == f.base && f.adjustments == [] && f.status == Open && f.acceptedReason == "" && f.cappedBy == None &&
    (exists i :: 0 <= i < |js| && Fires(catalog, js[i]) && js[i].finding == f.id) &&
    forall ev :: ev in f.evidence <==> exists i :: 0 <= i < |js| && Fires(catalog, js[i]) && js[i].finding == f.id && ev in js[i].evidence
  }

  /** The findings so far, indexed, are the ones the first k rules produced. */
  ghost predicate Sheet(catalog: map<string, Def>, js: seq<Judged>, k: nat, findings: seq<Finding>, byID: map<string, nat>)
    requires k <= |js|
  {
    Indexed(State(findings, byID, [], map[])) &&
    (forall i :: 0 <= i < |findings| ==> Produced(catalog, js[..k], findings[i])) &&
    (forall id :: id in byID <==> FiredBefore(catalog, js, k, id))
  }

  lemma SheetSkips(catalog: map<string, Def>, js: seq<Judged>, k: nat, findings: seq<Finding>, byID: map<string, nat>)
    requires k < |js| && Sheet(catalog, js, k, findings, byID) && !Fires(catalog, js[k])
    ensures Sheet(catalog, js, k + 1, findings, byID)
  {
    hide Produced, Fires, Indexed;
    forall i | 0 <= i < |findings| { ProducedGrows(catalog, js, k, findings[i]); }
    forall id { FiredGrows(catalog, js, k, id); }
  }

  lemma SheetMerges(catalog: map<string, Def>, js: seq<Judged>, k: nat, findings: seq<Finding>, byID: map<string, nat>, i: nat, f: Finding)
    requires k < |js| && Sheet(catalog, js, k, findings, byID) && Fires(catalog, js[k])
    requires js[k].finding in byID && i == byID[js[k].finding] && i < |findings|
    requires f == findings[i].(evidence := AppendAll(findings[i].evidence, js[k].evidence))
    ensures Sheet(catalog, js, k + 1, findings[i := f], byID)
  {
    hide Produced, Fires;
    forall n | 0 <= n < |findings| { ProducedGrows(catalog, js, k, findings[n]); }
    forall id { FiredGrows(catalog, js, k, id); }
  }

  lemma SheetAdds(catalog: map<string, Def>, js: seq<Judged>, k: nat, findings: seq<Finding>, byID: map<string, nat>, f: Finding)
    requires k < |js| && Sheet(catalog, js, k, findings, byID) && Fires(catalog, js[k])
    requires js[k].finding !in byID && f.id == js[k].finding && Produced(catalog, js[..k + 1], f)
    ensures Sheet(catalog, js, k + 1, findings + [f], byID[f.id := |findings|])
  {
    hide Produced, Fires;
    forall n | 0 <= n < |findings| { ProducedGrows(catalog, js, k, findings[n]); }
    forall id { FiredGrows(catalog, js, k, id); }
  }

  /** The findings of phase 1: one per id a rule fired for, each with the catalog's text and the fired rules' evidence. */
  ghost predicate Evaluates(catalog: map<string, Def>, js: seq<Judged>, findings: seq<Finding>) {
    Seeds(findings) && (forall i :: 0 <= i < |findings| ==> Produced(catalog, js, findings[i])) &&
    (forall k :: 0 <= k < |js| && Fires(catalog, js[k]) ==> exists i :: 0 <= i < |findings| && findings[i].id == js[k].finding)
  }

  /** The gravest first, then by id. */
  function Gravity(a: Finding, b: Finding): int {
    if a.severity != b.severity then CompareInt(b.severity.Rank(), a.severity.Rank()) else Compare(a.id, b.id)
  }

  lemma GravityOrdered()
    ensures Ordered(Gravity)
  {
    hide Compare;
    forall a, b ensures Gravity(a, b) <= 0 || Gravity(b, a) <= 0 { CompareFlips(a.id, b.id); }
    forall a, b, c | Gravity(a, b) <= 0 && Gravity(b, c) <= 0 ensures Gravity(a, c) <= 0 {
      if Compare(a.id, b.id) <= 0 && Compare(b.id, c.id) <= 0 { CompareTransitive(a.id, b.id, c.id); }
    }
  }

  /** The severities never rise along the list, and findings of one severity are in the order of their ids. */
  ghost predicate GravestFirst(fs: seq<Finding>) {
    forall i, j :: 0 <= i < j < |fs| ==>
      fs[i].severity.Rank() >= fs[j].severity.Rank() &&
      (fs[i].severity == fs[j].severity ==> fs[i].id == fs[j].id || exists k: nat :: Precedes(fs[i].id, fs[j].id, k))
  }

  lemma GravityMeans(fs: seq<Finding>)
    requires Sorted(fs, Gravity)
    ensures GravestFirst(fs)
  {
    hide Sorted, Compare, Precedes;
    forall i, j | 0 <= i < j < |fs|
      ensures fs[i].severity.Rank() >= fs[j].severity.Rank() &&
        (fs[i].severity == fs[j].severity ==> fs[i].id == fs[j].id || exists k: nat :: Precedes(fs[i].id, fs[j].id, k))
    {
      SortedAt(fs, Gravity, i, j);
      CompareMeans(fs[i].id, fs[j].id);
      CompareZero(fs[i].id, fs[j].id);
    }
  }

  /** The order of the findings is not part of what they are. */
  lemma EvaluatesAnyOrder(catalog: map<string, Def>, js: seq<Judged>, a: seq<Finding>, b: seq<Finding>)
    requires Evaluates(catalog, js, a) && multiset(a) == multiset(b)
    ensures Evaluates(catalog, js, b)
  {
    hide Produced, Fires;
    assert forall f :: f in b <==> f in multiset(b);
    assert forall f :: f in a <==> f in multiset(a);
    forall i, j | 0 <= j < i < |b| ensures b[j].id != b[i].id {
      SeedOnce(a, b[i]);
      if b[j] == b[i] { Twice(b, j, i); }
      assert b[i] in a && b[j] in a;
    }
    forall k | 0 <= k < |js| && Fires(catalog, js[k]) ensures exists i :: 0 <= i < |b| && b[i].id == js[k].finding {
      var i :| 0 <= i < |a| && a[i].id == js[k].finding;
      assert a[i] in b;
    }
    forall i | 0 <= i < |b| ensures b[i].source == Rule && Produced(catalog, js, b[i]) { assert b[i] in a; }
  }

  lemma {:induction false} SeedOnce(s: seq<Finding>, f: Finding)
    requires Seeds(s)
    ensures multiset(s)[f] <= 1
  {
    if s != [] {
      var rest, last := s[..|s| - 1], s[|s| - 1];
      SeedOnce(rest, f);
      assert s == rest + [last];
      assert last !in rest;
    }
  }

  method Evaluate(catalog: map<string, Def>, platform: string, js: seq<Judged>) returns (findings: seq<Finding>, assessments: seq<Assessment>)
    ensures |assessments| == |js| && forall i :: 0 <= i < |js| ==> assessments[i] == Assessment(js[i].finding, js[i].reading)
    ensures Evaluates(catalog, js, findings) && GravestFirst(findings)
    ensures forall f :: f in findings ==> f.platform == platform
  {
    hide Produced, Sheet, Evaluates, Gravity;
    var byID: map<string, nat> := map[];
    findings, assessments := [], [];
    SheetStarts(catalog, js);
    for k := 0 to |js|
      invariant |assessments| == k && forall i :: 0 <= i < k ==> assessments[i] == Assessment(js[i].finding, js[i].reading)
      invariant Sheet(catalog, js, k, findings, byID)
      invariant forall i :: 0 <= i < |findings| ==> findings[i].platform == platform
    {
      var j := js[k];
      assessments := assessments + [Assessment(j.finding, j.reading)];
      if j.reading != Read(Rules.Matched) || j.finding !in catalog {
        SheetSkips(catalog, js, k, findings, byID);
        continue;
      }
      SheetIndexed(catalog, js, k, findings, byID);
      if j.finding in byID {
        var i := byID[j.finding];
        var all := AppendEach(findings[i].evidence, j.evidence);
        SheetMerges(catalog, js, k, findings, byID, i, findings[i].(evidence := all));
        findings := findings[i := findings[i].(evidence := all)];
        continue;
      }
      var def := catalog[j.finding];
      var f := Finding(j.finding, def.title, def.category, def.base, def.base, [], Open, "", Rule, Sure, platform, j.evidence,
                       def.impact, def.remediation, "", None, false, None);
      FirstProduced(catalog, js, k, f);
      SheetAdds(catalog, js, k, findings, byID, f);
      byID := byID[j.finding := |findings|];
      findings := findings + [f];
    }
    SheetEnds(catalog, js, findings, byID);
    GravityOrdered();
    SortSorted(findings, Gravity);
    EvaluatesAnyOrder(catalog, js, findings, Sort(findings, Gravity));
    GravityMeans(Sort(findings, Gravity));
    assert forall f :: f in Sort(findings, Gravity) <==> f in multiset(findings);
    findings := Sort(findings, Gravity);
  }

  lemma SheetStarts(catalog: map<string, Def>, js: seq<Judged>)
    ensures Sheet(catalog, js, 0, [], map[])
  {
  }

  lemma SheetIndexed(catalog: map<string, Def>, js: seq<Judged>, k: nat, findings: seq<Finding>, byID: map<string, nat>)
    requires k <= |js| && Sheet(catalog, js, k, findings, byID)
    ensures forall id :: id in byID ==> byID[id] < |findings|
    ensures forall id :: id in byID <==> FiredBefore(catalog, js, k, id)
  {
  }

  lemma SheetEnds(catalog: map<string, Def>, js: seq<Judged>, findings: seq<Finding>, byID: map<string, nat>)
    requires Sheet(catalog, js, |js|, findings, byID)
    ensures Evaluates(catalog, js, findings)
  {
    hide Fires;
    assert js[..|js|] == js;
    AllRule(catalog, js, findings);
    forall k | 0 <= k < |js| && Fires(catalog, js[k]) ensures exists i :: 0 <= i < |findings| && findings[i].id == js[k].finding {
      assert FiredBefore(catalog, js, |js|, js[k].finding);
    }
  }

  lemma AllRule(catalog: map<string, Def>, js: seq<Judged>, findings: seq<Finding>)
    requires forall i :: 0 <= i < |findings| ==> Produced(catalog, js, findings[i])
    ensures forall i :: 0 <= i < |findings| ==> findings[i].source == Rule
  {
  }

  ghost predicate FiredBefore(catalog: map<string, Def>, js: seq<Judged>, k: nat, id: string)
    requires k <= |js|
  {
    exists i :: 0 <= i < k && Fires(catalog, js[i]) && js[i].finding == id
  }

  lemma FiredGrows(catalog: map<string, Def>, js: seq<Judged>, k: nat, id: string)
    requires k < |js|
    ensures FiredBefore(catalog, js, k + 1, id) <==>
      (FiredBefore(catalog, js, k, id) || (Fires(catalog, js[k]) && js[k].finding == id))
  {
    hide Fires;
  }

  /** One more rule: a finding it does not name, or names without firing, stands; one it fires for takes its evidence. */
  lemma ProducedGrows(catalog: map<string, Def>, js: seq<Judged>, k: nat, f: Finding)
    requires k < |js| && Produced(catalog, js[..k], f)
    ensures !Fires(catalog, js[k]) || js[k].finding != f.id ==> Produced(catalog, js[..k + 1], f)
    ensures Fires(catalog, js[k]) && js[k].finding == f.id ==>
      Produced(catalog, js[..k + 1], f.(evidence := AppendAll(f.evidence, js[k].evidence)))
  {
    hide Fires;
    var a, b := js[..k], js[..k + 1];
    assert forall i :: 0 <= i < k ==> b[i] == a[i];
    assert b[k] == js[k];
  }

  lemma FirstProduced(catalog: map<string, Def>, js: seq<Judged>, k: nat, f: Finding)
    requires k < |js| && Fires(catalog, js[k]) && f.id == js[k].finding && f.evidence == js[k].evidence
    requires !FiredBefore(catalog, js, k, f.id)
    requires f.title == catalog[f.id].title && f.category == catalog[f.id].category && f.base == catalog[f.id].base
    requires f.impact == catalog[f.id].impact && f.remediation == catalog[f.id].remediation
    requires f.source == Rule && f.confidence == Sure && !f.custom && f.service == None && f.note == ""
    requires f.severity == f.base && f.adjustments == [] && f.status == Open && f.acceptedReason == "" && f.cappedBy == None
    ensures Produced(catalog, js[..k + 1], f)
  {
    var b := js[..k + 1];
    assert b[k] == js[k];
    assert forall i :: 0 <= i < k ==> b[i] == js[i];
  }
}
