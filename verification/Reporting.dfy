/** Exactly which reports and rulings the store takes, said on their own fields (store.go). */
module Reporting {
  import opened Options
  import opened Grading
  import opened Text
  import opened Captures
  import opened FindingStore

  /** The words of the excerpt stand in the output, in one piece, whatever blanks are between them. */
  ghost predicate Quotes(excerpt: string, output: string) {
    JoinWords(Fields(excerpt)) != "" && exists a, b :: JoinWords(Fields(output)) == a + JoinWords(Fields(excerpt)) + b
  }

  /** An entry a report may cite: a successful observation of this run, under its own check, that holds the excerpt. */
  ghost predicate Cites(outs: map<string, Output>, ev: Evidence) {
    ev.observation != "" && TrimSpace(ev.excerpt) != "" && ev.observation in outs && outs[ev.observation].ok &&
    (ev.check == "" || ev.check == outs[ev.observation].check) && Quotes(ev.excerpt, outs[ev.observation].raw)
  }

  /** custom: and a slug of 3 to 64 letters, digits, underscores and hyphens, a letter or digit first. */
  ghost predicate Slug(id: string) {
    exists s :: id == "custom:" + s && 3 <= |s| <= 64 && s[0] !in "_-" &&
      forall i :: 0 <= i < |s| ==> 'a' <= s[i] <= 'z' || '0' <= s[i] <= '9' || s[i] in "_-"
  }

  predicate Listener(s: Option<ServiceRef>) {
    s.Some? ==> 1 <= s.value.port <= 65535 && (Lower(s.value.proto) == "" || Lower(s.value.proto) == "tcp" || Lower(s.value.proto) == "udp")
  }

  /** A rule read complete evidence for the id and found it absent. */
  ghost predicate SpokenAgainst(e: Run, id: string) {
    exists i :: 0 <= i < |e.assessments| && e.assessments[i].finding == id && e.assessments[i].reading == Read(Rules.NotMatched)
  }

  /** No rule covers the id, the platform is not known, or one of its rules is for this platform. */
  ghost predicate OnPlatform(e: Run, id: string) {
    e.platform == "" || (forall r :: r in e.rules ==> r.finding != id) ||
    exists r :: r in e.rules && r.finding == id && (r.platform == "any" || r.platform == e.platform)
  }

  /** A catalog id the model may report. */
  ghost predicate Reportable(e: Run, st: State, id: string) {
    id in e.catalog && e.catalog[id].hosts && !e.catalog[id].multiFact && OnPlatform(e, id) &&
    (id in st.byID || !SpokenAgainst(e, id)) && forall p :: p in e.catalog[id].premise ==> p in st.byID || !SpokenAgainst(e, p)
  }

  lemma QuotesIs(excerpt: string, output: string)
    ensures ExcerptIn(excerpt, output) <==> Quotes(excerpt, output)
  {
    hide JoinWords, Fields;
    var s, sub := JoinWords(Fields(output)), JoinWords(Fields(excerpt));
    if Holds(s, sub) {
      var i: nat :| i <= |s| && HoldsAt(s, sub, i);
      assert s == s[..i] + sub + s[i + |sub|..];
    }
    if a, b :| s == a + sub + b { assert HoldsAt(s, sub, |a|); }
  }

  lemma SlugIs(id: string)
    ensures CustomID(id) <==> Slug(id)
  {
    if CustomID(id) {
      var s := id[7..];
      assert id == "custom:" + s;
    }
    if s :| id == "custom:" + s && 3 <= |s| <= 64 && s[0] !in "_-" && forall i :: 0 <= i < |s| ==> 'a' <= s[i] <= 'z' || '0' <= s[i] <= '9' || s[i] in "_-" {
      assert forall i :: 7 <= i < |id| ==> id[i] == s[i - 7];
    }
  }

  lemma CitesIs(outs: map<string, Output>, entries: seq<Evidence>)
    ensures EvidenceOf(outs, entries).Some? <==> forall i :: 0 <= i < |entries| ==> Cites(outs, entries[i])
  {
    hide EvidenceOf, ExcerptIn, Quotes, TrimSpace;
    forall i | 0 <= i < |entries| ensures Citable(outs, entries[i]) <==> Cites(outs, entries[i]) {
      var ev := entries[i];
      if ev.observation in outs { QuotesIs(ev.excerpt, outs[ev.observation].raw); }
    }
  }

  lemma ReportableIs(e: Run, st: State, id: string)
    ensures HostID(e, id) && RuleAllows(e, st.byID, id) <==> Reportable(e, st, id)
  {
    forall x ensures Disproved(e, x) <==> SpokenAgainst(e, x) { AgainstIs(e, x); }
    ApplicableIs(e, id);
    hide Disproved, SpokenAgainst, Applicable, OnPlatform;
  }

  lemma AgainstIs(e: Run, id: string)
    ensures Disproved(e, id) <==> SpokenAgainst(e, id)
  {
    if i :| 0 <= i < |e.assessments| && e.assessments[i].finding == id && e.assessments[i].reading == Read(Rules.NotMatched) {
      assert e.assessments[i] == Assessment(id, Read(Rules.NotMatched));
    }
  }

  lemma ApplicableIs(e: Run, id: string)
    ensures Applicable(e, id) <==> OnPlatform(e, id)
  {
    if r :| r in e.rules && r.finding == id && (r.platform == "any" || r.platform == e.platform) {
      var i :| 0 <= i < |e.rules| && e.rules[i] == r;
    }
    if forall i :: 0 <= i < |e.rules| ==> e.rules[i].finding != id { assert forall r :: r in e.rules ==> r.finding != id; }
  }

  /** A report is taken exactly when it is confident, cites this run, names a listener if any, and is a custom finding told in full or a catalog id nothing speaks against. */
  lemma ReportTakenExactly(e: Run, st: State, c: Candidate)
    ensures Validated(e, st, c).Some? <==>
      c.confidence.Some? && c.evidence != [] && (forall i :: 0 <= i < |c.evidence| ==> Cites(st.outputs, c.evidence[i])) && Listener(c.service) &&
      if HasPrefix(c.id, "custom:") then
        Slug(c.id) && c.proposed.Some? && c.title != "" && c.impact != "" && c.remediation.Some? && c.remediation.value.summary != ""
      else Reportable(e, st, c.id)
  {
    CitesIs(st.outputs, c.evidence);
    SlugIs(c.id);
    ReportableIs(e, st, c.id);
    assert ServiceFits(c.service) <==> Listener(c.service);
    hide EvidenceOf, Cites, CustomID, Slug, HostID, RuleAllows, Reportable, ServiceFits, Listener;
  }

  predicate OwnText(c: Candidate, f: Finding) {
    f.title == c.title && f.category == "custom" && f.impact == c.impact && Some(f.remediation) == c.remediation && c.proposed.Some? &&
    f.base.Rank() == if c.proposed.value.Rank() > 2 then 2 else c.proposed.value.Rank()
  }

  predicate CatalogText(d: Def, c: Candidate, f: Finding) {
    f.title == d.title && f.category == d.category && f.base == d.base && f.impact == (if c.impact != "" then c.impact else d.impact) &&
    f.remediation == if c.remediation.Some? && c.remediation.value.summary != "" then c.remediation.value else d.remediation
  }

  /** What a taken report is stored as: the catalog's title, category and severity, or the model's own, at most medium; the model's text where it gave some. */
  lemma TakenAs(e: Run, st: State, c: Candidate)
    requires Validated(e, st, c).Some?
    ensures var f := Validated(e, st, c).value; var own := HasPrefix(c.id, "custom:");
      f.id == c.id && f.source == Model && f.status == Open && f.confidence == c.confidence.value && f.platform == e.platform && f.note == c.contextNote &&
      f.custom == own && f.severity == f.base && f.adjustments == [] && Some(f.evidence) == EvidenceOf(st.outputs, c.evidence) &&
      (f.service == if c.service.None? then None else Some(ServiceRef(c.service.value.port, if c.service.value.proto == "" then "tcp" else Lower(c.service.value.proto)))) &&
      if own then OwnText(c, f) else c.id in e.catalog && CatalogText(e.catalog[c.id], c, f)
  {
    hide EvidenceOf, CustomID, RuleAllows, ServiceFits;
  }

  /** A ruling is taken exactly when the id is one the model may speak of and is no finding, its note says why, and it cites this run. */
  lemma RulingTakenExactly(e: Run, st: State, c: Candidate)
    ensures RuleOutFits(e, st, c) <==>
      (if HasPrefix(c.id, "custom:") then Slug(c.id) else c.id in e.catalog && e.catalog[c.id].hosts && !e.catalog[c.id].multiFact) &&
      c.id !in st.byID && TrimSpace(c.note) != "" && forall i :: 0 <= i < |c.evidence| ==> Cites(st.outputs, c.evidence[i])
  {
    CitesIs(st.outputs, c.evidence);
    SlugIs(c.id);
    hide EvidenceOf, Cites, CustomID, Slug, TrimSpace;
  }

  /** Each entry is stored trimmed, under the check that was run, once, in order. */
  lemma {:induction false} StoredAs(outs: map<string, Output>, entries: seq<Evidence>)
    requires EvidenceOf(outs, entries).Some?
    ensures forall ev :: ev in EvidenceOf(outs, entries).value <==>
      exists i :: 0 <= i < |entries| && entries[i].observation in outs && ev == Evidence(entries[i].observation, outs[entries[i].observation].check, TrimSpace(entries[i].excerpt))
  {
    hide TrimSpace, ExcerptIn;
    if entries != [] {
      StoredAs(outs, entries[..|entries| - 1]);
      assert entries == entries[..|entries| - 1] + [entries[|entries| - 1]];
    }
  }

  /** A model finding keeps the surer of two confidences; a rule's stays its own. */
  lemma MergedConfidence(have: Finding, found: Finding)
    ensures Merged(have, found).confidence ==
      if have.source == Rule then have.confidence
      else if have.confidence == Sure || found.confidence == Sure then Sure
      else if have.confidence == Likely || found.confidence == Likely then Likely else Unsure
  {
    hide AppendAll, Holds;
  }

  /** What a merge leaves: the evidence of both, the first listener named, and all else but note and confidence as it was. */
  lemma MergedKeeps(have: Finding, found: Finding)
    ensures var f := Merged(have, found);
      have.evidence <= f.evidence && (forall ev :: ev in f.evidence <==> ev in have.evidence || ev in found.evidence) &&
      (f.service == if have.service.Some? then have.service else found.service) &&
      f == have.(evidence := f.evidence, note := f.note, service := f.service, confidence := f.confidence)
  {
    hide AppendAll, Holds;
  }

  /** The note with the report's said in it: where it was already, or at the end, marked as the model's. */
  lemma MergedNote(have: Finding, found: Finding)
    ensures var note := Merged(have, found).note;
      if found.note == "" || Holds(have.note, found.note) then note == have.note
      else exists gap :: (gap == "" || gap == " ") && (gap == "" <==> have.note == "") && note == have.note + gap + "model: " + found.note
  {
    hide AppendAll, Holds;
    var gap := if have.note == "" then "" else " ";
    assert have.note == "" ==> have.note + gap + "model: " + found.note == "model: " + found.note;
  }
}
