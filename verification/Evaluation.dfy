/** A posture rule from the fact sheet to its reading, and what completing the sheet's cut captures does to it (evaluate.go). */
module Evaluation {
  import opened Options
  import opened Captures
  import opened Rules
  import opened CutCaptures
  import opened AccountJoin
  import opened Grading
  import FS = FindingStore

  /** What a check printed: the text kept and, when the rest was cut, the mark the cut wrote after it. */
  datatype Capture = Capture(text: string, mark: Option<string>) {
    function Raw(): string { if mark.None? then text else text + "\n" + mark.value }
  }

  /** A check's fact on the sheet: its capture, or why there is none. */
  datatype Fact = Ok(capture: Capture) | Denied(code: string) | Unavailable(code: string)

  type Sheet = map<string, Fact>

  /** What a rule asks of its check's capture; a regular expression is a test, a typed shape a reading of one line. */
  datatype When =
    | WhenKey(p: Equals)
    | WhenRaw(required: Option<string -> bool>, re: string -> bool)
    | WhenLine(re: string -> bool)
    | WhenField(p: Equals, row: string -> Row)
    | WhenAny(row: string -> Row)
    | WhenJoin(p: Equals)

  /** with is the second check of a joining rule, "" when there is none. */
  datatype PostureRule = PostureRule(finding: string, check: string, with: string, cond: When)

  datatype Outcome = NotInCatalog | Judged(verdict: Verdict)

  // ----- the predicates, on a capture -----

  function RawMatch(required: Option<string -> bool>, re: string -> bool, raw: string): Verdict {
    var line := FS.JoinWords(Fields(raw));
    if HasMarker(raw) then Verdict(NotAssessed, "value-redacted-or-truncated")
    else if required.Some? && !required.value(line) then Verdict(NotAssessed, "unrecognized-state")
    else if re(line) then Verdict(Matched, "recognized-matching-state")
    else Verdict(NotMatched, "recognized-other-state")
  }

  function LineVerdict(re: string -> bool, lines: seq<string>): Verdict {
    if SomeLine(re, lines) then Verdict(Matched, "matching-line")
    else if NoLine(re, lines) then Verdict(NotMatched, "no-matching-line")
    else Verdict(NotAssessed, "partial-output")
  }

  function FieldVerdict(p: Equals, recs: Records): Verdict {
    if SomeRecord(p, recs) then Verdict(Matched, "recognized-matching-record")
    else if NoRecordHits(p, recs) then Verdict(NotMatched, "no-matching-record")
    else Verdict(NotAssessed, if recs.partial then "partial-output" else "unrecognized-value")
  }

  function JoinVerdict(p: Equals, recs: Records, shells: Option<Records>): Verdict {
    if recs.items == [] then Verdict(NotAssessed, "no-records")
    else if SomeFires(p, recs, shells) then Verdict(Matched, "recognized-matching-record-with-login-shell")
    else if recs.partial then Verdict(NotAssessed, "partial-output")
    else if UndecidedOutcomes(p, recs.items) != [] then Verdict(NotAssessed, "unrecognized-value")
    else if AllRefuse(p, recs, shells) then
      Verdict(NotMatched, if Candidates(p, recs.items) != [] then "matching-records-refuse-login" else "no-matching-record")
    else Verdict(NotAssessed, LastReason(Answers(shells, Candidates(p, recs.items))))
  }

  /** The code's loops compute these verdicts. */
  method Eval(cond: When, raw: string, with: Option<string>) returns (v: Verdict)
    ensures v == VerdictOf(cond, raw, Shells(with))
  {
    hide KeyEquals, KV, Lines, FirstValues, RawMatch, LineVerdict, FieldVerdict, AnyRecord, JoinVerdict, Typed, Shells;
    match cond {
      case WhenKey(p) => v := EvalKey(p, raw);
      case WhenRaw(required, re) => v := EvalRaw(required, re, raw);
      case WhenLine(re) => v := EvalLine(re, raw);
      case WhenField(p, row) => v := EvalField(p, row, raw);
      case WhenAny(row) => v := EvalAny(row, raw);
      case WhenJoin(p) => v := EvalJoin(p, raw, with);
    }
  }

  method EvalKey(p: Equals, raw: string) returns (v: Verdict)
    ensures v == KeyVerdict(p, raw)
  {
    hide KV, Lines, FirstValues, HasMarker, TrimSpace, Known;
    var kv := ParseKV(raw);
    if p.field !in kv { return Verdict(NotAssessed, "key-absent"); }
    var got := kv[p.field];
    if HasMarker(got) { return Verdict(NotAssessed, "value-redacted-or-truncated"); }
    got := Text.Lower(TrimSpace(got));
    if got == Text.Lower(p.value) { return Verdict(Matched, "recognized-matching-value"); }
    if Known(got, p.known) { return Verdict(NotMatched, "recognized-other-value"); }
    return Verdict(NotAssessed, "unrecognized-value");
  }

  method EvalRaw(required: Option<string -> bool>, re: string -> bool, raw: string) returns (v: Verdict)
    ensures v == RawMatch(required, re, raw)
  {
    hide HasMarker, FS.JoinWords, Fields;
    if HasMarker(raw) { return Verdict(NotAssessed, "value-redacted-or-truncated"); }
    var line := FS.JoinWords(Fields(raw));
    if required.Some? {
      if !required.value(line) { return Verdict(NotAssessed, "unrecognized-state"); }
    }
    if re(line) { return Verdict(Matched, "recognized-matching-state"); }
    return Verdict(NotMatched, "recognized-other-state");
  }

  method EvalAny(row: string -> Row, raw: string) returns (v: Verdict)
    ensures v == AnyRecord(Some(Typed(row, raw)))
  {
    hide Typed;
    var recs := ParseRecords(row, raw);
    if recs.items != [] { return Verdict(Matched, "records-present"); }
    if recs.partial { return Verdict(NotAssessed, "partial-output"); }
    return Verdict(NotMatched, "no-records");
  }

  method EvalLine(re: string -> bool, raw: string) returns (v: Verdict)
    ensures v == LineVerdict(re, Lines(raw))
  {
    hide Lines, SomeLine, NoLine;
    var lines := ParseLines(raw);
    v := AnyLine(re, Some(lines));
  }

  method EvalField(p: Equals, row: string -> Row, raw: string) returns (v: Verdict)
    ensures v == FieldVerdict(p, Typed(row, raw))
  {
    hide Typed, SomeRecord, NoRecordHits;
    var recs := ParseRecords(row, raw);
    v := FieldEquals(p, Some(recs));
  }

  method EvalJoin(p: Equals, raw: string, with: Option<string>) returns (v: Verdict)
    ensures v == JoinVerdict(p, Typed(StatusRow, raw), Shells(with))
  {
    hide Typed, SomeFires, AllRefuse, UndecidedOutcomes, Candidates, Answers, LastReason;
    var recs := ParseRecords(StatusRow, raw);
    var shells: Option<Records> := None;
    if with.Some? {
      var accounts := ParseRecords(AccountRow, with.value);
      shells := Some(accounts);
    }
    Combined(p, recs, shells, Candidates(p, recs.items));
    var outcomes, decided := Decide(p, Some(recs), shells);
    v := decided;
  }

  function Shells(with: Option<string>): Option<Records> {
    if with.Some? then Some(Typed(AccountRow, with.value)) else None
  }

  function VerdictOf(cond: When, raw: string, shells: Option<Records>): Verdict {
    match cond
    case WhenKey(p) => KeyVerdict(p, raw)
    case WhenRaw(required, re) => RawMatch(required, re, raw)
    case WhenLine(re) => LineVerdict(re, Lines(raw))
    case WhenField(p, row) => FieldVerdict(p, Typed(row, raw))
    case WhenAny(row) => AnyRecord(Some(Typed(row, raw)))
    case WhenJoin(p) => JoinVerdict(p, Typed(StatusRow, raw), shells)
  }

  // ----- one rule on the sheet -----

  datatype Use = Usable(capture: Capture) | Unusable(why: string)

  function Code(code: string): string { if code != "" then code else "unknown" }

  /** usable: a check's capture, or why it gave no fact a rule can read. */
  function UseOf(id: string, disabled: set<string>, sheet: Sheet): Use {
    if id in disabled then Unusable("check-disabled-by-config")
    else if id !in sheet then Unusable("check-not-run")
    else match sheet[id]
      case Denied(code) => Unusable("check-denied:" + Code(code))
      case Unavailable(code) => Unusable("check-unavailable:" + Code(code))
      case Ok(capture) => Usable(capture)
  }

  /** The shells a rule reads: None without a second check, or when that gave no usable fact. */
  function ShellsOf(rule: PostureRule, disabled: set<string>, sheet: Sheet): Option<Records> {
    if rule.with == "" then None
    else match UseOf(rule.with, disabled, sheet)
      case Unusable(_) => None
      case Usable(c) => Some(Typed(AccountRow, c.Raw()))
  }

  /** evalRule: applicability first, then the fact, then the predicate; applies are the checks of this platform's catalog. */
  function EvalRule(rule: PostureRule, applies: set<string>, disabled: set<string>, sheet: Sheet): Outcome {
    if rule.check !in applies then NotInCatalog
    else match UseOf(rule.check, disabled, sheet)
      case Unusable(why) => Judged(Verdict(NotAssessed, why))
      case Usable(c) =>
        if rule.with == "" then Judged(VerdictOf(rule.cond, c.Raw(), None))
        else if !rule.cond.WhenJoin? then Judged(Verdict(NotAssessed, "rule-with-check-needs-join-predicate"))
        else
          var v := VerdictOf(rule.cond, c.Raw(), ShellsOf(rule, disabled, sheet));
          match UseOf(rule.with, disabled, sheet)
          case Usable(_) => Judged(v)
          case Unusable(why) => Judged(if v == Verdict(NotAssessed, "with-unread") then Verdict(NotAssessed, "with-" + why) else v)
  }

  /** usable, step by step. */
  method FindUse(id: string, disabled: set<string>, sheet: Sheet) returns (u: Use)
    ensures u == UseOf(id, disabled, sheet)
  {
    if id in disabled { return Unusable("check-disabled-by-config"); }
    if id !in sheet { return Unusable("check-not-run"); }
    match sheet[id] {
      case Denied(code) => return Unusable("check-denied:" + if code == "" then "unknown" else code);
      case Unavailable(code) => return Unusable("check-unavailable:" + if code == "" then "unknown" else code);
      case Ok(capture) => return Usable(capture);
    }
  }

  method EvaluateRule(rule: PostureRule, applies: set<string>, disabled: set<string>, sheet: Sheet) returns (o: Outcome)
    ensures o == EvalRule(rule, applies, disabled, sheet)
  {
    hide VerdictOf, UseOf, Typed;
    if rule.check !in applies { return NotInCatalog; }
    var r := FindUse(rule.check, disabled, sheet);
    if r.Unusable? { return Judged(Verdict(NotAssessed, r.why)); }
    if rule.with == "" {
      var v := Eval(rule.cond, r.capture.Raw(), None);
      return Judged(v);
    }
    if !rule.cond.WhenJoin? { return Judged(Verdict(NotAssessed, "rule-with-check-needs-join-predicate")); }
    var w := FindUse(rule.with, disabled, sheet);
    if w.Usable? {
      var v := Eval(rule.cond, r.capture.Raw(), Some(w.capture.Raw()));
      return Judged(v);
    }
    var v := Eval(rule.cond, r.capture.Raw(), None);
    if v.status == NotAssessed && v.reason == "with-unread" { v := v.(reason := "with-" + w.why); }
    return Judged(v);
  }

  function ReadingOf(o: Outcome): FS.Reading { if o.Judged? then FS.Read(o.verdict.status) else FS.NotApplicable }

  predicate Fires(rule: PostureRule, applies: set<string>, disabled: set<string>, sheet: Sheet) {
    ReadingOf(EvalRule(rule, applies, disabled, sheet)) == FS.Read(Matched)
  }

  /** A rule fires exactly when its check applies, gave a capture, and the predicate matches it. */
  lemma FiresIs(rule: PostureRule, applies: set<string>, disabled: set<string>, sheet: Sheet)
    ensures Fires(rule, applies, disabled, sheet) <==>
      (rule.check in applies && UseOf(rule.check, disabled, sheet).Usable? && (rule.with != "" ==> rule.cond.WhenJoin?) &&
       VerdictOf(rule.cond, UseOf(rule.check, disabled, sheet).capture.Raw(), ShellsOf(rule, disabled, sheet)).status == Matched)
  {
    hide VerdictOf, UseOf;
  }

  // ----- one capture, cut at any byte -----

  predicate FiresFor(p: Equals, shells: Option<Records>, r: Record) { Candidate(p, r) && Answer(shells, NameOf(r)).status == Matched }

  function FiringRecord(p: Equals, shells: Option<Records>): Record -> bool { r => FiresFor(p, shells, r) }

  function FireTest(p: Equals, shells: Option<Records>): string -> bool { RowTest(StatusRow, FiringRecord(p, shells)) }

  lemma SomeFiresIs(p: Equals, raw: string, shells: Option<Records>)
    ensures SomeFires(p, Typed(StatusRow, raw), shells) <==> Shown(FireTest(p, shells), Lines(raw))
  {
    hide RecordsOf, Shown, Candidate, Answer, NameOf, Lines;
    SomeRowIs(StatusRow, FiringRecord(p, shells), Lines(raw));
    var items := RecordsOf(StatusRow, Lines(raw));
    assert forall k :: 0 <= k < |items| ==> FiringRecord(p, shells)(items[k]) == FiresFor(p, shells, items[k]);
  }

  /** What the kept text must show for the match to be everyone's, which a caller can check on it. */
  ghost predicate FirmText(cond: When, t: string, shells: Option<Records>) {
    match cond
    case WhenKey(p) => FirstValue(WholeLines(t), p.field).Pair?
    case WhenRaw(_, _) => true
    case WhenLine(re) => Firm(HitTest(re), t)
    case WhenField(p, row) => Firm(FieldTest(p, row), t)
    case WhenAny(row) => Firm(RecordTest(row), t)
    case WhenJoin(p) => Firm(FireTest(p, shells), t)
  }

  lemma CutMarked(t: string, mark: string)
    requires CutMark(mark)
    ensures HasMarker(t + "\n" + mark)
  {
    var s, m := t + "\n" + mark, "[TRUNCATED:";
    assert s[|t| + 1..] == mark;
    assert s[|t| + 1..|t| + 1 + |m|] == mark[..|m|] == m;
    assert HoldsAt(s, m, |t| + 1);
  }

  lemma CutRaw(required: Option<string -> bool>, re: string -> bool, t: string, mark: string)
    requires CutMark(mark)
    ensures RawMatch(required, re, t + "\n" + mark).status == NotAssessed
  {
    CutMarked(t, mark);
    hide HasMarker;
  }

  lemma KeyMatched(p: Equals, a: string, b: string)
    requires KeyVerdict(p, a).status == Matched
    ensures KeyVerdict(p, b).status == Matched <==> KeyVerdict(p, b) == KeyVerdict(p, a)
  {
    hide KV, Lines, HasMarker, TrimSpace, Known;
  }

  lemma KeyExactly(p: Equals, t: string, mark: string)
    requires CutMark(mark) && KeyVerdict(p, t + "\n" + mark).status == Matched
    ensures (forall rest :: KeyVerdict(p, t + rest).status == Matched) <==> FirstValue(WholeLines(t), p.field).Pair?
  {
    hide KeyVerdict, FirstValue, WholeLines, CutMark;
    CutVerdictExactly(p, t, mark);
    forall rest ensures KeyVerdict(p, t + rest).status == Matched <==> KeyVerdict(p, t + rest) == KeyVerdict(p, t + "\n" + mark) {
      KeyMatched(p, t + "\n" + mark, t + rest);
    }
    if forall rest :: KeyVerdict(p, t + rest).status == Matched {
      forall rest ensures KeyVerdict(p, t + rest) == KeyVerdict(p, t + "\n" + mark) { assert KeyVerdict(p, t + rest).status == Matched; }
    }
    if forall rest :: KeyVerdict(p, t + rest) == KeyVerdict(p, t + "\n" + mark) {
      forall rest ensures KeyVerdict(p, t + rest).status == Matched { assert KeyVerdict(p, t + rest) == KeyVerdict(p, t + "\n" + mark); }
    }
  }

  /** The line a predicate looks for, as a test of one line; key and raw predicates look for none. */
  function TestOf(cond: When, shells: Option<Records>): string -> bool
    requires !cond.WhenKey? && !cond.WhenRaw?
  {
    match cond
    case WhenLine(re) => HitTest(re)
    case WhenField(p, row) => FieldTest(p, row)
    case WhenAny(row) => RecordTest(row)
    case WhenJoin(p) => FireTest(p, shells)
  }

  lemma LineMatchedIs(re: string -> bool, raw: string)
    ensures LineVerdict(re, Lines(raw)).status == Matched <==> Shown(HitTest(re), Lines(raw))
  {
    hide Lines, SomeLine, NoLine, Shown;
    SomeLineIs(re, Lines(raw));
  }

  lemma FieldMatchedIs(p: Equals, row: string -> Row, raw: string)
    ensures FieldVerdict(p, Typed(row, raw)).status == Matched <==> Shown(FieldTest(p, row), Lines(raw))
  {
    hide Lines, RecordsOf, SomeRecord, NoRecordHits, Shown, Loses, FieldTest;
    SomeRecordIs(p, row, Lines(raw), Typed(row, raw).partial);
  }

  lemma AnyMatchedIs(row: string -> Row, raw: string)
    ensures AnyRecord(Some(Typed(row, raw))).status == Matched <==> Shown(RecordTest(row), Lines(raw))
  {
    hide Lines, RecordsOf, Shown, Loses, RecordTest;
    AnyRecordIs(row, Lines(raw));
  }

  lemma JoinMatchedIs(p: Equals, raw: string, shells: Option<Records>)
    ensures JoinVerdict(p, Typed(StatusRow, raw), shells).status == Matched <==> Shown(FireTest(p, shells), Lines(raw))
  {
    hide Typed, Lines, SomeFires, AllRefuse, UndecidedOutcomes, Candidates, Answers, LastReason, Shown, FireTest;
    SomeFiresIs(p, raw, shells);
    FiresSomewhere(p, Typed(StatusRow, raw), shells);
  }

  /** Those predicates match a capture exactly when a line of it passes. */
  lemma MatchedIs(cond: When, raw: string, shells: Option<Records>)
    requires !cond.WhenKey? && !cond.WhenRaw?
    ensures VerdictOf(cond, raw, shells).status == Matched <==> Shown(TestOf(cond, shells), Lines(raw))
  {
    hide LineVerdict, FieldVerdict, AnyRecord, JoinVerdict, Lines, Typed, Shown, HitTest, FieldTest, RecordTest, FireTest;
    match cond
    case WhenLine(re) => LineMatchedIs(re, raw);
    case WhenField(p, row) => FieldMatchedIs(p, row, raw);
    case WhenAny(row) => AnyMatchedIs(row, raw);
    case WhenJoin(p) => JoinMatchedIs(p, raw, shells);
  }

  lemma FiresSomewhere(p: Equals, recs: Records, shells: Option<Records>)
    ensures SomeFires(p, recs, shells) ==> recs.items != []
  {
    hide Candidate, Answer, NameOf;
  }

  /**
   * Exactly when a match on a capture cut at any byte is a match on every text the kept text may be the start of, for every
   * predicate.
   */
  lemma MatchExactly(cond: When, t: string, mark: string, shells: Option<Records>)
    requires CutMark(mark) && VerdictOf(cond, t + "\n" + mark, shells).status == Matched
    ensures (forall rest :: VerdictOf(cond, t + rest, shells).status == Matched) <==> FirmText(cond, t, shells)
  {
    hide KeyVerdict, RawMatch, LineVerdict, FieldVerdict, AnyRecord, JoinVerdict, Lines, Typed, CutMark, FirstValue, WholeLines, Firm, Shown, HitTest, FieldTest, RecordTest, FireTest;
    match cond
    case WhenKey(p) => KeyExactly(p, t, mark);
    case WhenRaw(required, re) => CutRaw(required, re, t, mark);
    case _ =>
      var test := TestOf(cond, shells);
      ContinuedExactly(test, t);
      forall rest ensures VerdictOf(cond, t + rest, shells).status == Matched <==> Shown(test, Lines(t + rest)) {
        MatchedIs(cond, t + rest, shells);
      }
      if forall rest :: VerdictOf(cond, t + rest, shells).status == Matched {
        forall rest ensures Shown(test, Lines(t + rest)) { assert VerdictOf(cond, t + rest, shells).status == Matched; }
      }
  }

  /** At a line end every match stands, whatever follows that line. */
  lemma MatchAtLineEnd(cond: When, t: string, mark: string, rest: string, shells: Option<Records>)
    requires CutMark(mark) && VerdictOf(cond, t + "\n" + mark, shells).status == Matched && (rest == "" || rest[0] == '\n')
    ensures VerdictOf(cond, t + rest, shells).status == Matched
  {
    hide KeyVerdict, RawMatch, LineVerdict, FieldVerdict, AnyRecord, JoinVerdict, Lines, Typed, CutMark, Shown, HitTest, FieldTest, RecordTest, FireTest;
    var more := if rest == "" then "" else rest[1..];
    assert rest == "" || rest == "\n" + more;
    match cond
    case WhenKey(p) => KeyAtLineEnd(p, t, mark, rest);
    case WhenRaw(required, re) => CutRaw(required, re, t, mark);
    case _ =>
      MatchedIs(cond, t + "\n" + mark, shells);
      MatchedIs(cond, t + rest, shells);
      MarkFails(cond, mark, shells);
      ShownAtLineEnd(TestOf(cond, shells), t, mark, rest);
  }

  lemma KeyAtLineEnd(p: Equals, t: string, mark: string, rest: string)
    requires CutMark(mark) && KeyVerdict(p, t + "\n" + mark).status != NotAssessed && (rest == "" || rest[0] == '\n')
    ensures KeyVerdict(p, t + rest) == KeyVerdict(p, t + "\n" + mark)
  {
    hide *;
    MarkLines(mark);
    VerdictOfFirst(p, t + "\n" + mark);
    VerdictOfFirst(p, t);
    LinesAppended(t, mark);
    MarkGivesNoKey(Lines(t), mark, p.field);
    assert KeyVerdict(p, t) == KeyVerdict(p, t + "\n" + mark);
    if rest == "" {
      assert t + rest == t;
    } else {
      assert t + rest == t + "\n" + rest[1..];
      KeyVerdictSurvives(p, t, rest[1..]);
    }
  }

  /** The mark itself passes no test. */
  lemma MarkFails(cond: When, mark: string, shells: Option<Records>)
    requires CutMark(mark) && !cond.WhenKey? && !cond.WhenRaw?
    ensures !TestOf(cond, shells)(mark)
  {
    MarkKept(mark);
    hide MarkerLine, CutMark;
  }

  // ----- completing the sheet -----

  /** The whole capture of which c is the start: c itself unless it was cut. */
  ghost predicate Completed(c: Capture, c': Capture) {
    c' == c || (c.mark.Some? && CutMark(c.mark.value) && c.text <= c'.text && c'.mark.None?)
  }

  /** sheet' holds the captures of the sheet completed: the rule's own, and the account file of a joining rule. */
  ghost predicate Completes(rule: PostureRule, disabled: set<string>, sheet: Sheet, sheet': Sheet) {
    (UseOf(rule.check, disabled, sheet).Usable? ==>
      UseOf(rule.check, disabled, sheet').Usable? &&
      Completed(UseOf(rule.check, disabled, sheet).capture, UseOf(rule.check, disabled, sheet').capture)) &&
    CompletesRead(ShellsOf(rule, disabled, sheet'), ShellsOf(rule, disabled, sheet))
  }

  /** The rule's capture is whole, or what it keeps decides the match for every completion. */
  ghost predicate FirmRule(rule: PostureRule, disabled: set<string>, sheet: Sheet) {
    UseOf(rule.check, disabled, sheet).Usable? ==>
      (var c := UseOf(rule.check, disabled, sheet).capture;
       c.mark.None? || FirmText(rule.cond, c.text, ShellsOf(rule, disabled, sheet)))
  }

  /** The rule's capture was cut at the end of a line of the whole one. */
  ghost predicate CutAtLineEnd(rule: PostureRule, disabled: set<string>, sheet: Sheet, sheet': Sheet) {
    UseOf(rule.check, disabled, sheet).Usable? && UseOf(rule.check, disabled, sheet').Usable? ==>
      (var c, c' := UseOf(rule.check, disabled, sheet).capture, UseOf(rule.check, disabled, sheet').capture;
       |c.text| < |c'.text| ==> c'.text[|c.text|] == '\n')
  }

  /** The accounts a cut account file still answers for: every cut is a fragment, and completes unless a lost line took the place of its last record. */
  lemma CutShellsComplete(whole: string, k: nat, mark: string)
    requires k <= |whole| && CutMark(mark)
    ensures var w, c := Typed(AccountRow, whole), Typed(AccountRow, Truncated(whole, k, mark));
      AccountJoin.Completes(w, c) <==> (w.partial ==> |c.items| <= |w.items|)
  {
    hide Typed, Truncated, CutMark;
    TruncatedFragment(AccountRow, whole, k, mark);
  }

  /** Completing the shells keeps a firing record firing. */
  lemma ShellsKeepMatch(cond: When, raw: string, shells: Option<Records>, shells': Option<Records>)
    requires CompletesRead(shells', shells) && VerdictOf(cond, raw, shells).status == Matched
    ensures VerdictOf(cond, raw, shells').status == Matched
  {
    hide KeyVerdict, RawMatch, LineVerdict, FieldVerdict, AnyRecord, JoinVerdict, Typed, Lines, CompletesRead;
    if cond.WhenJoin? { JoinKeepsMatch(cond.p, Typed(StatusRow, raw), shells, shells'); }
  }

  lemma JoinKeepsMatch(p: Equals, recs: Records, shells: Option<Records>, shells': Option<Records>)
    requires CompletesRead(shells', shells) && JoinVerdict(p, recs, shells).status == Matched
    ensures JoinVerdict(p, recs, shells').status == Matched
  {
    hide SomeFires, AllRefuse, UndecidedOutcomes, Candidates, Answers, LastReason, CompletesRead;
    MatchedSurvives(p, recs, recs, shells, shells');
  }

  /**
   * From the sheet to the reading, for captures cut at any byte: a rule that fires on a sheet with cut captures fires on the
   * completed sheet, when what it kept is firm or the cut fell on a line end.
   */
  lemma FiringSurvives(rule: PostureRule, applies: set<string>, disabled: set<string>, sheet: Sheet, sheet': Sheet)
    requires Completes(rule, disabled, sheet, sheet') && Fires(rule, applies, disabled, sheet)
    requires FirmRule(rule, disabled, sheet) || CutAtLineEnd(rule, disabled, sheet, sheet')
    ensures Fires(rule, applies, disabled, sheet')
  {
    FiresIs(rule, applies, disabled, sheet);
    FiresIs(rule, applies, disabled, sheet');
    hide Fires, UseOf, VerdictOf, FirmText, CutMark, ShellsOf;
    var c, c' := UseOf(rule.check, disabled, sheet).capture, UseOf(rule.check, disabled, sheet').capture;
    var shells, shells' := ShellsOf(rule, disabled, sheet), ShellsOf(rule, disabled, sheet');
    if c' != c {
      var t, mark, rest := c.text, c.mark.value, c'.text[|c.text|..];
      assert t + rest == c'.text;
      if FirmText(rule.cond, t, shells) {
        MatchExactly(rule.cond, t, mark, shells);
        assert VerdictOf(rule.cond, t + rest, shells).status == Matched;
      } else {
        assert rest == "" || rest[0] == c'.text[|c.text|];
        MatchAtLineEnd(rule.cond, t, mark, rest, shells);
      }
    }
    ShellsKeepMatch(rule.cond, c'.Raw(), shells, shells');
  }

  lemma ShellsCompleteThemselves(shells: Option<Records>)
    ensures CompletesRead(shells, shells)
  {
  }

  /**
   * Exactly when a rule that fires on the sheet fires on every completion of it: when its capture is whole or firm. The
   * second check of a rule is another than the first.
   */
  lemma FiringExactly(rule: PostureRule, applies: set<string>, disabled: set<string>, sheet: Sheet)
    requires Fires(rule, applies, disabled, sheet) && rule.with != rule.check
    requires UseOf(rule.check, disabled, sheet).capture.mark.Some? ==> CutMark(UseOf(rule.check, disabled, sheet).capture.mark.value)
    ensures (forall sheet' :: Completes(rule, disabled, sheet, sheet') ==> Fires(rule, applies, disabled, sheet')) <==>
      FirmRule(rule, disabled, sheet)
  {
    FiresIs(rule, applies, disabled, sheet);
    hide Fires, VerdictOf, FirmText, CutMark;
    if FirmRule(rule, disabled, sheet) {
      hide Completes, FirmRule;
      forall sheet' | Completes(rule, disabled, sheet, sheet') ensures Fires(rule, applies, disabled, sheet') {
        FiringSurvives(rule, applies, disabled, sheet, sheet');
      }
    } else {
      var c, shells := UseOf(rule.check, disabled, sheet).capture, ShellsOf(rule, disabled, sheet);
      MatchExactly(rule.cond, c.text, c.mark.value, shells);
      var rest :| VerdictOf(rule.cond, c.text + rest, shells).status != Matched;
      var sheet' := sheet[rule.check := Ok(Capture(c.text + rest, None))];
      ShellsCompleteThemselves(shells);
      assert ShellsOf(rule, disabled, sheet') == shells;
      assert Completes(rule, disabled, sheet, sheet');
      FiresIs(rule, applies, disabled, sheet');
      assert !Fires(rule, applies, disabled, sheet');
    }
  }

  // ----- disproofs -----

  lemma CutPartial(row: string -> Row, t: string, mark: string)
    requires CutMark(mark)
    ensures Typed(row, t + "\n" + mark).partial
  {
    hide Typed, CutMark;
    TruncatedFragment(row, t, |t|, mark);
    assert t[..|t|] == t;
  }

  /** A cut capture disproves nothing but a key's value. */
  lemma CutDisprovesNothing(cond: When, t: string, mark: string, shells: Option<Records>)
    requires CutMark(mark) && !cond.WhenKey?
    ensures VerdictOf(cond, t + "\n" + mark, shells).status != NotMatched
  {
    match cond
    case WhenRaw(required, re) =>
      CutRaw(required, re, t, mark);
    case WhenLine(re) =>
      MarkKept(mark);
      LineVerdictSurvives(re, t, mark);
      hide Lines, SomeLine, NoLine;
    case WhenField(p, row) =>
      CutPartial(row, t, mark);
      hide Typed, SomeRecord;
    case WhenAny(row) =>
      CutPartial(row, t, mark);
      hide Typed;
    case WhenJoin(p) =>
      CutPartial(StatusRow, t, mark);
      hide Typed, SomeFires, AllRefuse, UndecidedOutcomes, Candidates, Answers, LastReason;
  }

  predicate Disproves(rule: PostureRule, applies: set<string>, disabled: set<string>, sheet: Sheet) {
    ReadingOf(EvalRule(rule, applies, disabled, sheet)) == FS.Read(NotMatched)
  }

  lemma DisprovesIs(rule: PostureRule, applies: set<string>, disabled: set<string>, sheet: Sheet)
    ensures Disproves(rule, applies, disabled, sheet) <==>
      (rule.check in applies && UseOf(rule.check, disabled, sheet).Usable? && (rule.with != "" ==> rule.cond.WhenJoin?) &&
       VerdictOf(rule.cond, UseOf(rule.check, disabled, sheet).capture.Raw(), ShellsOf(rule, disabled, sheet)).status == NotMatched)
  {
    hide VerdictOf, UseOf;
  }

  /** Completing the shells undoes no disproof. */
  lemma ShellsKeepDisproof(cond: When, raw: string, shells: Option<Records>, shells': Option<Records>)
    requires CompletesRead(shells', shells) && VerdictOf(cond, raw, shells).status == NotMatched
    ensures VerdictOf(cond, raw, shells').status == NotMatched
  {
    hide KeyVerdict, RawMatch, LineVerdict, FieldVerdict, AnyRecord, JoinVerdict, Typed, Lines, CompletesRead;
    if cond.WhenJoin? { JoinKeepsDisproof(cond.p, Typed(StatusRow, raw), shells, shells'); }
  }

  lemma JoinKeepsDisproof(p: Equals, recs: Records, shells: Option<Records>, shells': Option<Records>)
    requires CompletesRead(shells', shells) && JoinVerdict(p, recs, shells).status == NotMatched
    ensures JoinVerdict(p, recs, shells').status == NotMatched
  {
    hide SomeFires, AllRefuse, UndecidedOutcomes, Candidates, Answers, LastReason, CompletesRead;
    NotMatchedSurvives(p, recs, shells, shells');
  }

  /**
   * What phase 1 disproved on a sheet stays disproved on the completed sheet: only a key's value can be disproved on a cut
   * capture, and stands when a whole line gave it or the cut fell on a line end.
   */
  lemma DisproofSurvives(rule: PostureRule, applies: set<string>, disabled: set<string>, sheet: Sheet, sheet': Sheet)
    requires Completes(rule, disabled, sheet, sheet') && Disproves(rule, applies, disabled, sheet)
    requires rule.cond.WhenKey? ==> FirmRule(rule, disabled, sheet) || CutAtLineEnd(rule, disabled, sheet, sheet')
    ensures Disproves(rule, applies, disabled, sheet')
  {
    DisprovesIs(rule, applies, disabled, sheet);
    DisprovesIs(rule, applies, disabled, sheet');
    hide Disproves, UseOf, ShellsOf, CutMark, KeyVerdict, RawMatch, LineVerdict, FieldVerdict, AnyRecord, JoinVerdict, Typed, Lines, FirstValue, WholeLines;
    var c, c' := UseOf(rule.check, disabled, sheet).capture, UseOf(rule.check, disabled, sheet').capture;
    var shells, shells' := ShellsOf(rule, disabled, sheet), ShellsOf(rule, disabled, sheet');
    if c' != c {
      var t, mark, rest := c.text, c.mark.value, c'.text[|c.text|..];
      assert t + rest == c'.text;
      if !rule.cond.WhenKey? {
        CutDisprovesNothing(rule.cond, t, mark, shells);
      } else {
        assert rest == "" || rest[0] == c'.text[|c.text|];
        KeyDisproof(rule.cond.p, t, mark, rest);
      }
    } else {
      ShellsKeepDisproof(rule.cond, c.Raw(), shells, shells');
    }
  }

  lemma KeyDisproof(p: Equals, t: string, mark: string, rest: string)
    requires CutMark(mark) && KeyVerdict(p, t + "\n" + mark).status == NotMatched
    requires FirstValue(WholeLines(t), p.field).Pair? || rest == "" || rest[0] == '\n'
    ensures KeyVerdict(p, t + rest).status == NotMatched
  {
    hide KeyVerdict, FirstValue, WholeLines, CutMark;
    if FirstValue(WholeLines(t), p.field).Pair? {
      CutVerdictExactly(p, t, mark);
      assert KeyVerdict(p, t + rest) == KeyVerdict(p, t + "\n" + mark);
    } else {
      KeyAtLineEnd(p, t, mark, rest);
    }
  }

  // ----- the whole evaluation -----

  /** What Evaluate is handed: every rule of the platform with its reading; evidence is what the rules quote. */
  function Judgements(rules: seq<PostureRule>, applies: set<string>, disabled: set<string>, sheet: Sheet, evidence: nat -> seq<Evidence>): (js: seq<FS.Judged>)
    ensures |js| == |rules|
    ensures forall i :: 0 <= i < |rules| ==>
      js[i] == FS.Judged(rules[i].finding, ReadingOf(EvalRule(rules[i], applies, disabled, sheet)), evidence(i))
  {
    seq(|rules|, i requires 0 <= i < |rules| =>
      FS.Judged(rules[i].finding, ReadingOf(EvalRule(rules[i], applies, disabled, sheet)), evidence(i)))
  }

  predicate Files(findings: seq<Finding>, id: string) { exists j :: 0 <= j < |findings| && findings[j].id == id }

  /** Every finding phase 1 files on a sheet cut at any byte it also files on the completed sheet, if every rule that fired is firm or was cut at a line end. */
  lemma FindingsSurvive(catalog: map<string, FS.Def>, rules: seq<PostureRule>, applies: set<string>, disabled: set<string>, sheet: Sheet, sheet': Sheet,
                        evidence: nat -> seq<Evidence>, evidence': nat -> seq<Evidence>, cut: seq<Finding>, whole: seq<Finding>)
    requires forall i :: 0 <= i < |rules| && Fires(rules[i], applies, disabled, sheet) ==>
      Completes(rules[i], disabled, sheet, sheet') && (FirmRule(rules[i], disabled, sheet) || CutAtLineEnd(rules[i], disabled, sheet, sheet'))
    requires FS.Evaluates(catalog, Judgements(rules, applies, disabled, sheet, evidence), cut)
    requires FS.Evaluates(catalog, Judgements(rules, applies, disabled, sheet', evidence'), whole)
    ensures forall f :: f in cut ==> Files(whole, f.id)
  {
    hide EvalRule, Completes, FirmRule, CutAtLineEnd;
    var js, js' := Judgements(rules, applies, disabled, sheet, evidence), Judgements(rules, applies, disabled, sheet', evidence');
    forall f | f in cut ensures Files(whole, f.id) {
      var i :| 0 <= i < |cut| && cut[i] == f;
      assert FS.Produced(catalog, js, cut[i]);
      var k :| 0 <= k < |js| && FS.Fires(catalog, js[k]) && js[k].finding == f.id;
      assert Fires(rules[k], applies, disabled, sheet);
      FiringSurvives(rules[k], applies, disabled, sheet, sheet');
      assert FS.Fires(catalog, js'[k]);
    }
  }
}
