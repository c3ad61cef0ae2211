/** The join of the account status listing with the login shells (StatusWithLoginShell). */
module AccountJoin {
  import opened Options
  import opened Text
  import opened Captures
  import opened Rules

  datatype AccountOutcome = AccountOutcome(account: string, status: Status, reason: string)

  const UNREAD := "(an account whose name was not read)"

  predicate Marked(r: Record) {
    exists f :: f in r && (Holds(r[f], "[REDACTED") || Holds(r[f], "[TRUNCATED") || HasMarker(r[f]))
  }

  const NO_LOGIN: set<string> := {
    "/usr/sbin/nologin", "/sbin/nologin", "/usr/bin/nologin", "/bin/false", "/usr/bin/false", "/bin/true", "/usr/bin/true",
    "/dev/null", "/bin/sync", "/usr/bin/sync", "/sbin/shutdown", "/usr/sbin/shutdown", "/sbin/halt", "/usr/sbin/halt"
  }
  const INTERACTIVE: set<string> := {
    "sh", "bash", "dash", "zsh", "ksh", "mksh", "fish", "tcsh", "csh", "ash", "busybox", "rbash", "git-shell"
  }

  predicate RefusesLogin(shell: string) { TrimSpace(shell) in NO_LOGIN }

  function TrimSlashes(s: string): string {
    if s != "" && s[|s| - 1] == '/' then TrimSlashes(s[..|s| - 1]) else s
  }

  /** path.Base of a non-empty path. */
  function BaseName(s: string): string {
    var t := TrimSlashes(s);
    if t == "" then "/" else match CutLast(t, '/')
      case NoCut => t
      case CutAt(_, last) => last
  }

  predicate InteractiveShell(shell: string) {
    TrimSpace(shell) == "" || BaseName(TrimSpace(shell)) in INTERACTIVE
  }

  // ----- one record, one account -----

  function StatusOf(p: Equals, r: Record): string { TrimSpace(Get(r, p.field)) }
  function NameOf(r: Record): string { TrimSpace(Get(r, NAME)) }

  predicate Legible(p: Equals, r: Record) {
    StatusOf(p, r) != "" && !HasMarker(StatusOf(p, r)) && NameOf(r) != "" && !HasMarker(NameOf(r))
  }

  predicate Candidate(p: Equals, r: Record) {
    Legible(p, r) && EqualFold(StatusOf(p, r), p.value)
  }

  /** Neither shown to have the status nor shown to have another one. */
  predicate Undecided(p: Equals, r: Record) {
    !Legible(p, r) || (!EqualFold(StatusOf(p, r), p.value) && !Known(Lower(StatusOf(p, r)), p.known))
  }

  predicate NisLine(name: string) { name != "" && (name[0] == '+' || name[0] == '-') }

  /** The index of the first line of that name at or after k, |items| when there is none. */
  function FirstNamed(items: seq<Record>, name: string, k: nat): (i: nat)
    requires k <= |items|
    ensures k <= i <= |items|
    ensures i < |items| ==> Get(items[i], NAME) == name && !NisLine(name)
    ensures forall j :: k <= j < i ==> Get(items[j], NAME) != name || NisLine(name)
    decreases |items| - k
  {
    if k == |items| || (Get(items[k], NAME) == name && !NisLine(name)) then k else FirstNamed(items, name, k + 1)
  }

  function Judge(acct: Record, cut: bool): Verdict {
    if SHELL !in acct || Marked(acct) then Verdict(NotAssessed, "shell-unknown")
    else if cut then Verdict(NotAssessed, "account-line-cut")
    else if RefusesLogin(acct[SHELL]) then Verdict(NotMatched, "")
    else if InteractiveShell(acct[SHELL]) then Verdict(Matched, "")
    else Verdict(NotAssessed, "unrecognized-shell:" + TrimSpace(acct[SHELL]))
  }

  /** What the shells say of one account with the status. */
  function Answer(shells: Option<Records>, name: string): Verdict {
    match shells
    case None => Verdict(NotAssessed, "with-unread")
    case Some(s) =>
      var i := FirstNamed(s.items, name, 0);
      if i == |s.items| then Verdict(NotAssessed, "account-not-in-passwd")
      else Judge(s.items[i], i == |s.items| - 1 && s.partial)
  }

  // ----- the whole listing -----

  function UndecidedOutcome(r: Record): AccountOutcome {
    AccountOutcome(if NameOf(r) == "" || HasMarker(NameOf(r)) then UNREAD else NameOf(r), NotAssessed, "unrecognized-value")
  }

  function UndecidedOutcomes(p: Equals, items: seq<Record>): seq<AccountOutcome> {
    if items == [] then []
    else
      var rest := UndecidedOutcomes(p, items[..|items| - 1]);
      var r := items[|items| - 1];
      if Undecided(p, r) then rest + [UndecidedOutcome(r)] else rest
  }

  function Candidates(p: Equals, items: seq<Record>): seq<Record> {
    if items == [] then []
    else
      var rest := Candidates(p, items[..|items| - 1]);
      var r := items[|items| - 1];
      if Candidate(p, r) then rest + [r] else rest
  }

  function Answers(shells: Option<Records>, rs: seq<Record>): (a: seq<AccountOutcome>)
    ensures |a| == |rs|
    ensures forall i :: 0 <= i < |rs| ==>
      a[i] == AccountOutcome(NameOf(rs[i]), Answer(shells, NameOf(rs[i])).status, Answer(shells, NameOf(rs[i])).reason)
  {
    seq(|rs|, i requires 0 <= i < |rs| =>
      AccountOutcome(NameOf(rs[i]), Answer(shells, NameOf(rs[i])).status, Answer(shells, NameOf(rs[i])).reason))
  }

  /** Some account with the status has a login shell. */
  predicate SomeFires(p: Equals, recs: Records, shells: Option<Records>) {
    exists i :: 0 <= i < |recs.items| && Candidate(p, recs.items[i]) && Answer(shells, NameOf(recs.items[i])).status == Matched
  }

  /** Every record is recognized, and every account with the status is shown to refuse logins. */
  predicate AllRefuse(p: Equals, recs: Records, shells: Option<Records>) {
    forall i :: 0 <= i < |recs.items| ==>
      !Undecided(p, recs.items[i]) &&
      (Candidate(p, recs.items[i]) ==> Answer(shells, NameOf(recs.items[i])).status == NotMatched)
  }

  lemma {:induction false} CandidatesExactly(p: Equals, items: seq<Record>)
    ensures forall r :: r in Candidates(p, items) <==> r in items && Candidate(p, r)
    ensures UndecidedOutcomes(p, items) == [] <==> forall r :: r in items ==> !Undecided(p, r)
  {
    if items != [] {
      CandidatesExactly(p, items[..|items| - 1]);
      assert items == items[..|items| - 1] + [items[|items| - 1]];
    }
  }

  /** The first loop: the records with the status, and the ones that may have it. */
  method Classify(p: Equals, items: seq<Record>) returns (accounts: seq<AccountOutcome>, candidates: seq<Record>, unrecognized: bool)
    ensures accounts == UndecidedOutcomes(p, items)
    ensures candidates == Candidates(p, items)
    ensures unrecognized <==> accounts != []
  {
    accounts, candidates, unrecognized := [], [], false;
    for i := 0 to |items|
      invariant accounts == UndecidedOutcomes(p, items[..i])
      invariant candidates == Candidates(p, items[..i])
      invariant unrecognized <==> accounts != []
    {
      hide EqualFold, Known, HasMarker, TrimSpace, Get, Lower;
      var r := items[i];
      assert items[..i + 1][..i] == items[..i] && items[..i + 1][i] == r;
      if StatusOf(p, r) == "" || HasMarker(StatusOf(p, r)) || NameOf(r) == "" || HasMarker(NameOf(r)) {
        unrecognized := true;
        accounts := accounts + [UndecidedOutcome(r)];
      } else if EqualFold(StatusOf(p, r), p.value) {
        candidates := candidates + [r];
      } else if !Known(Lower(StatusOf(p, r)), p.known) {
        unrecognized := true;
        accounts := accounts + [UndecidedOutcome(r)];
      }
    }
    assert items[..|items|] == items;
  }

  /** accountNamed: the first line of that name, and whether it is the listing's last one. */
  method AccountNamed(items: seq<Record>, name: string) returns (i: nat, last: bool, found: bool)
    ensures i == FirstNamed(items, name, 0)
    ensures found <==> i < |items|
    ensures last <==> i == |items| - 1
  {
    i := 0;
    while i < |items|
      invariant i <= |items| && FirstNamed(items, name, i) == FirstNamed(items, name, 0)
    {
      var n := Get(items[i], NAME);
      if !NisLine(n) && n == name { return i, i == |items| - 1, true; }
      i := i + 1;
    }
    return i, false, false;
  }

  predicate AnyIs(outcomes: seq<AccountOutcome>, s: Status) { exists k :: 0 <= k < |outcomes| && outcomes[k].status == s }

  /** The reason of the last account left unknown. */
  function LastReason(outcomes: seq<AccountOutcome>): string {
    if outcomes == [] then ""
    else if outcomes[|outcomes| - 1].status == NotAssessed then outcomes[|outcomes| - 1].reason
    else LastReason(outcomes[..|outcomes| - 1])
  }

  method JudgeAccount(shells: Option<Records>, name: string) returns (status: Status, reason: string)
    ensures Answer(shells, name) == Verdict(status, reason)
    ensures status == NotAssessed <==> reason != ""
  {
    hide RefusesLogin, InteractiveShell, Marked, TrimSpace, FirstNamed;
    status, reason := NotAssessed, "";
    if shells == None { return NotAssessed, "with-unread"; }
    var k, last, found := AccountNamed(shells.value.items, name);
    if !found { return NotAssessed, "account-not-in-passwd"; }
    var acct := shells.value.items[k];
    if SHELL !in acct || Marked(acct) {
      reason := "shell-unknown";
    } else if last && shells.value.partial {
      reason := "account-line-cut";
    } else if RefusesLogin(acct[SHELL]) {
      status := NotMatched;
    } else if InteractiveShell(acct[SHELL]) {
      status := Matched;
    } else {
      reason := "unrecognized-shell:" + TrimSpace(acct[SHELL]);
    }
  }

  /** The second loop: each account with the status against its shell. */
  method JudgeCandidates(shells: Option<Records>, candidates: seq<Record>)
      returns (answers: seq<AccountOutcome>, fired: nat, refused: nat, unknown: string)
    ensures answers == Answers(shells, candidates)
    ensures fired > 0 <==> AnyIs(answers, Matched)
    ensures refused > 0 <==> AnyIs(answers, NotMatched)
    ensures unknown != "" <==> AnyIs(answers, NotAssessed)
    ensures unknown == LastReason(answers)
  {
    hide Answer, NameOf;
    answers, fired, refused, unknown := [], 0, 0, "";
    for i := 0 to |candidates|
      invariant answers == Answers(shells, candidates[..i])
      invariant fired > 0 <==> AnyIs(answers, Matched)
      invariant refused > 0 <==> AnyIs(answers, NotMatched)
      invariant unknown != "" <==> AnyIs(answers, NotAssessed)
      invariant unknown == LastReason(answers)
    {
      hide AnyIs, Answers, LastReason;
      var name := NameOf(candidates[i]);
      var status, reason := JudgeAccount(shells, name);
      Grown(shells, candidates, i, answers, status, reason);
      match status {
        case Matched => fired := fired + 1;
        case NotMatched => refused := refused + 1;
        case NotAssessed => unknown := reason;
      }
      answers := answers + [AccountOutcome(name, status, reason)];
    }
    assert candidates[..|candidates|] == candidates;
  }

  lemma Grown(shells: Option<Records>, candidates: seq<Record>, i: nat, answers: seq<AccountOutcome>, status: Status, reason: string)
    requires i < |candidates| && answers == Answers(shells, candidates[..i])
    requires Answer(shells, NameOf(candidates[i])) == Verdict(status, reason)
    ensures Answers(shells, candidates[..i + 1]) == answers + [AccountOutcome(NameOf(candidates[i]), status, reason)]
    ensures forall s :: AnyIs(Answers(shells, candidates[..i + 1]), s) <==> AnyIs(answers, s) || s == status
    ensures LastReason(Answers(shells, candidates[..i + 1])) == if status == NotAssessed then reason else LastReason(answers)
  {
    hide Answer;
    var a := Answers(shells, candidates[..i + 1]);
    assert a[..i] == answers;
    assert a == answers + [AccountOutcome(NameOf(candidates[i]), status, reason)];
    assert a[i].status == status;
    forall s | AnyIs(answers, s) ensures AnyIs(a, s) {
      var k :| 0 <= k < |answers| && answers[k].status == s;
      assert a[k].status == s;
    }
  }

  /** Decide: parsed and shells are None when the capture has no record shape, or gave no usable fact. */
  method Decide(p: Equals, parsed: Option<Records>, shells: Option<Records>) returns (accounts: seq<AccountOutcome>, v: Verdict)
    ensures parsed.None? ==> v == Verdict(NotAssessed, "unexpected-parsed-shape") && accounts == []
    ensures parsed.Some? && parsed.value.items == [] ==> v == Verdict(NotAssessed, "no-records") && accounts == []
    ensures parsed.Some? && parsed.value.items != [] ==>
      accounts == UndecidedOutcomes(p, parsed.value.items) + Answers(shells, Candidates(p, parsed.value.items))
    ensures v.status == Matched <==> (parsed.Some? && SomeFires(p, parsed.value, shells))
    ensures v.status == NotMatched <==>
      (parsed.Some? && parsed.value.items != [] && !parsed.value.partial && AllRefuse(p, parsed.value, shells))
    ensures v.status == NotAssessed && parsed.Some? && parsed.value.items != [] ==>
      v.reason == if parsed.value.partial then "partial-output"
                  else if UndecidedOutcomes(p, parsed.value.items) != [] then "unrecognized-value"
                  else LastReason(Answers(shells, Candidates(p, parsed.value.items)))
    ensures v.status == Matched ==> v.reason == "recognized-matching-record-with-login-shell"
    ensures v.status == NotMatched ==>
      v.reason == if Candidates(p, parsed.value.items) != [] then "matching-records-refuse-login" else "no-matching-record"
  {
    hide UndecidedOutcomes, Candidates, Answer, Candidate, Undecided, NameOf;
    if parsed == None { return [], Verdict(NotAssessed, "unexpected-parsed-shape"); }
    var recs := parsed.value;
    if |recs.items| == 0 { return [], Verdict(NotAssessed, "no-records"); }
    var undecided, candidates, unrecognized := Classify(p, recs.items);
    var answers, fired, refused, unknown := JudgeCandidates(shells, candidates);
    accounts := undecided + answers;
    Combined(p, recs, shells, candidates);
    SomeAnswer(answers);
    if fired > 0 {
      v := Verdict(Matched, "recognized-matching-record-with-login-shell");
    } else if recs.partial {
      v := Verdict(NotAssessed, "partial-output");
    } else if unrecognized {
      v := Verdict(NotAssessed, "unrecognized-value");
    } else if unknown != "" {
      v := Verdict(NotAssessed, unknown);
    } else if refused > 0 {
      v := Verdict(NotMatched, "matching-records-refuse-login");
    } else {
      v := Verdict(NotMatched, "no-matching-record");
    }
  }

  lemma SomeAnswer(answers: seq<AccountOutcome>)
    ensures answers != [] <==> AnyIs(answers, Matched) || AnyIs(answers, NotMatched) || AnyIs(answers, NotAssessed)
  {
    if answers != [] {
      var s := answers[0].status;
      assert AnyIs(answers, s);
    }
  }

  lemma Combined(p: Equals, recs: Records, shells: Option<Records>, candidates: seq<Record>)
    requires candidates == Candidates(p, recs.items)
    ensures SomeFires(p, recs, shells) <==> AnyIs(Answers(shells, candidates), Matched)
    ensures AllRefuse(p, recs, shells) <==>
      (UndecidedOutcomes(p, recs.items) == [] &&
       !AnyIs(Answers(shells, candidates), Matched) && !AnyIs(Answers(shells, candidates), NotAssessed))
  {
    CandidatesExactly(p, recs.items);
    hide UndecidedOutcomes, Candidates, Answer, Candidate, Undecided, NameOf;
    var a := Answers(shells, candidates);
    forall i | 0 <= i < |recs.items| && Candidate(p, recs.items[i])
      ensures exists k :: 0 <= k < |candidates| && candidates[k] == recs.items[i] &&
                          a[k].status == Answer(shells, NameOf(recs.items[i])).status
    {
      assert recs.items[i] in candidates;
    }
    forall k | 0 <= k < |candidates|
      ensures exists i :: 0 <= i < |recs.items| && Candidate(p, recs.items[i]) && recs.items[i] == candidates[k] &&
                          a[k].status == Answer(shells, NameOf(recs.items[i])).status
    {
      assert candidates[k] in recs.items;
    }
    if AllRefuse(p, recs, shells) {
      forall r | r in recs.items ensures !Undecided(p, r) { }
    }
  }

  // ----- truncation soundness -----

  /**
   * A completion of the account lines: the lines before the last stand, the last one may be cut and is rewritten or
   * dropped, and more may follow. Only a listing that is complete may be shorter than the cut one.
   */
  predicate Completes(whole: Records, cut: Records) {
    if cut.partial then Fragment(cut, whole) && (whole.partial ==> |cut.items| <= |whole.items|) else whole == cut
  }

  predicate CompletesRead(whole: Option<Records>, cut: Option<Records>) {
    cut.Some? ==> whole.Some? && Completes(whole.value, cut.value)
  }

  /** The status listing with records appended. */
  predicate Extends(whole: Records, cut: Records) { cut.items <= whole.items }

  lemma {:induction false} FirstNamedStable(a: seq<Record>, b: seq<Record>, name: string, k: nat, upto: nat)
    requires k <= upto <= |a| && upto <= |b| && a[..upto] == b[..upto]
    requires FirstNamed(a, name, k) < upto
    ensures FirstNamed(b, name, k) == FirstNamed(a, name, k)
    decreases |a| - k
  {
    assert k < upto;
    assert a[..upto][k] == b[..upto][k];
    if FirstNamed(a, name, k) != k { FirstNamedStable(a, b, name, k + 1, upto); }
  }

  /** A decided answer over a fragment is the answer of the whole, which can at most withhold it as a possibly cut line. */
  lemma FragmentAnswer(whole: Records, cut: Records, name: string)
    requires Fragment(cut, whole) && Answer(Some(cut), name).status != NotAssessed
    ensures Answer(Some(whole), name) == Answer(Some(cut), name) ||
            (Answer(Some(whole), name) == Verdict(NotAssessed, "account-line-cut") && whole.partial && |whole.items| < |cut.items|)
  {
    hide RefusesLogin, InteractiveShell, Marked;
    var i := FirstNamed(cut.items, name, 0);
    FirstNamedStable(cut.items, whole.items, name, 0, |cut.items| - 1);
    assert whole.items[..|cut.items| - 1][i] == cut.items[..|cut.items| - 1][i];
  }

  /** A decided answer about an account is not changed by completing the shells. */
  lemma AnswerStable(whole: Option<Records>, cut: Option<Records>, name: string)
    requires CompletesRead(whole, cut) && Answer(cut, name).status != NotAssessed
    ensures Answer(whole, name) == Answer(cut, name)
  {
    if cut.value.partial { FragmentAnswer(whole.value, cut.value, name); }
  }

  /** A match found on cut listings is still one on every completion of them. */
  lemma MatchedSurvives(p: Equals, recs: Records, recs': Records, shells: Option<Records>, shells': Option<Records>)
    requires Extends(recs', recs) && CompletesRead(shells', shells)
    requires SomeFires(p, recs, shells)
    ensures SomeFires(p, recs', shells')
  {
    hide Candidate, Answer, NameOf;
    var i :| 0 <= i < |recs.items| && Candidate(p, recs.items[i]) && Answer(shells, NameOf(recs.items[i])).status == Matched;
    assert recs'.items[i] == recs.items[i];
    AnswerStable(shells', shells, NameOf(recs.items[i]));
  }

  /** A disproof needs a complete, recognized status listing, and no completion of the shells undoes it. */
  lemma NotMatchedSurvives(p: Equals, recs: Records, shells: Option<Records>, shells': Option<Records>)
    requires CompletesRead(shells', shells) && AllRefuse(p, recs, shells)
    ensures AllRefuse(p, recs, shells') && !SomeFires(p, recs, shells')
  {
    hide Candidate, Answer, NameOf, Undecided;
    forall i | 0 <= i < |recs.items| && Candidate(p, recs.items[i])
      ensures Answer(shells', NameOf(recs.items[i])).status == NotMatched
    {
      AnswerStable(shells', shells, NameOf(recs.items[i]));
    }
  }

  /** The records of the whole lines of a text that may go on. */
  function WholeRecords(t: string): Records { Records(RecordsOf(StatusRow, WholeLines(t)), true) }

  lemma WholeRecordsStay(t: string, rest: string)
    ensures Extends(Typed(StatusRow, t + rest), WholeRecords(t))
  {
    hide Lines, WholeLines, RecordsOf;
    var tail := WholeLinesStay(t, rest);
    RecordsConcat(StatusRow, WholeLines(t), tail);
  }

  /** A match on listings of which the whole ones are completions: never a disproof, and a match where the shells are recognised. */
  predicate Stands(p: Equals, recs': Records, whole: Records) {
    !AllRefuse(p, recs', Some(whole)) && (!whole.partial ==> SomeFires(p, recs', Some(whole)))
  }

  /**
   * From the captured bytes to the verdict, both listings cut at any byte. A match that the whole status lines show, or any
   * match when the statuses were cut at a line end, is never a disproof on the whole captures, and is a match on them when
   * the parser recognises every line of the account file. A disproof, which reads all the statuses, is never a match, and
   * stands under the same condition.
   */
  lemma CutCapturesSound(p: Equals, status: string, j: nat, passwd: string, k: nat, mark: string)
    requires k <= |passwd| && j <= |status| && CutMark(mark)
    ensures var whole, cut := Typed(AccountRow, passwd), Typed(AccountRow, Truncated(passwd, k, mark));
      var recs, recs' := Typed(StatusRow, Truncated(status, j, mark)), Typed(StatusRow, status);
      recs.partial &&
      (SomeFires(p, WholeRecords(status[..j]), Some(cut)) ==> Stands(p, recs', whole)) &&
      (j < |status| && status[j] == '\n' && SomeFires(p, recs, Some(cut)) ==> Stands(p, recs', whole)) &&
      (AllRefuse(p, recs', Some(cut)) ==> !SomeFires(p, recs', Some(whole)) && (!whole.partial ==> AllRefuse(p, recs', Some(whole))))
  {
    hide Typed, SomeFires, AllRefuse, WholeRecords;
    TruncatedFragment(AccountRow, passwd, k, mark);
    TruncatedFragment(StatusRow, status, j, mark);
    var whole, cut := Typed(AccountRow, passwd), Typed(AccountRow, Truncated(passwd, k, mark));
    var recs, recs' := Typed(StatusRow, Truncated(status, j, mark)), Typed(StatusRow, status);
    if SomeFires(p, WholeRecords(status[..j]), Some(cut)) {
      WholeRecordsStay(status[..j], status[j..]);
      assert status[..j] + status[j..] == status;
      MatchStands(p, WholeRecords(status[..j]), recs', cut, whole);
    }
    if j < |status| && status[j] == '\n' && SomeFires(p, recs, Some(cut)) {
      StatusCut(status, j, mark);
      MatchStands(p, recs, recs', cut, whole);
    }
    if AllRefuse(p, recs', Some(cut)) {
      RefusedNotFires(p, recs', cut, whole);
      if !whole.partial { NotMatchedSurvives(p, recs', Some(cut), Some(whole)); }
    }
  }

  lemma MatchStands(p: Equals, recs: Records, recs': Records, cut: Records, whole: Records)
    requires Fragment(cut, whole) && Extends(recs', recs) && SomeFires(p, recs, Some(cut))
    ensures Stands(p, recs', whole)
  {
    hide SomeFires, AllRefuse;
    FiresNotRefused(p, recs, recs', cut, whole);
    if !whole.partial { MatchedSurvives(p, recs, recs', Some(cut), Some(whole)); }
  }

  lemma FiresNotRefused(p: Equals, recs: Records, recs': Records, cut: Records, whole: Records)
    requires Fragment(cut, whole) && Extends(recs', recs) && SomeFires(p, recs, Some(cut))
    ensures !AllRefuse(p, recs', Some(whole))
  {
    hide Candidate, Answer, NameOf, Undecided, Fragment;
    var i :| 0 <= i < |recs.items| && Candidate(p, recs.items[i]) && Answer(Some(cut), NameOf(recs.items[i])).status == Matched;
    assert recs'.items[i] == recs.items[i];
    FragmentAnswer(whole, cut, NameOf(recs.items[i]));
  }

  lemma RefusedNotFires(p: Equals, recs: Records, cut: Records, whole: Records)
    requires Fragment(cut, whole) && AllRefuse(p, recs, Some(cut))
    ensures !SomeFires(p, recs, Some(whole))
  {
    hide Candidate, Answer, NameOf, Undecided, Fragment;
    forall i | 0 <= i < |recs.items| && Candidate(p, recs.items[i])
      ensures Answer(Some(whole), NameOf(recs.items[i])).status != Matched
    {
      FragmentAnswer(whole, cut, NameOf(recs.items[i]));
    }
  }

  lemma StatusCut(status: string, j: nat, mark: string)
    requires j < |status| && status[j] == '\n' && CutMark(mark)
    ensures Extends(Typed(StatusRow, status), Typed(StatusRow, Truncated(status, j, mark)))
  {
    hide Lines, RecordsOf;
    assert status == status[..j] + "\n" + status[j + 1..];
    TypedAppended(StatusRow, status[..j], status[j + 1..]);
    TypedAppended(StatusRow, status[..j], mark);
    MarkLines(mark);
    MarkKept(mark);
    NoRecord(StatusRow, mark);
  }

  /** Whatever the whole listing is, a cut never turns an account's decided answer into the opposite one. */
  lemma CutNeverContradicts(passwd: string, k: nat, mark: string, name: string)
    requires k <= |passwd| && CutMark(mark)
    ensures var cut, whole := Answer(Some(Typed(AccountRow, Truncated(passwd, k, mark))), name), Answer(Some(Typed(AccountRow, passwd)), name);
      cut.status != NotAssessed ==> whole == cut || whole == Verdict(NotAssessed, "account-line-cut")
  {
    hide Typed, Answer;
    TruncatedFragment(AccountRow, passwd, k, mark);
    var whole, cut := Typed(AccountRow, passwd), Typed(AccountRow, Truncated(passwd, k, mark));
    if Answer(Some(cut), name).status != NotAssessed { FragmentAnswer(whole, cut, name); }
  }
}
