/** Which shells refuse a login and which give one, from the text of /etc/passwd to the verdict (shells.go, join.go). */
module LoginShells {
  import opened Options
  import opened Text
  import opened Captures
  import opened Rules
  import opened AccountJoin
  import opened CutCaptures
  import opened LostLines
  import opened Evaluation

  /** The full paths that refuse a login or run one fixed command. */
  predicate Refusing(t: string) {
    t == "/usr/sbin/nologin" || t == "/sbin/nologin" || t == "/usr/bin/nologin" ||
    t == "/bin/false" || t == "/usr/bin/false" || t == "/bin/true" || t == "/usr/bin/true" || t == "/dev/null" ||
    t == "/bin/sync" || t == "/usr/bin/sync" || t == "/sbin/shutdown" || t == "/usr/sbin/shutdown" || t == "/sbin/halt" || t == "/usr/sbin/halt"
  }

  /** The names of interactive shells. */
  predicate ShellName(b: string) {
    b == "sh" || b == "bash" || b == "dash" || b == "zsh" || b == "ksh" || b == "mksh" || b == "fish" ||
    b == "tcsh" || b == "csh" || b == "ash" || b == "busybox" || b == "rbash" || b == "git-shell"
  }

  lemma RefusesExactly(s: string)
    ensures RefusesLogin(s) <==> Refusing(TrimSpace(s))
  {
    hide TrimSpace;
  }

  lemma NamesExactly(b: string)
    ensures b in INTERACTIVE <==> ShellName(b)
    ensures ShellName(b) ==> b != "" && '/' !in b
  {
  }

  predicate Slashes(s: string) { forall i :: 0 <= i < |s| ==> s[i] == '/' }

  /** The path names an interactive shell: one of the names, after a slash or nothing, before slashes or nothing. */
  predicate NamedBy(t: string, pre: string, b: string, post: string) {
    t == pre + b + post && ShellName(b) && (pre == "" || pre[|pre| - 1] == '/') && Slashes(post)
  }

  lemma {:induction false} TrimmedSlashes(t: string)
    ensures TrimSlashes(t) <= t && Slashes(t[|TrimSlashes(t)|..])
    ensures TrimSlashes(t) != "" ==> TrimSlashes(t)[|TrimSlashes(t)| - 1] != '/'
  {
    if t != "" && t[|t| - 1] == '/' { TrimmedSlashes(t[..|t| - 1]); }
  }

  lemma {:induction false} SlashesTrimmed(s: string, post: string)
    requires s != "" && s[|s| - 1] != '/' && Slashes(post)
    ensures TrimSlashes(s + post) == s
  {
    if post == "" {
      assert s + post == s;
    } else {
      assert (s + post)[..|s + post| - 1] == s + post[..|post| - 1];
      SlashesTrimmed(s, post[..|post| - 1]);
    }
  }

  lemma BaseOfNamed(pre: string, b: string, post: string)
    requires b != "" && '/' !in b && (pre == "" || pre[|pre| - 1] == '/') && Slashes(post)
    ensures BaseName(pre + b + post) == b
  {
    hide CutLast;
    assert (pre + b)[|pre + b| - 1] == b[|b| - 1];
    SlashesTrimmed(pre + b, post);
    if pre == "" {
      assert pre + b == b;
      NoCutLastOf(b, '/');
    } else {
      CutLastOf(pre[..|pre| - 1], '/', b);
      assert pre[..|pre| - 1] + ['/'] + b == pre + b;
    }
  }

  lemma {:induction false} CutLastParts(s: string, c: char)
    ensures CutLast(s, c) == NoCut ==> c !in s
    ensures CutLast(s, c).CutAt? ==> s == CutLast(s, c).before + [c] + CutLast(s, c).after
  {
    if s != "" && s[|s| - 1] != c {
      CutLastParts(s[..|s| - 1], c);
      assert s == s[..|s| - 1] + [s[|s| - 1]];
    }
  }

  /** Every path is what is before its base name, the base name, and slashes. */
  lemma BaseParts(t: string) returns (pre: string, post: string)
    requires BaseName(t) != "/"
    ensures t == pre + BaseName(t) + post && (pre == "" || pre[|pre| - 1] == '/') && Slashes(post)
  {
    hide CutLast;
    TrimmedSlashes(t);
    var s := TrimSlashes(t);
    CutLastParts(s, '/');
    post := t[|s|..];
    assert t == s + post;
    pre := if CutLast(s, '/').CutAt? then CutLast(s, '/').before + ['/'] else "";
    assert s == pre + BaseName(t);
  }

  lemma InteractiveExactly(s: string)
    ensures InteractiveShell(s) <==> TrimSpace(s) == "" || exists pre, b, post :: NamedBy(TrimSpace(s), pre, b, post)
  {
    hide TrimSpace, BaseName, Slashes;
    var t := TrimSpace(s);
    NamesExactly(BaseName(t));
    if InteractiveShell(s) && t != "" {
      assert BaseName(t) != "/" by { assert !ShellName("/"); }
      var pre, post := BaseParts(t);
      assert NamedBy(t, pre, BaseName(t), post);
    }
    if pre, b, post :| NamedBy(t, pre, b, post) {
      NamesExactly(b);
      BaseOfNamed(pre, b, post);
    }
  }

  lemma RefusingNames(t: string) returns (pre: string, b: string)
    requires Refusing(t)
    ensures t == pre + b && pre != "" && pre[|pre| - 1] == '/'
    ensures b == "nologin" || b == "false" || b == "true" || b == "null" || b == "sync" || b == "shutdown" || b == "halt"
  {
    if t == "/usr/sbin/nologin" { return "/usr/sbin/", "nologin"; }
    if t == "/sbin/nologin" { return "/sbin/", "nologin"; }
    if t == "/usr/bin/nologin" { return "/usr/bin/", "nologin"; }
    if t == "/bin/false" { return "/bin/", "false"; }
    if t == "/usr/bin/false" { return "/usr/bin/", "false"; }
    if t == "/bin/true" { return "/bin/", "true"; }
    if t == "/usr/bin/true" { return "/usr/bin/", "true"; }
    if t == "/dev/null" { return "/dev/", "null"; }
    if t == "/bin/sync" { return "/bin/", "sync"; }
    if t == "/usr/bin/sync" { return "/usr/bin/", "sync"; }
    if t == "/sbin/shutdown" { return "/sbin/", "shutdown"; }
    if t == "/usr/sbin/shutdown" { return "/usr/sbin/", "shutdown"; }
    if t == "/sbin/halt" { return "/sbin/", "halt"; }
    return "/usr/sbin/", "halt";
  }

  /** No shell both refuses logins and gives one. */
  lemma NeverBoth(s: string)
    ensures !(RefusesLogin(s) && InteractiveShell(s))
  {
    hide TrimSpace, BaseName;
    RefusesExactly(s);
    if RefusesLogin(s) {
      var t := TrimSpace(s);
      var pre, b := RefusingNames(t);
      BaseOfNamed(pre, b, "");
      assert pre + b + "" == t;
      NamesExactly(b);
    }
  }

  // ----- from the texts to the verdict -----

  /** The seven fields of an account's line: its name, its uid, its home and its shell are the first, third, sixth and last. */
  lemma AccountFields(f: seq<string>)
    requires |f| == 7 && forall i :: 0 <= i < |f| ==> ':' !in f[i]
    requires var l := Join(f, ':'); !HasPrefix(l, "#") && NoOpening(l)
    ensures AccountRow(Join(f, ':')) == Row(map[NAME := f[0], UID := f[2], HOME := f[5], SHELL := f[6]])
  {
    SplitJoin(f, ':');
    hide Split, Holds, Join;
  }

  /** Any other line: a comment is skipped, a marked one is lost, two words are a name and a uid, and the rest is lost. */
  lemma OtherAccountLines(l: string)
    requires |Split(l, ':')| != 7
    ensures AccountRow(l) ==
      if HasPrefix(l, "#") then Skipped
      else if Holds(l, "[REDACTED") || Holds(l, "[TRUNCATED") || |Fields(l)| != 2 then Bad
      else Row(map[NAME := Fields(l)[0], UID := Fields(l)[1]])
  {
    hide Split, Holds, Fields;
  }

  /** An account is found by its first line, and never by a compat line. */
  lemma FoundExactly(shells: Records, name: string)
    ensures Answer(Some(shells), name) == Verdict(NotAssessed, "account-not-in-passwd") <==>
      (name != "" && (name[0] == '+' || name[0] == '-')) || forall i :: 0 <= i < |shells.items| ==> Get(shells.items[i], NAME) != name
  {
    hide Judge;
    var i := FirstNamed(shells.items, name, 0);
    if i < |shells.items| { JudgeSays(shells.items[i], i == |shells.items| - 1 && shells.partial); }
  }

  lemma JudgeSays(acct: Record, cut: bool)
    ensures Judge(acct, cut).reason != "account-not-in-passwd"
  {
    hide Marked, RefusesLogin, InteractiveShell, TrimSpace;
    if SHELL in acct { assert ("unrecognized-shell:" + TrimSpace(acct[SHELL]))[0] == 'u'; }
    assert |"account-line-cut"| != |"account-not-in-passwd"| && |"shell-unknown"| != |"account-not-in-passwd"|;
  }

  lemma WordName(name: string)
    requires Word(name)
    ensures FieldName(name) && !NisLine(name)
  {
    assert '[' !in name && ':' !in name && '\n' !in name && name[0] != '#';
    NothingHeld(name);
    hide Holds;
  }

  /** An account file of one line. */
  lemma OneAccount(name: string, shell: string)
    requires Word(name) && PlainShell(shell)
    ensures Typed(AccountRow, PasswdLine(name, shell)) == Records([map[NAME := name, UID := "0", HOME := "/", SHELL := shell]], false)
  {
    WordName(name);
    hide AccountRow, MarkerLine, Lines, PasswdLine, FieldName, PlainLine, Typed;
    var l := PasswdLine(name, shell);
    PasswdLineReads(name, shell);
    LinesOfJoin([l]);
    assert Join([l], '\n') == l;
    OneRecordTyped(AccountRow, l, map[NAME := name, UID := "0", HOME := "/", SHELL := shell]);
  }

  lemma OneAnswer(name: string, shell: string)
    requires Word(name) && PlainShell(shell)
    ensures var rec := map[NAME := name, UID := "0", HOME := "/", SHELL := shell];
      Answer(Some(Records([rec], false)), name).status ==
        if RefusesLogin(shell) then NotMatched else if InteractiveShell(shell) then Matched else NotAssessed
  {
    WordName(name);
    hide RefusesLogin, InteractiveShell, Marked, FieldName;
    WrittenNotMarked(name, shell) by { NothingHeld(name); }
    var rec := map[NAME := name, UID := "0", HOME := "/", SHELL := shell];
    assert FirstNamed([rec], name, 0) == 0;
  }

  lemma OneCandidate(p: Equals, name: string, v: string)
    requires Word(name) && Word(v) && p.field == STATUS && EqualFold(p.value, v)
    ensures var r := map[NAME := name, STATUS := v]; Candidate(p, r) && !Undecided(p, r) && AccountJoin.NameOf(r) == name
  {
    Plain(name);
    Plain(v);
    hide TrimSpace, HasMarker, Lower;
  }

  /**
   * One account with the status: the rule matches exactly when its shell is a login shell, and is disproved exactly when it
   * refuses logins.
   */
  lemma ShellDecides(p: Equals, name: string, v: string, shell: string)
    requires Word(name) && Word(v) && p.field == STATUS && EqualFold(p.value, v) && PlainShell(shell)
    ensures var verdict := VerdictOf(WhenJoin(p), name + " " + v, Some(Typed(AccountRow, PasswdLine(name, shell))));
      (verdict.status == Matched <==> exists pre, b, post :: NamedBy(shell, pre, b, post)) &&
      (verdict.status == NotMatched <==> Refusing(shell))
  {
    hide Typed, Answer, Candidate, Undecided, AccountJoin.NameOf, RefusesLogin, InteractiveShell, NamedBy, Refusing, PasswdLine;
    OneAccount(name, shell);
    StatusLine(name, v);
    OneAnswer(name, shell);
    OneCandidate(p, name, v);
    ShellTrimmed(shell);
    RefusesExactly(shell);
    InteractiveExactly(shell);
    NeverBoth(shell);
    OneVerdict(p, map[NAME := name, STATUS := v], name, Some(Typed(AccountRow, PasswdLine(name, shell))));
  }

  lemma ShellTrimmed(shell: string)
    requires PlainShell(shell)
    ensures TrimSpace(shell) == shell
  {
  }

  lemma OneVerdict(p: Equals, r: Record, name: string, shells: Option<Records>)
    requires Candidate(p, r) && !Undecided(p, r) && AccountJoin.NameOf(r) == name
    ensures JoinVerdict(p, Records([r], false), shells).status == Answer(shells, name).status
  {
    hide Candidate, Undecided, Answer, AccountJoin.NameOf;
    var items := [r];
    assert items[..0] == [];
    assert Candidates(p, items) == [r] && UndecidedOutcomes(p, items) == [];
    var recs := Records(items, false);
    assert SomeFires(p, recs, shells) <==> Answer(shells, name).status == Matched;
    assert AllRefuse(p, recs, shells) <==> Answer(shells, name).status == NotMatched;
  }
}
