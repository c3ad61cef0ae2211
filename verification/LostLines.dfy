/**
 * What lines lost inside the account file, redacted or not recognised, mean for an account's answer: exactly when it
 * stands whatever those lines were.
 */
module LostLines {
  import opened Options
  import opened Text
  import opened Captures
  import opened Rules
  import opened AccountJoin

  predicate Lost(l: string) { Loses(AccountRow, l) }

  /** ls' is ls with any lines, or none, where its lost lines were. */
  ghost predicate Restores(ls: seq<string>, ls': seq<string>) {
    if ls == [] then ls' == []
    else if Lost(ls[0]) then exists n | 0 <= n <= |ls'| :: Restores(ls[1..], ls'[n..])
    else ls' != [] && ls'[0] == ls[0] && Restores(ls[1..], ls'[1..])
  }

  /** The line gives the account of that name its record. */
  predicate Names(l: string, name: string) {
    RecordOf(AccountRow, l) != [] && Get(RecordOf(AccountRow, l)[0], NAME) == name
  }

  /** The account's own line: the first that names it, |ls| when none does. */
  function OwnLine(ls: seq<string>, name: string): (i: nat)
    ensures i <= |ls|
    ensures i < |ls| ==> Names(ls[i], name)
    ensures forall k :: 0 <= k < i ==> !Names(ls[k], name)
  {
    if ls == [] || Names(ls[0], name) then 0 else OwnLine(ls[1..], name) + 1
  }

  function Listing(ls: seq<string>): Records {
    Records(RecordsOf(AccountRow, ls), exists i :: 0 <= i < |ls| && Lost(ls[i]))
  }

  function AnswerIn(raw: string, name: string): Verdict { Answer(Some(Typed(AccountRow, raw)), name) }

  // ----- lines and records -----

  lemma {:induction false} NoneNamed(ls: seq<string>, name: string)
    requires forall k :: 0 <= k < |ls| ==> !Names(ls[k], name)
    ensures forall r :: r in RecordsOf(AccountRow, ls) ==> Get(r, NAME) != name
  {
    hide RecordOf;
    if ls != [] {
      var rest, l := ls[..|ls| - 1], ls[|ls| - 1];
      assert forall k :: 0 <= k < |rest| ==> rest[k] == ls[k];
      NoneNamed(rest, name);
      OneRecord(l);
    }
  }

  lemma OneRecord(l: string)
    ensures |RecordOf(AccountRow, l)| <= 1 && RecordsOf(AccountRow, [l]) == RecordOf(AccountRow, l)
    ensures Lost(l) ==> RecordOf(AccountRow, l) == []
  {
    hide AccountRow, MarkerLine;
    assert [l][..0] == [];
  }

  lemma RecordsJoined(row: string -> Row, a: seq<string>, b: seq<string>, c: seq<string>)
    ensures RecordsOf(row, a + (b + c)) == RecordsOf(row, a) + (RecordsOf(row, b) + RecordsOf(row, c))
  {
    hide RecordsOf;
    RecordsConcat(row, b, c);
    RecordsConcat(row, a, b + c);
  }

  lemma RecordsAround(ls: seq<string>, o: nat)
    requires o < |ls|
    ensures RecordsOf(AccountRow, ls) ==
      RecordsOf(AccountRow, ls[..o]) + (RecordOf(AccountRow, ls[o]) + RecordsOf(AccountRow, ls[o + 1..]))
  {
    hide *;
    OneRecord(ls[o]);
    Around(ls, o);
    var a, b, c := ls[..o], [ls[o]], ls[o + 1..];
    RecordsJoined(AccountRow, a, b, c);
    assert RecordsOf(AccountRow, ls) == RecordsOf(AccountRow, a + (b + c));
  }

  lemma Around(ls: seq<string>, o: nat)
    requires o < |ls|
    ensures ls == ls[..o] + ([ls[o]] + ls[o + 1..])
  {
    assert ls == ls[..o] + ls[o..];
    assert ls[o..] == [ls[o]] + ls[o + 1..];
  }

  /** The record a lookup of the name finds is its own line's. */
  lemma OwnRecord(ls: seq<string>, name: string)
    requires OwnLine(ls, name) < |ls| && !NisLine(name)
    ensures var o, items := OwnLine(ls, name), RecordsOf(AccountRow, ls);
      var i := |RecordsOf(AccountRow, ls[..o])|;
      i < |items| && FirstNamed(items, name, 0) == i && items[i] == RecordOf(AccountRow, ls[o])[0] &&
      |items| == i + 1 + |RecordsOf(AccountRow, ls[o + 1..])|
  {
    var o, items := OwnLine(ls, name), RecordsOf(AccountRow, ls);
    var i := |RecordsOf(AccountRow, ls[..o])|;
    OneRecord(ls[o]);
    RecordsAround(ls, o);
    NoneNamed(ls[..o], name);
    hide RecordOf, RecordsOf, Lost, OwnLine;
    JoinedAt(RecordsOf(AccountRow, ls[..o]), RecordOf(AccountRow, ls[o]), RecordsOf(AccountRow, ls[o + 1..]));
    FirstNamedIs(items, name, i);
  }

  lemma JoinedAt(before: seq<Record>, own: seq<Record>, after: seq<Record>)
    requires |own| == 1
    ensures var s := before + (own + after);
      |s| == |before| + 1 + |after| && s[|before|] == own[0] && forall j :: 0 <= j < |before| ==> s[j] == before[j]
  {
  }

  lemma FirstNamedIs(items: seq<Record>, name: string, i: nat)
    requires i < |items| && Get(items[i], NAME) == name && !NisLine(name) && forall j :: 0 <= j < i ==> Get(items[j], NAME) != name
    ensures FirstNamed(items, name, 0) == i
  {
    hide Get;
  }

  lemma HasOwnLine(ls: seq<string>, name: string)
    requires FirstNamed(RecordsOf(AccountRow, ls), name, 0) < |RecordsOf(AccountRow, ls)|
    ensures OwnLine(ls, name) < |ls|
  {
    hide RecordsOf, Names;
    if OwnLine(ls, name) == |ls| { NoneNamed(ls, name); }
  }

  // ----- what restoring keeps -----

  lemma {:induction false} RestoresPrefix(ls: seq<string>, ls': seq<string>, n: nat)
    requires Restores(ls, ls') && n <= |ls| && forall k :: 0 <= k < n ==> !Lost(ls[k])
    ensures n <= |ls'| && ls'[..n] == ls[..n] && Restores(ls[n..], ls'[n..])
  {
    hide Lost;
    if n == 0 {
      assert ls[0..] == ls && ls'[0..] == ls';
    } else {
      RestoresPrefix(ls[1..], ls'[1..], n - 1);
      assert ls[1..][n - 1..] == ls[n..] && ls'[1..][n - 1..] == ls'[n..];
      assert ls[..n] == [ls[0]] + ls[1..][..n - 1] && ls'[..n] == [ls'[0]] + ls'[1..][..n - 1];
    }
  }

  /** No record is lost by restoring lines. */
  lemma {:induction false} RestoresRecords(ls: seq<string>, ls': seq<string>)
    requires Restores(ls, ls')
    ensures |RecordsOf(AccountRow, ls)| <= |RecordsOf(AccountRow, ls')|
  {
    hide RecordOf, RecordsOf;
    if ls != [] {
      OneRecord(ls[0]);
      RecordsConcat(AccountRow, [ls[0]], ls[1..]);
      assert ls == [ls[0]] + ls[1..];
      hide Lost;
      if Lost(ls[0]) {
        var n :| 0 <= n <= |ls'| && Restores(ls[1..], ls'[n..]);
        RestoresRecords(ls[1..], ls'[n..]);
        RecordsConcat(AccountRow, ls'[..n], ls'[n..]);
        assert ls' == ls'[..n] + ls'[n..];
      } else {
        RestoresRecords(ls[1..], ls'[1..]);
        RecordsConcat(AccountRow, [ls'[0]], ls'[1..]);
        assert ls' == [ls'[0]] + ls'[1..];
      }
    } else {
      assert ls == ls';
    }
  }

  lemma {:induction false} RestoresSelf(ls: seq<string>)
    ensures Restores(ls, ls)
  {
    hide Lost;
    if ls != [] { RestoresSelf(ls[1..]); }
  }

  lemma {:induction false} RestoresOne(ls: seq<string>, m: nat, l: string)
    requires m < |ls| && Lost(ls[m])
    ensures Restores(ls, ls[..m] + [l] + ls[m + 1..])
  {
    hide Lost;
    var ls' := ls[..m] + [l] + ls[m + 1..];
    if m == 0 {
      RestoresSelf(ls[1..]);
      assert ls'[1..] == ls[1..];
    } else {
      RestoresOne(ls[1..], m - 1, l);
      assert ls'[1..] == ls[1..][..m - 1] + [l] + ls[1..][m..];
      if Lost(ls[0]) { assert Restores(ls[1..], ls'[1..]); }
    }
  }

  // ----- the answer stands when nothing is lost before the account's line -----

  lemma StandsWhole(ls: seq<string>, ls': seq<string>, name: string)
    requires Restores(ls, ls') && Answer(Some(Listing(ls)), name).status != NotAssessed
    requires forall k :: 0 <= k < OwnLine(ls, name) ==> !Lost(ls[k])
    ensures Answer(Some(Listing(ls')), name) == Answer(Some(Listing(ls)), name)
  {
    hide RecordsOf, RecordOf, Lost, RefusesLogin, InteractiveShell, Marked, Restores, Names;
    HasOwnLine(ls, name);
    var o := OwnLine(ls, name);
    OwnNotLost(ls[o], name);
    RestoresPrefix(ls, ls', o + 1);
    assert ls'[..o + 1][o] == ls'[o] && forall k :: 0 <= k < o ==> ls'[k] == ls[..o + 1][k];
    assert OwnLine(ls', name) == o;
    assert ls'[..o] == ls[..o] by { assert ls'[..o] == ls'[..o + 1][..o] && ls[..o] == ls[..o + 1][..o]; }
    OwnRecord(ls, name);
    OwnRecord(ls', name);
    RestoresRecords(ls[o + 1..], ls'[o + 1..]);
    if !Listing(ls).partial { RestoresNone(ls, ls'); }
  }

  lemma OwnNotLost(l: string, name: string)
    requires Names(l, name)
    ensures !Lost(l)
  {
    hide AccountRow, MarkerLine;
  }

  lemma RestoresNone(ls: seq<string>, ls': seq<string>)
    requires Restores(ls, ls') && forall k :: 0 <= k < |ls| ==> !Lost(ls[k])
    ensures ls' == ls
  {
    hide Lost;
    RestoresPrefix(ls, ls', |ls|);
    assert ls[|ls|..] == [];
    assert Restores([], ls'[|ls|..]);
  }

  // ----- and not otherwise -----

  /** A line of /etc/passwd for the account, with that shell. */
  function PasswdLine(name: string, shell: string): string { name + ":x:0:0::/:" + shell }

  lemma {:induction false} SplitFields(name: string, shell: string)
    requires ':' !in name && ':' !in shell
    ensures Split(PasswdLine(name, shell), ':') == [name, "x", "0", "0", "", "/", shell]
  {
    var parts := [name, "x", "0", "0", "", "/", shell];
    assert forall i :: 0 <= i < |parts| ==> ':' !in parts[i];
    SplitJoin(parts, ':');
    JoinFields(name, shell);
  }

  lemma JoinFields(name: string, shell: string)
    ensures Join([name, "x", "0", "0", "", "/", shell], ':') == PasswdLine(name, shell)
  {
    var a := ["/", shell];
    assert a[1..] == [shell];
    assert Join(a, ':') == "/:" + shell;
    var b := ["", "/", shell];
    assert b[1..] == a;
    assert Join(b, ':') == ":/:" + shell;
    var c := ["0", "", "/", shell];
    assert c[1..] == b;
    assert Join(c, ':') == "0::/:" + shell;
    var d := ["0", "0", "", "/", shell];
    assert d[1..] == c;
    assert Join(d, ':') == "0:0::/:" + shell;
    var e := ["x", "0", "0", "", "/", shell];
    assert e[1..] == d;
    assert Join(e, ':') == "x:0:0::/:" + shell;
    var f := [name, "x", "0", "0", "", "/", shell];
    assert f[1..] == e;
  }

  /** A shell as /etc/passwd writes it: letters, slashes and hyphens. */
  predicate PlainShell(s: string) { s != "" && forall i :: 0 <= i < |s| ==> 'a' <= s[i] <= 'z' || s[i] == '/' || s[i] == '-' }

  const SH := "/bin/sh"
  const FALSE := "/bin/false"

  lemma ShellFacts()
    ensures RefusesLogin(FALSE) && !RefusesLogin(SH) && InteractiveShell(SH)
  {
    assert TrimSpace(FALSE) == FALSE && TrimSpace(SH) == SH;
    assert TrimSlashes(SH) == SH;
    CutLastOf("/bin", '/', "sh");
    assert "/bin" + ['/'] + "sh" == SH;
  }

  // ----- lines as text -----

  lemma {:induction false} TrimLeftLast(s: string)
    requires s != "" && !Blank(s[|s| - 1])
    ensures TrimLeft(s) != "" && TrimLeft(s)[|TrimLeft(s)| - 1] == s[|s| - 1]
  {
    if Blank(s[0]) { TrimLeftLast(s[1..]); }
  }

  /** A line that does not end in a blank is kept as it is. */
  lemma KeptPlain(s: string)
    requires s != "" && !Blank(s[|s| - 1])
    ensures Kept(s) == [s]
  {
    TrimLeftLast(s);
    assert TrimRight(TrimLeft(s)) == TrimLeft(s);
  }

  predicate PlainLine(l: string) { '\n' !in l && Kept(l) == [l] }

  lemma {:induction false} KeptAllPlain(parts: seq<string>)
    requires forall i :: 0 <= i < |parts| ==> '\n' !in parts[i]
    ensures forall i :: 0 <= i < |KeptAll(parts)| ==> PlainLine(KeptAll(parts)[i])
  {
    if parts != [] {
      KeptAllPlain(parts[..|parts| - 1]);
      TrimReturnsPart(parts[|parts| - 1]);
    }
  }

  lemma LinesPlain(raw: string)
    ensures forall i :: 0 <= i < |Lines(raw)| ==> PlainLine(Lines(raw)[i])
  {
    KeptAllPlain(Split(raw, '\n'));
  }

  lemma {:induction false} KeptAllSame(ls: seq<string>)
    requires forall i :: 0 <= i < |ls| ==> PlainLine(ls[i])
    ensures KeptAll(ls) == ls
  {
    hide Kept;
    if ls != [] {
      KeptAllSame(ls[..|ls| - 1]);
      assert ls == ls[..|ls| - 1] + [ls[|ls| - 1]];
    }
  }

  /** Lines written one after another are read back as those lines. */
  lemma LinesOfJoin(ls: seq<string>)
    requires ls != [] && forall i :: 0 <= i < |ls| ==> PlainLine(ls[i])
    ensures Lines(Join(ls, '\n')) == ls
  {
    hide Kept, KeptAll;
    SplitJoin(ls, '\n');
    KeptAllSame(ls);
  }

  // ----- markers -----

  lemma {:induction false} TrimLeftPart(s: string) returns (a: nat)
    ensures a <= |s| && TrimLeft(s) == s[a..]
  {
    if s != "" && Blank(s[0]) {
      a := TrimLeftPart(s[1..]);
      assert s[1..][a..] == s[a + 1..];
      a := a + 1;
    } else {
      a := 0;
    }
  }

  /** A marker line holds its marker's opening. */
  lemma MarkerHeld(l: string)
    requires MarkerLine(l)
    ensures Holds(l, "[REDACTED") || Holds(l, "[TRUNCATED")
  {
    var a := TrimLeftPart(l);
    TrimRightPart(TrimLeft(l));
    hide TrimLeft, TrimRight;
    var t := TrimSpace(l);
    var m := if HasPrefix(t, "[TRUNCATED:") then "[TRUNCATED" else "[REDACTED";
    assert t[..|m|] == m;
    assert l[a..][..|m|] == m;
    assert HoldsAt(l, m, a);
  }

  lemma HeldChar(s: string, m: string, i: nat, k: nat)
    requires HoldsAt(s, m, i) && i <= k < i + |m|
    ensures s[k] in m
  {
    assert s[i..i + |m|][k - i] == s[k];
  }

  /** What an account's line must not hold lies inside its name, or nowhere. */
  lemma HeldInName(name: string, shell: string, m: string)
    requires m == "[REDACTED" || m == "[TRUNCATED"
    requires '[' !in shell && Holds(PasswdLine(name, shell), m)
    ensures Holds(name, m)
  {
    var l := PasswdLine(name, shell);
    var i: nat :| i <= |l| && HoldsAt(l, m, i);
    assert l[i..i + |m|][0] == '[' && l[i] == '[';
    var tail := ":x:0:0::/:";
    assert l == name + tail + shell;
    assert i < |name|;
    if i + |m| > |name| { HeldChar(l, m, i, |name|); }
    assert l[i..i + |m|] == name[i..i + |m|];
    assert HoldsAt(name, m, i);
  }

  predicate NoOpening(s: string) { !Holds(s, "[REDACTED") && !Holds(s, "[TRUNCATED") }

  /** A name a line of /etc/passwd can hold and a lookup can find. */
  predicate FieldName(name: string) { ':' !in name && '\n' !in name && NoOpening(name) && !HasPrefix(name, "#") }

  /** The account's written line is one line of text that the parser reads as its record. */
  lemma PasswdLineReads(name: string, shell: string)
    requires FieldName(name) && PlainShell(shell)
    ensures var l := PasswdLine(name, shell);
      PlainLine(l) && !MarkerLine(l) && AccountRow(l) == Row(map[NAME := name, UID := "0", HOME := "/", SHELL := shell])
  {
    var l := PasswdLine(name, shell);
    SplitFields(name, shell);
    KeptPlain(l);
    assert NoOpening(l) by {
      if Holds(l, "[REDACTED") { HeldInName(name, shell, "[REDACTED"); }
      if Holds(l, "[TRUNCATED") { HeldInName(name, shell, "[TRUNCATED"); }
    }
    if MarkerLine(l) { MarkerHeld(l); }
    hide Holds, Split, MarkerLine, Kept;
    assert !HasPrefix(l, "#") by { assert name == "" ==> l[0] == ':'; }
  }

  lemma NotHeld(s: string, m: string)
    requires '[' !in s && m != "" && m[0] == '['
    ensures !Holds(s, m)
  {
    forall i: nat | i <= |s| ensures !HoldsAt(s, m, i) { assert i + |m| <= |s| ==> s[i..i + |m|][0] == s[i]; }
  }

  lemma WrittenNotMarked(name: string, shell: string)
    requires NoOpening(name) && PlainShell(shell)
    ensures !Marked(map[NAME := name, UID := "0", HOME := "/", SHELL := shell])
  {
    var rec := map[NAME := name, UID := "0", HOME := "/", SHELL := shell];
    MarkerHasOpening(name);
    NothingHeld("0");
    NothingHeld("/");
    NothingHeld(shell);
    hide Holds, HasMarker;
    forall f | f in rec ensures NoOpening(rec[f]) && !HasMarker(rec[f]) {
      assert f == NAME || f == UID || f == HOME || f == SHELL;
    }
  }

  lemma NothingHeld(v: string)
    requires '[' !in v
    ensures NoOpening(v) && !HasMarker(v)
  {
    NotHeld(v, "[REDACTED");
    NotHeld(v, "[TRUNCATED");
    NotHeld(v, "[REDACTED:");
    NotHeld(v, "[TRUNCATED:");
    hide Holds;
  }

  lemma MarkerHasOpening(s: string)
    requires NoOpening(s)
    ensures !HasMarker(s)
  {
    forall i: nat, m: string | i <= |s| && (m == "[REDACTED" || m == "[TRUNCATED") ensures !HoldsAt(s, m + ":", i) {
      assert !HoldsAt(s, m, i);
      assert i + |m| + 1 <= |s| ==> s[i..i + |m| + 1][..|m|] == s[i..i + |m|];
      assert (m + ":")[..|m|] == m;
    }
    assert "[REDACTED" + ":" == "[REDACTED:" && "[TRUNCATED" + ":" == "[TRUNCATED:";
  }

  // ----- the flip -----

  /** The shell whose answer is the other one. */
  function OtherShell(s: Status): string { if s == Matched then FALSE else SH }

  /** A line for the account put before its own decides, and decides by its own shell. */
  lemma EarlierLineDecides(ls: seq<string>, m: nat, name: string, shell: string)
    requires m < OwnLine(ls, name) < |ls| && !NisLine(name) && FieldName(name) && (shell == SH || shell == FALSE)
    ensures Answer(Some(Listing(ls[..m] + [PasswdLine(name, shell)] + ls[m + 1..])), name) ==
      Verdict(if shell == SH then Matched else NotMatched, "")
  {
    hide RecordsOf, RecordOf, OwnLine, Names, Lost, RefusesLogin, InteractiveShell, Marked, MarkerLine, AccountRow, PasswdLine, FieldName, FirstNamed;
    var l, o := PasswdLine(name, shell), OwnLine(ls, name);
    var ls' := ls[..m] + [l] + ls[m + 1..];
    Written(name, shell);
    assert ls'[m] == l && forall k :: 0 <= k < m ==> ls'[k] == ls[k];
    OwnLineAt(ls', name, m);
    OwnRecord(ls', name);
    assert ls'[m + 1..] == ls[m + 1..];
    assert ls[m + 1..][o - m - 1] == ls[o];
    LaterRecord(ls[m + 1..], name, o - m - 1);
  }

  lemma OwnLineAt(ls: seq<string>, name: string, m: nat)
    requires m < |ls| && Names(ls[m], name) && forall k :: 0 <= k < m ==> !Names(ls[k], name)
    ensures OwnLine(ls, name) == m
  {
    hide Names;
  }

  /** The written line names the account, and its record is decided by its shell. */
  lemma Written(name: string, shell: string)
    requires FieldName(name) && (shell == SH || shell == FALSE)
    ensures var l := PasswdLine(name, shell);
      Names(l, name) && Judge(RecordOf(AccountRow, l)[0], false) == Verdict(if shell == SH then Matched else NotMatched, "")
  {
    hide RefusesLogin, InteractiveShell, Marked, MarkerLine, AccountRow, PasswdLine, FieldName;
    PasswdLineReads(name, shell);
    NamesOpening(name);
    WrittenNotMarked(name, shell);
    ShellFacts();
  }

  lemma NamesOpening(name: string)
    requires FieldName(name)
    ensures NoOpening(name)
  {
  }

  lemma LaterRecord(ls: seq<string>, name: string, o: nat)
    requires o < |ls| && Names(ls[o], name)
    ensures |RecordsOf(AccountRow, ls)| > 0
  {
    hide RecordOf, RecordsOf;
    RecordsAround(ls, o);
  }

  /** A decided answer is about a name that a line of the file can hold. */
  lemma DecidedName(ls: seq<string>, name: string)
    requires Answer(Some(Listing(ls)), name).status != NotAssessed
    requires forall k :: 0 <= k < |ls| ==> PlainLine(ls[k])
    ensures OwnLine(ls, name) < |ls| && !NisLine(name) && FieldName(name)
  {
    hide RecordsOf, Lost, RefusesLogin, InteractiveShell, Kept, MarkerLine;
    HasOwnLine(ls, name);
    var o := OwnLine(ls, name);
    OwnRecord(ls, name);
    var acct := RecordOf(AccountRow, ls[o])[0];
    assert SHELL in acct && !Marked(acct) && acct == RecordsOf(AccountRow, ls)[FirstNamed(RecordsOf(AccountRow, ls), name, 0)];
    FieldsOf(ls[o], name);
  }

  lemma FieldsOf(l: string, name: string)
    requires Names(l, name) && SHELL in RecordOf(AccountRow, l)[0] && '\n' !in l && !Marked(RecordOf(AccountRow, l)[0])
    ensures FieldName(name)
  {
    hide Holds, MarkerLine, Fields;
    var f := Split(l, ':');
    var acct := RecordOf(AccountRow, l)[0];
    assert |f| == 7 && acct[NAME] == f[0] == name;
    FirstPart(l, ':');
    hide Split;
    assert forall i :: 0 <= i < |name| ==> name[i] == l[i];
  }

  lemma {:induction false} FirstPart(l: string, c: char)
    ensures Split(l, c)[0] <= l
  {
    if l != "" && l[0] != c { FirstPart(l[1..], c); }
  }

  /**
   * Exactly when a decided answer stands whatever the lost lines were: when no line is lost before the account's own. The
   * caller sees this on the capture. (A decided answer is never about the last line of a partial listing, which may be
   * cut: the code withholds that one.) Otherwise the account's other answer fits in the place of the lost line.
   */
  lemma LostLinesExactly(raw: string, name: string)
    requires AnswerIn(raw, name).status != NotAssessed
    ensures (forall raw' :: Restores(Lines(raw), Lines(raw')) ==> AnswerIn(raw', name) == AnswerIn(raw, name)) <==>
      (forall k :: 0 <= k < OwnLine(Lines(raw), name) ==> !Lost(Lines(raw)[k]))
  {
    hide Lines, Answer, Restores, Lost, OwnLine, RecordsOf;
    var ls := Lines(raw);
    assert Typed(AccountRow, raw) == Listing(ls) by { TypedIs(raw); }
    if forall k :: 0 <= k < OwnLine(ls, name) ==> !Lost(ls[k]) {
      forall raw' | Restores(ls, Lines(raw')) ensures AnswerIn(raw', name) == AnswerIn(raw, name) {
        TypedIs(raw');
        StandsWhole(ls, Lines(raw'), name);
      }
    } else {
      var m :| 0 <= m < OwnLine(ls, name) && Lost(ls[m]);
      var raw' := FlippedAt(raw, name, m);
    }
  }

  lemma TypedIs(raw: string)
    ensures Typed(AccountRow, raw) == Listing(Lines(raw))
  {
    hide Lines;
  }

  /** For every lost line before the account's own: a text in its place that turns the answer into the opposite one. */
  lemma FlippedAt(raw: string, name: string, m: nat) returns (raw': string)
    requires AnswerIn(raw, name).status != NotAssessed && m < OwnLine(Lines(raw), name) && Lost(Lines(raw)[m])
    ensures Restores(Lines(raw), Lines(raw'))
    ensures AnswerIn(raw', name).status == if AnswerIn(raw, name).status == Matched then NotMatched else Matched
  {
    hide Lines, Answer, Restores, Lost, OwnLine, RecordsOf, PasswdLine, PlainLine, AccountRow, FieldName;
    var ls, shell := Lines(raw), OtherShell(AnswerIn(raw, name).status);
    TypedIs(raw);
    LinesPlain(raw);
    DecidedName(ls, name);
    var l := PasswdLine(name, shell);
    var ls' := ls[..m] + [l] + ls[m + 1..];
    PasswdLineReads(name, shell);
    RestoresOne(ls, m, l);
    EarlierLineDecides(ls, m, name, shell);
    raw' := Join(ls', '\n');
    assert forall i :: 0 <= i < |ls'| ==> PlainLine(ls'[i]);
    LinesOfJoin(ls');
    TypedIs(raw');
    assert FALSE != SH;
  }

  /** For one: a marker line, as a redaction leaves it, then two accounts with login shells. The first one's login stands in the capture, and an earlier line of that name that refuses logins may be what the marker hides. */
  lemma RedactedAccountFlips(mark: string, name: string, other: string)
    requires PlainLine(mark) && MarkerLine(mark) && FieldName(name) && FieldName(other) && !NisLine(name) && other != name
    ensures var raw := Join([mark, PasswdLine(name, SH), PasswdLine(other, SH)], '\n');
      var whole := Join([PasswdLine(name, FALSE), PasswdLine(name, SH), PasswdLine(other, SH)], '\n');
      AnswerIn(raw, name).status == Matched && AnswerIn(whole, name).status == NotMatched && Restores(Lines(raw), Lines(whole))
  {
    hide Lines, Answer, Restores, OwnLine, RecordsOf, PasswdLine, PlainLine, AccountRow, FieldName, MarkerLine, NisLine, Join, Listing, Names;
    assert Lost(mark);
    hide Lost;
    var a, b := PasswdLine(name, SH), PasswdLine(other, SH);
    var ls := [mark, a, b];
    PasswdLineReads(name, SH);
    PasswdLineReads(name, FALSE);
    PasswdLineReads(other, SH);
    var raw := Join(ls, '\n');
    LinesOfJoin(ls);
    TypedIs(raw);
    PairAnswers(mark, name, other);
    assert OwnLine(ls, name) == 1 && Lost(mark);
    var ls' := [PasswdLine(name, FALSE), a, b];
    assert ls' == ls[..0] + [PasswdLine(name, FALSE)] + ls[1..];
    RestoresOne(ls, 0, PasswdLine(name, FALSE));
    EarlierLineDecides(ls, 0, name, FALSE);
    LinesOfJoin(ls');
    TypedIs(Join(ls', '\n'));
  }

  lemma PairAnswers(mark: string, name: string, other: string)
    requires PlainLine(mark) && MarkerLine(mark) && FieldName(name) && FieldName(other) && !NisLine(name) && other != name
    ensures var ls := [mark, PasswdLine(name, SH), PasswdLine(other, SH)];
      OwnLine(ls, name) == 1 && Answer(Some(Listing(ls)), name).status == Matched
  {
    hide RecordsOf, RefusesLogin, InteractiveShell, Marked, MarkerLine, AccountRow, PasswdLine, FieldName;
    var a, b := PasswdLine(name, SH), PasswdLine(other, SH);
    var ls := [mark, a, b];
    assert Lost(mark);
    OneRecord(mark);
    PasswdLineReads(name, SH);
    PasswdLineReads(other, SH);
    var rec := map[NAME := name, UID := "0", HOME := "/", SHELL := SH];
    assert RecordOf(AccountRow, a) == [rec];
    assert ls[1] == a && Names(ls[1], name) && !Names(ls[0], name);
    assert OwnLine(ls, name) == 1;
    OwnRecord(ls, name);
    assert Names(b, other) && ls[2..][0] == b;
    LaterRecord(ls[2..], other, 0);
    NamesOpening(name);
    WrittenNotMarked(name, SH);
    ShellFacts();
  }
}
