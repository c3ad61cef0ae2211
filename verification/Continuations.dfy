/**
 * Which rules' tests are kept by continuation, so that a match on a capture cut inside a line stands: any output at all,
 * and a pending update of dnf or apt (rule.go, typed.go).
 */
module Continuations {
  import opened Text
  import opened Captures
  import opened Rules
  import opened CutCaptures

  const TRUNCATED := "[TRUNCATED:"
  const REDACTED := "[REDACTED:"

  predicate NonBlank(s: string) { exists i :: 0 <= i < |s| && !Blank(s[i]) }

  // ----- what of a line its continuation keeps -----

  lemma {:induction false} TrimLeftMore(l: string, more: string)
    requires NonBlank(l)
    ensures TrimLeft(l + more) == TrimLeft(l) + more && TrimLeft(l) != "" && NonBlank(TrimLeft(l))
  {
    if Blank(l[0]) {
      assert (l + more)[1..] == l[1..] + more;
      var i :| 0 <= i < |l| && !Blank(l[i]);
      assert l[1..][i - 1] == l[i];
      TrimLeftMore(l[1..], more);
    } else {
      assert (l + more)[0] == l[0];
    }
  }

  lemma {:induction false} TrimRightInk(s: string)
    requires NonBlank(s)
    ensures TrimRight(s) != ""
  {
    if Blank(s[|s| - 1]) {
      var i :| 0 <= i < |s| && !Blank(s[i]);
      assert s[..|s| - 1][i] == s[i];
      TrimRightInk(s[..|s| - 1]);
    }
  }

  lemma InkNotTrimmed(s: string)
    requires NonBlank(s)
    ensures TrimSpace(s) != ""
  {
    TrimLeftMore(s, "");
    assert s + "" == s && TrimLeft(s) + "" == TrimLeft(s);
    TrimRightInk(TrimLeft(s));
  }

  lemma {:induction false} TrimmedHasInk(s: string)
    requires TrimSpace(s) != ""
    ensures NonBlank(s)
  {
    if s != "" && Blank(s[0]) {
      TrimmedHasInk(s[1..]);
      var i :| 0 <= i < |s| - 1 && !Blank(s[1..][i]);
      assert s[i + 1] == s[1..][i];
    }
  }

  lemma {:induction false} TrimReturnsGrows(l: string, more: string)
    ensures TrimReturns(l) <= TrimReturns(l + more)
  {
    if more == "" {
      assert l + more == l;
    } else {
      TrimReturnsPart(l);
      var s := l + more;
      assert s[..|s| - 1] == l + more[..|more| - 1];
      TrimReturnsGrows(l, more[..|more| - 1]);
    }
  }

  /** A line with something on it stays a kept line, and what was kept of it stays its beginning. */
  lemma KeptGrows(l: string, more: string)
    requires NonBlank(l)
    ensures Kept(l + more) == [TrimReturns(l + more)] && TrimReturns(l) <= TrimReturns(l + more)
  {
    TrimReturnsGrows(l, more);
    var i :| 0 <= i < |l| && !Blank(l[i]);
    assert (l + more)[i] == l[i];
    InkNotTrimmed(l + more);
    TrimReturnsKeeps(l + more);
  }

  // ----- markers -----

  lemma {:induction false} PrefixTrimRight(s: string, m: string)
    requires m != "" && !Blank(m[|m| - 1])
    ensures m <= TrimRight(s) <==> m <= s
  {
    if s != "" && Blank(s[|s| - 1]) {
      PrefixTrimRight(s[..|s| - 1], m);
      assert m <= s ==> m != s;
    }
  }

  lemma MarkerIs(l: string)
    ensures MarkerLine(l) <==> TRUNCATED <= TrimLeft(l) || REDACTED <= TrimLeft(l)
  {
    PrefixTrimRight(TrimLeft(l), TRUNCATED);
    PrefixTrimRight(TrimLeft(l), REDACTED);
  }

  /** The line may yet become a marker line: it is the start of one. */
  predicate MayBecomeMarker(l: string) { TrimLeft(l) <= TRUNCATED || TrimLeft(l) <= REDACTED }

  lemma PrefixOrNot(s: string, more: string, m: string)
    requires m <= s + more && !(m <= s)
    ensures s <= m
  {
    assert s == (s + more)[..|s|];
    assert |s| < |m|;
    assert m[..|s|] == (s + more)[..|s|];
  }

  lemma MarkerFixed(l: string, more: string)
    requires NonBlank(l) && !MarkerLine(l) && !MayBecomeMarker(l)
    ensures !MarkerLine(l + more)
  {
    MarkerIs(l);
    MarkerIs(l + more);
    TrimLeftMore(l, more);
    hide MarkerLine, TrimLeft;
    var s := TrimLeft(l);
    if TRUNCATED <= s + more { PrefixOrNot(s, more, TRUNCATED); }
    if REDACTED <= s + more { PrefixOrNot(s, more, REDACTED); }
  }

  lemma MarkerKept(l: string)
    ensures MarkerLine(TrimReturns(l)) <==> MarkerLine(l)
  {
    TrimReturnsKeeps(l);
  }

  // ----- any output at all: \S -----

  /** The regular expression \S. */
  predicate Ink(l: string) { exists i :: 0 <= i < |l| && !Space(l[i]) }

  /**
   * A line with output on it is output however it goes on, exactly when it may not yet become a marker line, which is no
   * output at all.
   */
  lemma InkStaysExactly(l: string)
    requires Shown(HitTest(Ink), Kept(l)) && '\n' !in l
    ensures Stays(HitTest(Ink), l) <==> !MayBecomeMarker(l)
  {
    HitHasInk(l);
    hide Kept, MarkerLine, TrimLeft, Ink, Shown;
    if !MayBecomeMarker(l) {
      forall more | '\n' !in more ensures Shown(HitTest(Ink), Kept(l + more)) { InkGoesOn(l, more); }
    } else if TrimLeft(l) <= TRUNCATED {
      InkEnds(l, TRUNCATED);
    } else {
      InkEnds(l, REDACTED);
    }
  }

  lemma HitHasInk(l: string)
    requires Shown(HitTest(Ink), Kept(l))
    ensures NonBlank(l) && !MarkerLine(l)
  {
    TrimReturnsKeeps(l);
    TrimmedHasInk(l);
    MarkerKept(l);
  }

  /** The start of a marker may go on as the marker. */
  lemma InkEnds(l: string, m: string)
    requires NonBlank(l) && (m == TRUNCATED || m == REDACTED) && TrimLeft(l) <= m
    ensures !Stays(HitTest(Ink), l)
  {
    hide TrimLeft, Kept, MarkerLine, Ink;
    var more := m[|TrimLeft(l)|..];
    assert '\n' !in more;
    BecomesMarker(l, m, more);
    assert !Shown(HitTest(Ink), Kept(l + more));
  }

  lemma InkGoesOn(l: string, more: string)
    requires Shown(HitTest(Ink), Kept(l)) && NonBlank(l) && !MarkerLine(l) && !MayBecomeMarker(l)
    ensures Shown(HitTest(Ink), Kept(l + more))
  {
    KeptGrows(l, more);
    MarkerFixed(l, more);
    MarkerKept(l + more);
    hide MarkerLine, TrimReturns, MayBecomeMarker;
    var a, b := Kept(l)[0], TrimReturns(l + more);
    assert Hit(Ink, a) && a == TrimReturns(l);
    var i :| 0 <= i < |a| && !Space(a[i]);
    assert b[i] == a[i];
    assert Hit(Ink, b) && Kept(l + more)[0] == b;
  }

  lemma BecomesMarker(l: string, m: string, more: string)
    requires NonBlank(l) && (m == TRUNCATED || m == REDACTED) && TrimLeft(l) <= m && more == m[|TrimLeft(l)|..]
    ensures forall i :: 0 <= i < |Kept(l + more)| ==> MarkerLine(Kept(l + more)[i])
  {
    TrimLeftMore(l, more);
    assert TrimLeft(l) + more == m;
    MarkerIs(l + more);
    MarkerKept(l + more);
  }

  // ----- rows -----

  /** A shape whose record on a line stays one however the line goes on. */
  lemma RowStays(row: string -> Row, l: string)
    requires Shown(RecordTest(row), Kept(l)) && !MayBecomeMarker(l)
    requires forall y :: row(TrimReturns(l) + y).Row?
    ensures Stays(RecordTest(row), l)
  {
    TrimReturnsKeeps(l);
    TrimmedHasInk(l);
    MarkerKept(l);
    hide MarkerLine, TrimReturns, MayBecomeMarker, NonBlank;
    forall more | '\n' !in more ensures Shown(RecordTest(row), Kept(l + more)) { RowGoesOn(row, l, more); }
  }

  lemma RowGoesOn(row: string -> Row, l: string, more: string)
    requires NonBlank(l) && !MarkerLine(l) && !MayBecomeMarker(l)
    requires forall y :: row(TrimReturns(l) + y).Row?
    ensures Shown(RecordTest(row), Kept(l + more))
  {
    hide MarkerLine, TrimReturns, MayBecomeMarker, NonBlank, Kept;
    KeptGrows(l, more);
    MarkerFixed(l, more);
    MarkerKept(l + more);
    var a, b := TrimReturns(l), TrimReturns(l + more);
    assert b == a + b[|a|..];
    assert row(b).Row?;
    assert RecordTest(row)(Kept(l + more)[0]);
  }

  const VERSION := "version"

  /** One line of dnf or yum check-update. */
  function DnfRow(l: string): Row {
    var f := Fields(l);
    if HasPrefix(l, "Last metadata") || HasPrefix(l, "Obsoleting") then Skipped
    else if |f| < 3 then Bad
    else Row(map[NAME := f[0], VERSION := f[1]])
  }

  lemma {:induction false} FieldsGrow(s: string, y: string)
    ensures |Fields(s)| <= |Fields(s + y)|
    decreases |s|
  {
    if s == "" {
    } else if Blank(s[0]) {
      assert (s + y)[1..] == s[1..] + y;
      FieldsGrow(s[1..], y);
    } else {
      var w, t := WordEnd(s, 0), s + y;
      WordEndLonger(s, y, 0);
      if w < |s| {
        assert WordEnd(t, 0) == w && t[w..] == s[w..] + y;
        FieldsGrow(s[w..], y);
      } else {
        assert s[w..] == "";
        assert Fields(s) == [s[..w]];
      }
    }
  }

  lemma {:induction false} WordEndLonger(s: string, y: string, k: nat)
    requires k <= |s|
    ensures WordEnd(s, k) < |s| ==> WordEnd(s + y, k) == WordEnd(s, k)
    decreases |s| - k
  {
    if k < |s| && !Blank(s[k]) { WordEndLonger(s, y, k + 1); }
  }

  predicate Solid(s: string) { s != "" && forall i :: 0 <= i < |s| ==> !Blank(s[i]) }

  lemma SolidField(s: string)
    requires Solid(s)
    ensures Fields(s) == [s]
  {
    EndsAt(s, 0, |s|);
    assert s[..|s|] == s && s[|s|..] == "";
  }

  lemma SolidFields(a: string, b: string)
    requires Solid(a) && Solid(b)
    ensures |Fields(a + " " + b)| == 2
  {
    var s := a + " " + b;
    EndsAt(s, 0, |a|);
    assert s[..|a|] == a && s[|a|..] == " " + b && s[|a|..][1..] == b;
    SolidField(b);
  }

  /** Three words are no start of a text of fewer. */
  lemma NotStartOf(l: string, text: string)
    requires |Fields(l)| > |Fields(text)|
    ensures !(l <= text)
  {
    hide Fields;
    if l <= text { StartHasFewer(l, text); }
  }

  lemma StartHasFewer(l: string, text: string)
    requires l <= text
    ensures |Fields(l)| <= |Fields(text)|
  {
    hide Fields;
    FieldsGrow(l, text[|l|..]);
    assert l + text[|l|..] == text;
  }

  lemma PrefixFixed(l: string, y: string, m: string)
    requires !(m <= l) && !(l <= m)
    ensures !(m <= l + y)
  {
    if m <= l + y { PrefixOrNot(l, y, m); }
  }

  lemma ManyWordsNoMarker(l: string)
    requires |Fields(l)| >= 2
    ensures !MayBecomeMarker(l)
  {
    hide Fields, TrimLeft;
    FieldsTrimLeft(l);
    SolidField(TRUNCATED);
    SolidField(REDACTED);
    NotStartOf(TrimLeft(l), TRUNCATED);
    NotStartOf(TrimLeft(l), REDACTED);
  }

  lemma DnfGoesOn(l: string, y: string)
    requires DnfRow(l).Row?
    ensures DnfRow(l + y).Row?
  {
    hide Fields;
    SolidFields("Last", "metadata");
    assert "Last" + " " + "metadata" == "Last metadata";
    SolidField("Obsoleting");
    FieldsGrow(l, y);
    NotStartOf(l, "Last metadata");
    NotStartOf(l, "Obsoleting");
    PrefixFixed(l, y, "Last metadata");
    PrefixFixed(l, y, "Obsoleting");
  }

  /** A pending update dnf listed before the cut is one however its line goes on. */
  lemma DnfStays(l: string)
    requires Shown(RecordTest(DnfRow), Kept(l))
    ensures Stays(RecordTest(DnfRow), l)
  {
    var a := TrimReturns(l);
    assert DnfRow(a).Row?;
    TrimReturnsPart(l);
    FieldsGrow(a, l[|a|..]);
    assert a + l[|a|..] == l;
    ManyWordsNoMarker(l);
    hide DnfRow, Kept, MayBecomeMarker;
    forall y ensures DnfRow(a + y).Row? { DnfGoesOn(a, y); }
    RowStays(DnfRow, l);
  }

  predicate NonSpace(c: char) { !Space(c) }

  /** The regular expression ^(\S+)/(\S+)\s+(\S+)\s: a word with a slash inside it, a second word, and a blank after that. */
  predicate AptMatch(l: string) {
    var a := Find(l, Space, 0);
    var b := Find(l, NonSpace, a);
    var c := Find(l, Space, b);
    b < c < |l| && exists i :: 0 < i < a - 1 && l[i] == '/'
  }

  function AptRow(l: string): Row {
    if HasPrefix(l, "Listing") || HasPrefix(l, "WARNING") || HasPrefix(l, "N: ") then Skipped
    else if !AptMatch(l) then Bad
    else
      var a := Find(l, Space, 0);
      var b := Find(l, NonSpace, a);
      Row(map[NAME := l[..a], VERSION := l[b..Find(l, Space, b)]])
  }

  lemma {:induction false} FindLonger(l: string, y: string, stop: char -> bool, k: nat)
    requires k <= |l| && Find(l, stop, k) < |l|
    ensures Find(l + y, stop, k) == Find(l, stop, k)
    decreases |l| - k
  {
    if !stop(l[k]) { FindLonger(l, y, stop, k + 1); }
  }

  lemma AptMatchGoesOn(l: string, y: string)
    requires AptMatch(l)
    ensures AptMatch(l + y) && '/' in l
  {
    var a := Find(l, Space, 0);
    var b := Find(l, NonSpace, a);
    FindLonger(l, y, Space, 0);
    FindLonger(l, y, NonSpace, a);
    FindLonger(l, y, Space, b);
    var i :| 0 < i < a - 1 && l[i] == '/';
    assert (l + y)[i] == '/';
  }

  lemma SlashNotIn(l: string, m: string)
    requires '/' in l && '/' !in m
    ensures !(l <= m)
  {
    var i :| 0 <= i < |l| && l[i] == '/';
    if l <= m { SameAt(l, m, i); }
  }

  lemma SameAt(l: string, m: string, i: nat)
    requires l <= m && i < |l|
    ensures l[i] in m
  {
    assert m[i] == l[i];
  }

  lemma AptGoesOn(l: string, y: string)
    requires AptRow(l).Row?
    ensures AptRow(l + y).Row?
  {
    AptMatchGoesOn(l, y);
    hide AptMatch;
    SlashNotIn(l, "Listing");
    SlashNotIn(l, "WARNING");
    SlashNotIn(l, "N: ");
    PrefixFixed(l, y, "Listing");
    PrefixFixed(l, y, "WARNING");
    PrefixFixed(l, y, "N: ");
  }

  /** A pending update apt listed before the cut is one however its line goes on. */
  lemma AptStays(l: string)
    requires Shown(RecordTest(AptRow), Kept(l))
    ensures Stays(RecordTest(AptRow), l)
  {
    var a := TrimReturns(l);
    assert AptRow(a).Row?;
    AptMatchGoesOn(a, "");
    TrimReturnsPart(l);
    SlashKept(l);
    SlashNotIn(TrimLeft(l), TRUNCATED);
    SlashNotIn(TrimLeft(l), REDACTED);
    hide AptRow, Kept;
    forall y ensures AptRow(a + y).Row? { AptGoesOn(a, y); }
    RowStays(AptRow, l);
  }

  lemma {:induction false} SlashKept(l: string)
    requires '/' in l
    ensures '/' in TrimLeft(l)
  {
    if Blank(l[0]) { SlashKept(l[1..]); }
  }
}
