/**
 * A capture cut at any byte, and the predicates that look for one line or one record: exactly when what the kept text shows
 * is shown by every text it may be the start of (rule.go, parse.go, typed.go).
 */
module CutCaptures {
  import opened Text
  import opened Captures
  import opened Rules

  /** Some line passes the test. */
  ghost predicate Shown(test: string -> bool, lines: seq<string>) { exists i :: 0 <= i < |lines| && test(lines[i]) }

  /** However the line goes on, it passes the test: the test is kept by continuation. */
  ghost predicate Stays(test: string -> bool, l: string) { forall more :: '\n' !in more ==> Shown(test, Kept(l + more)) }

  /** What a caller can check on the kept text: a whole line passes the test, or the unfinished one does however it goes on. */
  ghost predicate Firm(test: string -> bool, t: string) { Shown(test, WholeLines(t)) || Stays(test, Unfinished(t)) }

  lemma ShownConcat(test: string -> bool, a: seq<string>, b: seq<string>)
    ensures Shown(test, a + b) <==> Shown(test, a) || Shown(test, b)
  {
    var c := a + b;
    assert forall i :: 0 <= i < |a| ==> c[i] == a[i];
    assert forall i :: 0 <= i < |b| ==> c[|a| + i] == b[i];
    assert forall i :: |a| <= i < |c| ==> c[i] == b[i - |a|];
  }

  /** The text up to the next line break continues the unfinished line; what follows are further lines. */
  lemma ContinuedLines(t: string, rest: string) returns (more: string, tail: seq<string>)
    ensures '\n' !in more && Lines(t + rest) == WholeLines(t) + Kept(Unfinished(t) + more) + tail
  {
    NoCutOf(rest, '\n');
    hide Lines, WholeLines, Unfinished, Kept;
    match Cut(rest, '\n')
    case NoCut =>
      more, tail := rest, [];
      LinesExtended(t, rest);
    case CutAt(before, after) =>
      hide Cut;
      more, tail := before, Lines(after);
      LinesExtended(t, before);
      LinesAppended(t + before, after);
      assert t + rest == (t + before) + "\n" + after;
  }

  lemma FirmStays(test: string -> bool, t: string, rest: string)
    requires Firm(test, t)
    ensures Shown(test, Lines(t + rest))
  {
    hide Lines, WholeLines, Unfinished, Kept;
    var more, tail := ContinuedLines(t, rest);
    ShownConcat(test, WholeLines(t), Kept(Unfinished(t) + more));
    ShownConcat(test, WholeLines(t) + Kept(Unfinished(t) + more), tail);
    hide Shown;
  }

  /** The exact condition, for every test of one line. */
  lemma ContinuedExactly(test: string -> bool, t: string)
    ensures (forall rest :: Shown(test, Lines(t + rest))) <==> Firm(test, t)
  {
    hide Lines, WholeLines, Unfinished, Kept, Shown;
    if Firm(test, t) {
      forall rest ensures Shown(test, Lines(t + rest)) { FirmStays(test, t, rest); }
    }
    if (forall rest :: Shown(test, Lines(t + rest))) && !Shown(test, WholeLines(t)) {
      forall more | '\n' !in more ensures Shown(test, Kept(Unfinished(t) + more)) {
        assert Shown(test, Lines(t + more));
        LinesExtended(t, more);
        ShownConcat(test, WholeLines(t), Kept(Unfinished(t) + more));
      }
    }
  }

  /** At a line end nothing is unfinished: what passes passes whatever follows. */
  lemma ShownAtLineEnd(test: string -> bool, t: string, mark: string, rest: string)
    requires CutMark(mark) && !test(mark) && (rest == "" || rest[0] == '\n') && Shown(test, Lines(t + "\n" + mark))
    ensures Shown(test, Lines(t + rest))
  {
    hide Lines, CutMark, Shown;
    ShownBefore(test, t, mark);
    if rest == "" {
      assert t + rest == t;
    } else {
      assert t + rest == t + "\n" + rest[1..];
      LinesAppended(t, rest[1..]);
      ShownConcat(test, Lines(t), Lines(rest[1..]));
    }
  }

  lemma ShownBefore(test: string -> bool, t: string, mark: string)
    requires CutMark(mark) && !test(mark) && Shown(test, Lines(t + "\n" + mark))
    ensures Shown(test, Lines(t))
  {
    hide Lines, Shown, PairOf;
    MarkLines(mark);
    hide CutMark;
    LinesAppended(t, mark);
    ShownConcat(test, Lines(t), [mark]);
    OneFails(test, mark);
  }

  lemma OneFails(test: string -> bool, l: string)
    requires !test(l)
    ensures !Shown(test, [l])
  {
  }

  // ----- the predicates as tests of one line -----

  function HitTest(re: string -> bool): string -> bool { l => Hit(re, l) }

  predicate RowHits(row: string -> Row, hit: Record -> bool, l: string) { RecordOf(row, l) != [] && hit(RecordOf(row, l)[0]) }

  /** The line gives a record that is a hit. */
  function RowTest(row: string -> Row, hit: Record -> bool): string -> bool { l => RowHits(row, hit, l) }

  function HitRecord(p: Equals): Record -> bool { r => FieldHit(p, r) }

  function FieldTest(p: Equals, row: string -> Row): string -> bool { RowTest(row, HitRecord(p)) }

  function RecordTest(row: string -> Row): string -> bool { l => RecordOf(row, l) != [] }

  lemma SomeLineIs(re: string -> bool, lines: seq<string>)
    ensures SomeLine(re, lines) <==> Shown(HitTest(re), lines)
  {
    hide Hit;
  }

  /** Every record is the record of a line, and every line's record is one. */
  lemma {:induction false} RecordsFromLines(row: string -> Row, lines: seq<string>, r: Record)
    ensures r in RecordsOf(row, lines) <==> exists i :: 0 <= i < |lines| && RecordOf(row, lines[i]) == [r]
  {
    hide MarkerLine;
    if lines != [] {
      var rest, l := lines[..|lines| - 1], lines[|lines| - 1];
      RecordsFromLines(row, rest, r);
      assert forall i :: 0 <= i < |rest| ==> rest[i] == lines[i];
      assert r in RecordsOf(row, lines) <==> r in RecordsOf(row, rest) || r in RecordOf(row, l);
    }
  }

  /** Some record is a hit, exactly when some line gives one that is. */
  lemma SomeRowIs(row: string -> Row, hit: Record -> bool, lines: seq<string>)
    ensures (exists k :: 0 <= k < |RecordsOf(row, lines)| && hit(RecordsOf(row, lines)[k])) <==> Shown(RowTest(row, hit), lines)
  {
    hide RecordOf, RecordsOf;
    var items := RecordsOf(row, lines);
    if k :| 0 <= k < |items| && hit(items[k]) {
      RecordsFromLines(row, lines, items[k]);
      assert items[k] in items;
      var i :| 0 <= i < |lines| && RecordOf(row, lines[i]) == [items[k]];
      assert RowHits(row, hit, lines[i]);
    }
    if Shown(RowTest(row, hit), lines) {
      var i :| 0 <= i < |lines| && RowHits(row, hit, lines[i]);
      var r := RecordOf(row, lines[i])[0];
      OneRecordAtMost(row, lines[i]);
      assert RecordOf(row, lines[i]) == [r];
      RecordsFromLines(row, lines, r);
      assert r in items;
    }
  }

  lemma OneRecordAtMost(row: string -> Row, l: string)
    ensures |RecordOf(row, l)| <= 1
  {
    hide MarkerLine;
  }

  lemma SomeRecordIs(p: Equals, row: string -> Row, lines: seq<string>, partial: bool)
    ensures SomeRecord(p, Records(RecordsOf(row, lines), partial)) <==> Shown(FieldTest(p, row), lines)
  {
    hide RecordsOf, Shown, FieldHit;
    SomeRowIs(row, HitRecord(p), lines);
    var items := RecordsOf(row, lines);
    assert forall k :: 0 <= k < |items| ==> HitRecord(p)(items[k]) == FieldHit(p, items[k]);
  }

  lemma AnyRecordIs(row: string -> Row, lines: seq<string>)
    ensures RecordsOf(row, lines) != [] <==> Shown(RecordTest(row), lines)
  {
    var items := RecordsOf(row, lines);
    if items != [] {
      RecordsFromLines(row, lines, items[0]);
      var i :| 0 <= i < |lines| && RecordOf(row, lines[i]) == [items[0]];
      assert RecordTest(row)(lines[i]);
    }
    if Shown(RecordTest(row), lines) {
      var i :| 0 <= i < |lines| && RecordOf(row, lines[i]) != [];
      var r := RecordOf(row, lines[i])[0];
      assert RecordOf(row, lines[i]) == [r];
      RecordsFromLines(row, lines, r);
    }
  }

  /** AnyLine: every text the kept text may be the start of matches, exactly when the kept text is firm. */
  lemma LineCutExactly(re: string -> bool, t: string)
    ensures (forall rest :: SomeLine(re, Lines(t + rest))) <==> Firm(HitTest(re), t)
  {
    hide Lines, Firm, SomeLine, Shown;
    ContinuedExactly(HitTest(re), t);
    forall rest ensures SomeLine(re, Lines(t + rest)) <==> Shown(HitTest(re), Lines(t + rest)) { SomeLineIs(re, Lines(t + rest)); }
    if forall rest :: SomeLine(re, Lines(t + rest)) {
      forall rest ensures Shown(HitTest(re), Lines(t + rest)) { assert SomeLine(re, Lines(t + rest)); }
    }
  }

  /** FieldEquals, the same. */
  lemma FieldCutExactly(p: Equals, row: string -> Row, t: string)
    ensures (forall rest :: SomeRecord(p, Typed(row, t + rest))) <==> Firm(FieldTest(p, row), t)
  {
    hide Lines, Firm, SomeRecord, Shown, RecordsOf, Loses;
    ContinuedExactly(FieldTest(p, row), t);
    forall rest ensures SomeRecord(p, Typed(row, t + rest)) <==> Shown(FieldTest(p, row), Lines(t + rest)) {
      SomeRecordIs(p, row, Lines(t + rest), Typed(row, t + rest).partial);
    }
    hide Typed;
    if forall rest :: SomeRecord(p, Typed(row, t + rest)) {
      forall rest ensures Shown(FieldTest(p, row), Lines(t + rest)) { assert SomeRecord(p, Typed(row, t + rest)); }
    }
  }

  /** AnyRecord, the same. */
  lemma RecordCutExactly(row: string -> Row, t: string)
    ensures (forall rest :: Typed(row, t + rest).items != []) <==> Firm(RecordTest(row), t)
  {
    hide Lines, Firm, Shown, RecordsOf, Loses;
    ContinuedExactly(RecordTest(row), t);
    forall rest ensures Typed(row, t + rest).items != [] <==> Shown(RecordTest(row), Lines(t + rest)) {
      AnyRecordIs(row, Lines(t + rest));
    }
    hide Typed;
    if forall rest :: Typed(row, t + rest).items != [] {
      forall rest ensures Shown(RecordTest(row), Lines(t + rest)) { assert Typed(row, t + rest).items != []; }
    }
  }

  // ----- captures a cut decides wrongly -----

  /** A line cut to the word the rule looks for: the cut capture matches, the whole one is disproved. */
  lemma LineCutFlips(short: string, long: string, mark: string)
    requires Word(short) && Word(long) && short < long && CutMark(mark)
    ensures SomeLine(l => l == short, Lines(Truncated(long, |short|, mark))) && NoLine(l => l == short, Lines(long))
  {
    hide Lines, CutMark, Word;
    assert long[..|short|] == short;
    WordShows(short, mark);
    WordShowsNot(short, long);
  }

  lemma WordShows(w: string, mark: string)
    requires Word(w)
    ensures SomeLine(l => l == w, Lines(w + "\n" + mark))
  {
    OneLine(w);
    WordNoMarker(w);
    hide Lines, MarkerLine, Word;
    LinesAppended(w, mark);
    assert Hit(l => l == w, Lines(w + "\n" + mark)[0]);
  }

  lemma WordShowsNot(w: string, other: string)
    requires Word(other) && w != other
    ensures NoLine(l => l == w, Lines(other))
  {
    OneLine(other);
    Plain(other);
    WordNoMarker(other);
    hide Lines, MarkerLine, HasMarker, Word;
  }

  lemma WordNoMarker(w: string)
    requires Word(w)
    ensures !MarkerLine(w)
  {
    Plain(w);
  }

  /** A record cut inside its field: the cut listing matches, the whole one is disproved. */
  lemma FieldCutFlips(p: Equals, name: string, short: string, long: string, mark: string)
    requires Word(name) && Word(short) && Word(long) && short < long && CutMark(mark)
    requires p.field == STATUS && EqualFold(p.value, short) && Known(long, p.known)
    ensures var raw := name + " " + long;
      SomeRecord(p, Typed(StatusRow, Truncated(raw, |name| + 1 + |short|, mark))) && NoRecordHits(p, Typed(StatusRow, raw))
  {
    hide CutMark, Word, Known, EqualFold, Typed, SomeRecord, NoRecordHits;
    var raw, cut := name + " " + long, name + " " + short;
    assert raw[..|cut|] == cut;
    StatusLine(name, short);
    StatusLine(name, long);
    WordFields(p, short, long, name);
    TypedAppended(StatusRow, cut, mark);
    FirstHits(p, Typed(StatusRow, cut + "\n" + mark), map[NAME := name, STATUS := short]);
    OnlyOther(p, map[NAME := name, STATUS := long]);
  }

  lemma FirstHits(p: Equals, recs: Records, r: Record)
    requires recs.items != [] && recs.items[0] == r && FieldHit(p, r)
    ensures SomeRecord(p, recs)
  {
    hide FieldHit;
  }

  lemma OnlyOther(p: Equals, r: Record)
    requires FieldOther(p, r)
    ensures NoRecordHits(p, Records([r], false))
  {
    hide FieldOther;
  }

  lemma WordFields(p: Equals, short: string, long: string, name: string)
    requires Word(short) && Word(long) && short < long && p.field == STATUS && EqualFold(p.value, short) && Known(long, p.known)
    ensures FieldHit(p, map[NAME := name, STATUS := short]) && FieldOther(p, map[NAME := name, STATUS := long])
  {
    Plain(short);
    Plain(long);
    hide TrimSpace, HasMarker, Known;
    assert Lower(p.value) == short && |Lower(long)| != |short|;
  }

  /** The status listing of one line, a name and a word. */
  lemma StatusLine(name: string, v: string)
    requires Word(name) && Word(v)
    ensures Typed(StatusRow, name + " " + v) == Records([map[NAME := name, STATUS := v]], false)
  {
    var l := name + " " + v;
    OneLine(l);
    StatusRecord(name, v);
    hide Lines, Word, RecordOf, Loses;
    OneRecordTyped(StatusRow, l, map[NAME := name, STATUS := v]);
  }

  lemma StatusRecord(name: string, v: string)
    requires Word(name) && Word(v)
    ensures var l := name + " " + v; RecordOf(StatusRow, l) == [map[NAME := name, STATUS := v]] && !Loses(StatusRow, l)
  {
    var l := name + " " + v;
    TwoFields(name, v);
    WordLine(name, v, l);
    hide Fields, MarkerLine, Word;
  }

  lemma OneRecordTyped(row: string -> Row, l: string, r: Record)
    requires Lines(l) == [l] && RecordOf(row, l) == [r] && !Loses(row, l)
    ensures Typed(row, l) == Records([r], false)
  {
    hide Lines, RecordOf, Loses;
    assert RecordsOf(row, [l]) == [r] by { assert [l][..0] == []; }
  }

  lemma TwoFields(a: string, b: string)
    requires Word(a) && Word(b)
    ensures Fields(a + " " + b) == [a, b]
  {
    var s := a + " " + b;
    EndsAt(s, 0, |a|);
    assert s[..|a|] == a && s[|a|..] == " " + b && s[|a|..][1..] == b;
    EndsAt(b, 0, |b|);
    assert b[..|b|] == b && b[|b|..] == "";
    assert Fields(b) == [b];
    assert Fields(" " + b) == Fields(b);
  }

  lemma {:induction false} EndsAt(s: string, k: nat, e: nat)
    requires k <= e <= |s| && (forall i :: k <= i < e ==> !Blank(s[i])) && (e < |s| ==> Blank(s[e]))
    ensures WordEnd(s, k) == e
    decreases e - k
  {
    if k < e { EndsAt(s, k + 1, e); }
  }
}
