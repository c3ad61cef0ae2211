/** Three-valued posture predicates over a parsed capture, and what completing the capture does to their answers (rule.go). */
module Rules {
  import opened Options
  import opened Text
  import opened Captures

  datatype Status = Matched | NotMatched | NotAssessed
  datatype Verdict = Verdict(status: Status, reason: string)

  predicate EqualFold(a: string, b: string) { Lower(a) == Lower(b) }

  predicate Known(v: string, values: seq<string>) {
    exists i :: 0 <= i < |values| && EqualFold(v, values[i])
  }

  function Get(r: Record, f: string): string { if f in r then r[f] else "" }

  /** A condition on one key or one field, and the values it is understood to take. */
  datatype Equals = Equals(field: string, value: string, known: seq<string>)

  // ----- KeyEquals -----

  /** parsed is None when the fact is not a key and value map. */
  function KeyEquals(p: Equals, parsed: Option<Record>): Verdict {
    if parsed.None? then Verdict(NotAssessed, "unexpected-parsed-shape")
    else if p.field !in parsed.value then Verdict(NotAssessed, "key-absent")
    else if HasMarker(parsed.value[p.field]) then Verdict(NotAssessed, "value-redacted-or-truncated")
    else
      var got := Lower(TrimSpace(parsed.value[p.field]));
      if got == Lower(p.value) then Verdict(Matched, "recognized-matching-value")
      else if !Known(got, p.known) then Verdict(NotAssessed, "unrecognized-value")
      else Verdict(NotMatched, "recognized-other-value")
  }

  lemma {:induction false} FirstValueOfPrefix(a: seq<string>, b: seq<string>, key: string)
    requires FirstValue(a, key).Pair?
    ensures FirstValue(a + b, key) == FirstValue(a, key)
  {
    hide PairOf;
    assert (a + b)[1..] == a[1..] + b;
    if !(PairOf(a[0]).Pair? && PairOf(a[0]).key == key) { FirstValueOfPrefix(a[1..], b, key); }
  }

  /** What the value found for the key decides. */
  function ValueVerdict(p: Equals, found: Pair): Verdict {
    match found
    case NoPair => Verdict(NotAssessed, "key-absent")
    case Pair(_, v) => KeyEquals(p, Some(map[p.field := v]))
  }

  /** The verdict of a key and value capture, which only the first value of the key decides. */
  function KeyVerdict(p: Equals, raw: string): Verdict { KeyEquals(p, Some(KV(Lines(raw)))) }

  lemma VerdictOfFirst(p: Equals, raw: string)
    ensures KeyVerdict(p, raw) == ValueVerdict(p, FirstValue(Lines(raw), p.field))
  {
    hide Lines, FirstValue, HasMarker, TrimSpace, Known, KV;
    KVFirst(Lines(raw));
  }

  /** Lines appended to a key and value capture change a verdict only when the key was absent before them. */
  lemma KeyVerdictSurvives(p: Equals, raw: string, more: string)
    ensures KeyVerdict(p, raw + "\n" + more) == KeyVerdict(p, raw) || KeyVerdict(p, raw).reason == "key-absent"
    ensures KeyVerdict(p, raw).status != NotAssessed ==> KeyVerdict(p, raw + "\n" + more) == KeyVerdict(p, raw)
  {
    hide Lines, FirstValue, KeyVerdict, KeyEquals;
    VerdictOfFirst(p, raw);
    VerdictOfFirst(p, raw + "\n" + more);
    LinesAppended(raw, more);
    if FirstValue(Lines(raw), p.field).Pair? { FirstValueOfPrefix(Lines(raw), Lines(more), p.field); }
  }

  // ----- a cut capture -----

  /** The lines of a cut capture: its whole lines, what is left of the cut one, and the mark. */
  lemma CutLines(t: string, mark: string)
    requires CutMark(mark)
    ensures Lines(t + "\n" + mark) == WholeLines(t) + Kept(Unfinished(t)) + [mark]
  {
    hide Lines, WholeLines, Unfinished, Kept;
    LinesAppended(t, mark);
    MarkLines(mark);
    assert t + "" == t && Unfinished(t) + "" == Unfinished(t);
    LinesExtended(t, "");
  }

  /**
   * Exactly when a decided verdict on a cut capture is the verdict of every text it may be the start of: when a whole
   * line before the cut already gives the key its value. A caller sees this on the cut text alone. Otherwise the value
   * comes from the unfinished line, and letters that continue the line make it one the rule does not understand.
   */
  lemma CutVerdictExactly(p: Equals, t: string, mark: string)
    requires CutMark(mark) && KeyVerdict(p, t + "\n" + mark).status != NotAssessed
    ensures (forall rest :: KeyVerdict(p, t + rest) == KeyVerdict(p, t + "\n" + mark)) <==> FirstValue(WholeLines(t), p.field).Pair?
  {
    hide Lines, WholeLines, FirstValue, KeyVerdict, KeyEquals, Unfinished;
    var whole := WholeLines(t);
    if FirstValue(whole, p.field).Pair? {
      VerdictOfFirst(p, t + "\n" + mark);
      CutLines(t, mark);
      assert whole + Kept(Unfinished(t)) + [mark] == whole + (Kept(Unfinished(t)) + [mark]);
      FirstValueOfPrefix(whole, Kept(Unfinished(t)) + [mark], p.field);
      forall rest ensures KeyVerdict(p, t + rest) == KeyVerdict(p, t + "\n" + mark) {
        VerdictOfFirst(p, t + rest);
        var tail := WholeLinesStay(t, rest);
        FirstValueOfPrefix(whole, tail, p.field);
      }
    } else {
      ContinuedNotAssessed(p, t);
    }
  }

  /** A cut at the end of a line is one of the sound cases whatever follows that line. */
  lemma KeyVerdictOfCut(p: Equals, raw: string, k: nat, mark: string)
    requires k < |raw| && raw[k] == '\n' && CutMark(mark) && KeyVerdict(p, Truncated(raw, k, mark)).status != NotAssessed
    ensures KeyVerdict(p, raw) == KeyVerdict(p, Truncated(raw, k, mark))
  {
    hide Lines, FirstValue, KeyVerdict, KeyEquals;
    var t := raw[..k];
    VerdictOfFirst(p, t + "\n" + mark);
    VerdictOfFirst(p, t);
    LinesAppended(t, mark);
    MarkLines(mark);
    MarkGivesNoKey(Lines(t), mark, p.field);
    KeyVerdictSurvives(p, t, raw[k + 1..]);
    assert raw == t + "\n" + raw[k + 1..];
  }

  // ----- letters that continue the unfinished line -----

  predicate Zs(z: string) { z != "" && forall i :: 0 <= i < |z| ==> z[i] == 'z' }

  predicate EndsIn(s: string, z: string) { |z| <= |s| && s[|s| - |z|..] == z }

  function Longest(values: seq<string>): (n: nat)
    ensures forall i :: 0 <= i < |values| ==> |values[i]| <= n
  {
    if values == [] then 0
    else
      var rest := Longest(values[1..]);
      assert forall i :: 1 <= i < |values| ==> values[i] == values[1..][i - 1];
      if |values[0]| > rest then |values[0]| else rest
  }

  lemma {:induction false} TrimEnds(s: string, z: string)
    requires Zs(z) && EndsIn(s, z)
    ensures EndsIn(TrimSpace(s), z) && EndsIn(TrimSeparators(s), z)
  {
    assert s[|s| - 1] == z[|z| - 1];
    TrimLeftEnds(s, z);
    TrimSeparatorsEnds(s, z);
  }

  lemma {:induction false} TrimLeftEnds(s: string, z: string)
    requires Zs(z) && EndsIn(s, z)
    ensures EndsIn(TrimLeft(s), z) && TrimRight(TrimLeft(s)) == TrimLeft(s)
  {
    if Blank(s[0]) {
      assert s[1..] != "" && |s| > |z| by { assert |s| == |z| ==> s == z; }
      assert s[1..][|s| - 1 - |z|..] == z;
      TrimLeftEnds(s[1..], z);
    } else {
      assert s[|s| - 1] == z[|z| - 1];
    }
  }

  lemma {:induction false} TrimSeparatorsEnds(s: string, z: string)
    requires Zs(z) && EndsIn(s, z)
    ensures EndsIn(TrimSeparators(s), z)
  {
    if ColonStop(s[0]) {
      assert |s| > |z| by { assert |s| == |z| ==> s == z; }
      assert s[1..][|s| - 1 - |z|..] == z;
      TrimSeparatorsEnds(s[1..], z);
    }
  }

  /** A part of a text that starts before its last letters still ends in them. */
  lemma PartEnds(s: string, z: string, i: nat)
    requires EndsIn(s, z) && i <= |s| - |z|
    ensures EndsIn(s[i..], z)
  {
    assert s[i..][|s| - i - |z|..] == s[|s| - |z|..];
  }

  lemma StopsBefore(s: string, z: string, i: nat)
    requires Zs(z) && EndsIn(s, z) && i < |s| && s[i] != 'z'
    ensures i < |s| - |z|
  {
    assert s == s[..|s| - |z|] + z;
  }

  lemma RawPairEnds(l: string, z: string)
    requires Zs(z) && EndsIn(l, z)
    ensures RawPair(l).Pair? ==> EndsIn(RawPair(l).value, z)
  {
    hide TrimSpace, TrimSeparators;
    var a, c, g := Find(l, AssignStop, 0), Find(l, ColonStop, 0), Find(l, Gap, 0);
    if AssignPair(l).Pair? {
      StopsBefore(l, z, a);
      PartEnds(l, z, a + 1);
    } else if ColonPair(l).Pair? {
      StopsBefore(l, z, c);
      GapEnds(l, z, c + 1);
      PartEnds(l, z, SkipGap(l, c + 1));
    } else if g < |l| {
      StopsBefore(l, z, g);
      PartEnds(l, z, g + 1);
      TrimEnds(l[g + 1..], z);
      TrimEnds(TrimSpace(l[g + 1..]), z);
    }
  }

  lemma GapEnds(l: string, z: string, k: nat)
    requires Zs(z) && EndsIn(l, z) && k <= |l| - |z|
    ensures SkipGap(l, k) <= |l| - |z|
  {
    var n := |l| - |z|;
    assert l[n..][0] == l[n] == 'z';
  }

  /** The value of a line that ends in letters ends in them, whatever form the line has. */
  lemma PairEnds(line: string, z: string)
    requires Zs(z) && EndsIn(line, z)
    ensures PairOf(line).Pair? ==> EndsIn(PairOf(line).value, z)
  {
    hide TrimSpace, RawPair, MarkerLine;
    var l := TrimSpace(line);
    TrimEnds(line, z);
    RawPairEnds(l, z);
    if RawPair(l).Pair? {
      TrimEnds(RawPair(l).value, z);
      var v := TrimSpace(RawPair(l).value);
      assert v[|v| - 1] == v[|v| - |z|..][|z| - 1] == 'z';
    }
  }

  lemma LongNotAssessed(p: Equals, v: string, z: string)
    requires Zs(z) && EndsIn(v, z) && |z| > |p.value| && |z| > Longest(p.known)
    ensures KeyEquals(p, Some(map[p.field := v])).status == NotAssessed
  {
    TrimEnds(v, z);
    hide TrimSpace, HasMarker, Longest;
    var got := Lower(TrimSpace(v));
    assert |got| >= |z|;
    assert forall i :: 0 <= i < |p.known| ==> |Lower(p.known[i])| == |p.known[i]| < |got|;
  }

  function Letters(n: nat): (z: string)
    ensures |z| == n && forall i :: 0 <= i < |z| ==> z[i] == 'z'
  {
    seq(n, _ => 'z')
  }

  lemma KeptLetters(s: string, z: string)
    requires Zs(z) && EndsIn(s, z)
    ensures Kept(s) == [s]
  {
    assert s[|s| - 1] == s[|s| - |z|..][|z| - 1] == 'z';
    TrimEnds(s, z);
    hide TrimSpace;
  }

  /** When no whole line gives the key, enough letters after the text leave the verdict open. */
  lemma ContinuedNotAssessed(p: Equals, t: string)
    requires FirstValue(WholeLines(t), p.field).NoPair?
    ensures exists rest :: KeyVerdict(p, t + rest).status == NotAssessed
  {
    hide Lines, WholeLines, FirstValue, KeyVerdict, KeyEquals, PairOf, Unfinished, Kept;
    var z := Letters(|p.value| + Longest(p.known) + 1);
    var l := Unfinished(t) + z;
    assert EndsIn(l, z);
    LinesExtended(t, z);
    KeptLetters(l, z);
    VerdictOfFirst(p, t + z);
    FirstValueGrown(WholeLines(t), l, p.field);
    PairEnds(l, z);
    if PairOf(l).Pair? { LongNotAssessed(p, PairOf(l).value, z); }
    assert KeyVerdict(p, t + z).status == NotAssessed;
  }

  lemma MarkLines(mark: string)
    requires CutMark(mark)
    ensures Lines(mark) == [mark] && PairOf(mark) == NoPair
  {
    SplitPlain(mark, '\n');
    MarkKept(mark);
    assert [mark][..0] == [];
    assert KeptAll([mark]) == Kept(mark);
  }

  lemma MarkGivesNoKey(lines: seq<string>, mark: string, key: string)
    requires PairOf(mark) == NoPair
    ensures FirstValue(lines + [mark], key) == FirstValue(lines, key)
  {
    FirstValueGrown(lines, mark, key);
  }

  // ----- AnyLine -----

  predicate Hit(re: string -> bool, l: string) { !MarkerLine(l) && re(l) }
  predicate Hides(l: string) { MarkerLine(l) || HasMarker(l) }

  /** re stands for the predicate's regular expression on one line. */
  method AnyLine(re: string -> bool, parsed: Option<seq<string>>) returns (v: Verdict)
    ensures parsed.None? ==> v == Verdict(NotAssessed, "unexpected-parsed-shape")
    ensures v.status == Matched <==> (parsed.Some? && SomeLine(re, parsed.value))
    ensures v.status == NotMatched <==> (parsed.Some? && NoLine(re, parsed.value))
    ensures parsed.Some? && v.status == NotAssessed ==> v.reason == "partial-output"
    ensures v.status == Matched ==> v.reason == "matching-line"
    ensures v.status == NotMatched ==> v.reason == "no-matching-line"
  {
    hide MarkerLine, HasMarker;
    if parsed == None { return Verdict(NotAssessed, "unexpected-parsed-shape"); }
    var lines, partial := parsed.value, false;
    for i := 0 to |lines|
      invariant forall k :: 0 <= k < i ==> !Hit(re, lines[k])
      invariant partial <==> exists k :: 0 <= k < i && Hides(lines[k])
    {
      var l := lines[i];
      if MarkerLine(l) {
        partial := true;
        continue;
      }
      if HasMarker(l) { partial := true; }
      if re(l) {
        assert Hit(re, lines[i]);
        return Verdict(Matched, "matching-line");
      }
    }
    if partial { return Verdict(NotAssessed, "partial-output"); }
    return Verdict(NotMatched, "no-matching-line");
  }

  predicate SomeLine(re: string -> bool, lines: seq<string>) { exists i :: 0 <= i < |lines| && Hit(re, lines[i]) }

  /** No line matches, and nothing was removed from any line or between them. */
  predicate NoLine(re: string -> bool, lines: seq<string>) {
    forall i :: 0 <= i < |lines| ==> !re(lines[i]) && !Hides(lines[i])
  }

  /** A matching line of a capture stays one whatever follows it, and a disproof saw every line. */
  lemma LineVerdictSurvives(re: string -> bool, raw: string, more: string)
    ensures SomeLine(re, Lines(raw)) ==> SomeLine(re, Lines(raw + "\n" + more))
    ensures NoLine(re, Lines(raw + "\n" + more)) <==> (NoLine(re, Lines(raw)) && NoLine(re, Lines(more)))
    ensures MarkerLine(more) && '\n' !in more ==> !NoLine(re, Lines(raw + "\n" + more))
  {
    hide Lines, Hides, MarkerLine;
    LinesAppended(raw, more);
    var a, b, c := Lines(raw), Lines(more), Lines(raw + "\n" + more);
    assert forall i :: 0 <= i < |a| ==> c[i] == a[i];
    assert forall i :: 0 <= i < |b| ==> c[|a| + i] == b[i];
    if MarkerLine(more) && '\n' !in more {
      MarkerStays(more);
      assert c[|a|] == b[0];
      assert Hides(c[|a|]) by { assert MarkerLine(b[0]); HidesMarker(b[0]); }
    }
  }

  lemma HidesMarker(l: string)
    requires MarkerLine(l)
    ensures Hides(l)
  {
  }

  lemma {:induction false} TrimReturnsKeeps(l: string)
    ensures TrimSpace(TrimReturns(l)) == TrimSpace(l)
  {
    if l != "" && l[|l| - 1] == '\r' {
      var m := l[..|l| - 1];
      TrimReturnsKeeps(m);
      TrimSpaceDropsBlank(m, '\r');
      assert m + ['\r'] == l;
    }
  }

  lemma {:induction false} TrimSpaceDropsBlank(m: string, c: char)
    requires Blank(c)
    ensures TrimSpace(m + [c]) == TrimSpace(m)
  {
    var s := m + [c];
    if m == "" {
      assert s[1..] == "";
    } else if Blank(m[0]) {
      assert s[1..] == m[1..] + [c];
      TrimSpaceDropsBlank(m[1..], c);
    } else {
      assert s[..|s| - 1] == m;
    }
  }

  lemma MarkerStays(l: string)
    requires MarkerLine(l) && '\n' !in l
    ensures |Lines(l)| == 1 && MarkerLine(Lines(l)[0])
  {
    SplitPlain(l, '\n');
    TrimReturnsKeeps(l);
    assert [l][..0] == [];
    assert TrimSpace(l) != "";
    hide TrimSpace, TrimReturns;
    assert Kept(l) == [TrimReturns(l)];
    assert KeptAll([l]) == Kept(l);
  }

  // ----- FieldEquals and AnyRecord -----

  function FieldOf(p: Equals, r: Record): string { TrimSpace(Get(r, p.field)) }

  predicate Readable(p: Equals, r: Record) { FieldOf(p, r) != "" && !HasMarker(FieldOf(p, r)) }
  predicate FieldHit(p: Equals, r: Record) { Readable(p, r) && EqualFold(FieldOf(p, r), p.value) }

  /** The record is shown to hold another value. */
  predicate FieldOther(p: Equals, r: Record) {
    Readable(p, r) && !EqualFold(FieldOf(p, r), p.value) && Known(Lower(FieldOf(p, r)), p.known)
  }

  predicate SomeRecord(p: Equals, recs: Records) { exists i :: 0 <= i < |recs.items| && FieldHit(p, recs.items[i]) }

  /** The population is complete, and every record of it is shown to hold another value. */
  predicate NoRecordHits(p: Equals, recs: Records) {
    !recs.partial && forall i :: 0 <= i < |recs.items| ==> FieldOther(p, recs.items[i])
  }

  method FieldEquals(p: Equals, parsed: Option<Records>) returns (v: Verdict)
    ensures parsed.None? ==> v == Verdict(NotAssessed, "unexpected-parsed-shape")
    ensures v.status == Matched <==> (parsed.Some? && SomeRecord(p, parsed.value))
    ensures v.status == NotMatched <==> (parsed.Some? && NoRecordHits(p, parsed.value))
    ensures parsed.Some? && v.status == NotAssessed ==>
      v.reason == if parsed.value.partial then "partial-output" else "unrecognized-value"
    ensures v.status == Matched ==> v.reason == "recognized-matching-record"
    ensures v.status == NotMatched ==> v.reason == "no-matching-record"
  {
    hide HasMarker, EqualFold, Known, TrimSpace;
    if parsed == None { return Verdict(NotAssessed, "unexpected-parsed-shape"); }
    var recs, unrecognized := parsed.value, false;
    for i := 0 to |recs.items|
      invariant forall k :: 0 <= k < i ==> !FieldHit(p, recs.items[k])
      invariant !unrecognized <==> forall k :: 0 <= k < i ==> FieldOther(p, recs.items[k])
    {
      var rec := recs.items[i];
      var v := FieldOf(p, rec);
      if v == "" || HasMarker(v) {
        unrecognized := true;
        continue;
      }
      if EqualFold(v, p.value) {
        assert FieldHit(p, recs.items[i]);
        return Verdict(Matched, "recognized-matching-record");
      }
      if !Known(Lower(v), p.known) { unrecognized := true; }
    }
    if recs.partial { return Verdict(NotAssessed, "partial-output"); }
    if unrecognized { return Verdict(NotAssessed, "unrecognized-value"); }
    return Verdict(NotMatched, "no-matching-record");
  }

  function AnyRecord(parsed: Option<Records>): Verdict {
    if parsed.None? then Verdict(NotAssessed, "unexpected-parsed-shape")
    else if |parsed.value.items| > 0 then Verdict(Matched, "records-present")
    else if parsed.value.partial then Verdict(NotAssessed, "partial-output")
    else Verdict(NotMatched, "no-records")
  }

  /** Lines appended to a typed capture only append records, and a loss seen once is never forgotten. */
  lemma TypedAppended(row: string -> Row, raw: string, more: string)
    ensures Typed(row, raw + "\n" + more).items == Typed(row, raw).items + Typed(row, more).items
    ensures Typed(row, raw + "\n" + more).partial <==> Typed(row, raw).partial || Typed(row, more).partial
  {
    hide Lines, RecordsOf, Loses;
    LinesAppended(raw, more);
    RecordsConcat(row, Lines(raw), Lines(more));
    var a, b, c := Lines(raw), Lines(more), Lines(raw + "\n" + more);
    assert forall i :: 0 <= i < |a| ==> c[i] == a[i];
    assert forall i :: 0 <= i < |b| ==> c[|a| + i] == b[i];
    assert forall i :: |a| <= i < |c| ==> c[i] == b[i - |a|];
  }

  /** The typed predicates over a capture and over the capture with lines appended. */
  lemma RecordVerdictSurvives(p: Equals, row: string -> Row, raw: string, more: string)
    ensures SomeRecord(p, Typed(row, raw)) ==> SomeRecord(p, Typed(row, raw + "\n" + more))
    ensures NoRecordHits(p, Typed(row, raw + "\n" + more)) <==> (NoRecordHits(p, Typed(row, raw)) && NoRecordHits(p, Typed(row, more)))
    ensures AnyRecord(Some(Typed(row, raw))).status == Matched ==> AnyRecord(Some(Typed(row, raw + "\n" + more))).status == Matched
    ensures AnyRecord(Some(Typed(row, raw))).status == NotMatched ==> !Typed(row, raw).partial
  {
    hide Typed, FieldHit, FieldOther;
    TypedAppended(row, raw, more);
    var a, b, c := Typed(row, raw).items, Typed(row, more).items, Typed(row, raw + "\n" + more).items;
    assert forall i :: 0 <= i < |a| ==> c[i] == a[i];
    assert forall i :: 0 <= i < |b| ==> c[|a| + i] == b[i];
  }

  // ----- the bound of the key verdicts: a cut inside a line -----

  predicate Word(s: string) { s != "" && forall i :: 0 <= i < |s| ==> 'a' <= s[i] <= 'z' }

  /**
   * A capture the cut decides wrongly: "key nothing" cut to "key no" reads as a value the rule understands. So for every
   * key, every word the rule matches and every longer word that no known value equals.
   */
  lemma CutInsideLineFlips(p: Equals, short: string, long: string, mark: string)
    requires Word(p.field) && Word(short) && Word(long) && short < long && CutMark(mark)
    requires EqualFold(p.value, short) && !Known(long, p.known)
    ensures var raw := p.field + " " + long;
      var k := |p.field| + 1 + |short|;
      KeyVerdict(p, Truncated(raw, k, mark)).status == Matched && KeyVerdict(p, raw).status == NotAssessed
  {
    hide CutMark, Word, Known, EqualFold, KeyEquals, KeyVerdict;
    var raw, cut := p.field + " " + long, p.field + " " + short;
    assert raw[..|cut|] == cut;
    WordVerdict(p, short);
    WordVerdict(p, long);
    WordsDecide(p, short, long);
    KeyVerdictSurvives(p, cut, mark);
  }

  lemma WordsDecide(p: Equals, short: string, long: string)
    requires Word(short) && Word(long) && short < long && EqualFold(p.value, short) && !Known(long, p.known)
    ensures KeyEquals(p, Some(map[p.field := short])).status == Matched && KeyEquals(p, Some(map[p.field := long])).status == NotAssessed
  {
    Plain(short);
    Plain(long);
    hide HasMarker, TrimSpace, Known;
    assert Lower(p.value) == short && |Lower(long)| != |short|;
  }

  /** The verdict of a capture of one line, a key and a word. */
  lemma WordVerdict(p: Equals, v: string)
    requires Word(p.field) && Word(v)
    ensures KeyVerdict(p, p.field + " " + v) == KeyEquals(p, Some(map[p.field := v]))
  {
    var l := p.field + " " + v;
    WordPair(p.field, v);
    OneLine(l);
    hide PairOf, KeyEquals, KeyVerdict, Lines, Word;
    VerdictOfFirst(p, l);
    assert FirstValue([l], p.field) == PairOf(l);
  }

  lemma OneLine(l: string)
    requires l != "" && 'a' <= l[|l| - 1] <= 'z' && 'a' <= l[0] <= 'z' && '\n' !in l
    ensures Lines(l) == [l]
  {
    WordKept(l);
    SplitPlain(l, '\n');
    hide Kept, Split;
    assert KeptAll([l]) == Kept(l) by { assert [l][..0] == []; }
  }

  lemma WordKept(l: string)
    requires l != "" && 'a' <= l[|l| - 1] <= 'z' && 'a' <= l[0] <= 'z'
    ensures Kept(l) == [l]
  {
    assert TrimLeft(l) == l && TrimRight(l) == l;
  }

  /** Words are their own trimmed lower-case form and hold no marker. */
  lemma Plain(s: string)
    requires Word(s)
    ensures Lower(s) == s && TrimSpace(s) == s && !HasMarker(s)
  {
    forall i: nat, sub: string | sub == "[REDACTED:" || sub == "[TRUNCATED:" ensures !HoldsAt(s, sub, i) {
      assert i + |sub| <= |s| ==> s[i..i + |sub|][0] == s[i];
    }
  }

  lemma WordPair(k: string, v: string)
    requires Word(k) && Word(v)
    ensures PairOf(k + " " + v) == Pair(k, v)
  {
    var l := k + " " + v;
    WordLine(k, v, l);
    Plain(k);
    Plain(v);
    WordRaw(k, v, l);
    hide TrimSpace, RawPair, Lower, MarkerLine;
    assert Unquote(v) == v;
  }

  lemma WordLine(k: string, v: string, l: string)
    requires Word(k) && Word(v) && l == k + " " + v
    ensures TrimSpace(l) == l && !HasPrefix(l, "#") && !MarkerLine(l)
  {
    assert l[0] == k[0] && l[|l| - 1] == v[|v| - 1];
    assert TrimLeft(l) == l && TrimRight(l) == l;
  }

  lemma WordRaw(k: string, v: string, l: string)
    requires Word(k) && Word(v) && l == k + " " + v && TrimSpace(v) == v
    ensures RawPair(l) == Pair(k, v)
  {
    hide TrimSpace, Find, SkipGap;
    assert l[..|k|] == k && l[|k|] == ' ' && l[|k| + 1..] == v;
    Stop(l, AssignStop, 0, |k|);
    Stop(l, Gap, 0, |k|);
    Stop(l, ColonStop, 0, |l|);
    assert AssignPair(l) == NoPair && ColonPair(l) == NoPair;
    assert TrimSeparators(v) == v;
  }

  lemma Stop(l: string, stop: char -> bool, k: nat, e: nat)
    requires k <= e <= |l| && (e < |l| ==> stop(l[e])) && forall i :: k <= i < e ==> !stop(l[i])
    ensures Find(l, stop, k) == e
    decreases e - k
  {
    if k < e { Stop(l, stop, k + 1, e); }
  }
}
