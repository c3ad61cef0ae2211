/** What the parsers keep of a capture: lines, keys, and records with their Partial flag (parse.go, typed.go). */
module Captures {
  import opened Text

  type Record = map<string, string>

  /** A typed capture; partial says lines are known to be missing, cut or not recognised. */
  datatype Records = Records(items: seq<Record>, partial: bool)

  const NAME := "name"
  const UID := "uid"
  const HOME := "home"
  const SHELL := "shell"
  const STATUS := "status"

  // ----- text -----

  /** unicode.IsSpace on one byte. */
  predicate Blank(c: char) {
    c == ' ' || c == '\t' || c == '\r' || c == '\n' || c == '\U{0B}' || c == '\U{0C}'
  }

  /** The class \s of a regular expression, which leaves out the vertical tab. */
  predicate Space(c: char) { Blank(c) && c != '\U{0B}' }

  function TrimLeft(s: string): string {
    if s != "" && Blank(s[0]) then TrimLeft(s[1..]) else s
  }

  function TrimRight(s: string): string {
    if s != "" && Blank(s[|s| - 1]) then TrimRight(s[..|s| - 1]) else s
  }

  function TrimSpace(s: string): string { TrimRight(TrimLeft(s)) }

  function TrimReturns(s: string): string {
    if s != "" && s[|s| - 1] == '\r' then TrimReturns(s[..|s| - 1]) else s
  }

  /** The index of the first blank at or after k, |s| when there is none. */
  function WordEnd(s: string, k: nat): (i: nat)
    requires k <= |s|
    ensures k <= i <= |s|
    ensures k < |s| && !Blank(s[k]) ==> k < i
    decreases |s| - k
  {
    if k < |s| && !Blank(s[k]) then WordEnd(s, k + 1) else k
  }

  /** strings.Fields. */
  function Fields(s: string): seq<string>
    decreases |s|
  {
    if s == "" then []
    else if Blank(s[0]) then Fields(s[1..])
    else [s[..WordEnd(s, 0)]] + Fields(s[WordEnd(s, 0)..])
  }

  lemma {:induction false} FieldsDropBlank(s: string, c: char)
    requires Blank(c)
    ensures Fields(s + [c]) == Fields(s)
    decreases |s|
  {
    var t := s + [c];
    if s == "" {
      assert t[1..] == "";
    } else if Blank(s[0]) {
      assert t[1..] == s[1..] + [c];
      FieldsDropBlank(s[1..], c);
    } else {
      WordEndGrown(s, c, 0);
      var w := WordEnd(s, 0);
      assert t[..w] == s[..w] && t[w..] == s[w..] + [c];
      FieldsDropBlank(s[w..], c);
    }
  }

  lemma {:induction false} WordEndGrown(s: string, c: char, k: nat)
    requires k <= |s| && Blank(c)
    ensures WordEnd(s + [c], k) == WordEnd(s, k)
    decreases |s| - k
  {
    if k < |s| && !Blank(s[k]) { WordEndGrown(s, c, k + 1); }
  }

  lemma {:induction false} FieldsTrimRight(s: string)
    ensures Fields(TrimRight(s)) == Fields(s)
  {
    if s != "" && Blank(s[|s| - 1]) {
      FieldsTrimRight(s[..|s| - 1]);
      FieldsDropBlank(s[..|s| - 1], s[|s| - 1]);
      assert s[..|s| - 1] + [s[|s| - 1]] == s;
    }
  }

  lemma {:induction false} FieldsTrimLeft(s: string)
    ensures Fields(TrimLeft(s)) == Fields(s)
  {
    if s != "" && Blank(s[0]) { FieldsTrimLeft(s[1..]); }
  }

  /** Trimming an excerpt does not change what it quotes. */
  lemma FieldsTrim(s: string)
    ensures Fields(TrimSpace(s)) == Fields(s)
  {
    FieldsTrimRight(TrimLeft(s));
    FieldsTrimLeft(s);
  }

  predicate HoldsAt(s: string, sub: string, i: nat) { i + |sub| <= |s| && s[i..i + |sub|] == sub }

  /** strings.Contains. */
  predicate Holds(s: string, sub: string) { exists i: nat | i <= |s| :: HoldsAt(s, sub, i) }

  predicate HasMarker(s: string) { Holds(s, "[REDACTED:") || Holds(s, "[TRUNCATED:") }

  predicate MarkerLine(l: string) {
    HasPrefix(TrimSpace(l), "[TRUNCATED:") || HasPrefix(TrimSpace(l), "[REDACTED:")
  }

  lemma {:induction false} TrimReturnsPart(l: string)
    ensures TrimReturns(l) <= l && TrimReturns(TrimReturns(l)) == TrimReturns(l)
  {
    if l != "" && l[|l| - 1] == '\r' { TrimReturnsPart(l[..|l| - 1]); }
  }

  lemma {:induction false} TrimRightPart(s: string)
    ensures TrimRight(s) <= s
  {
    if s != "" && Blank(s[|s| - 1]) { TrimRightPart(s[..|s| - 1]); }
  }

  // ----- lines -----

  /** What one line of text leaves in the parsed lines. */
  function Kept(l: string): seq<string> {
    if TrimSpace(TrimReturns(l)) == "" then [] else [TrimReturns(l)]
  }

  function KeptAll(ls: seq<string>): seq<string> {
    if ls == [] then [] else KeptAll(ls[..|ls| - 1]) + Kept(ls[|ls| - 1])
  }

  function Lines(raw: string): seq<string> { KeptAll(Split(raw, '\n')) }

  method ParseLines(raw: string) returns (out: seq<string>)
    ensures out == Lines(raw)
  {
    out := [];
    var parts := Split(raw, '\n');
    for i := 0 to |parts|
      invariant out == KeptAll(parts[..i])
    {
      hide TrimSpace, TrimReturns, Split;
      assert parts[..i + 1][..i] == parts[..i];
      var l := TrimReturns(parts[i]);
      if TrimSpace(l) == "" { continue; }
      out := out + [l];
    }
    assert parts[..|parts|] == parts;
  }

  lemma {:induction false} KeptAllConcat(a: seq<string>, b: seq<string>)
    ensures KeptAll(a + b) == KeptAll(a) + KeptAll(b)
  {
    hide Kept;
    if b == [] {
      assert a + b == a;
    } else {
      assert (a + b)[..|a + b| - 1] == a + b[..|b| - 1];
      KeptAllConcat(a, b[..|b| - 1]);
    }
  }

  /** Splitting at a separator splits the two sides on their own. */
  /** Appended whole lines leave the lines before them as they were. */
  lemma LinesAppended(raw: string, more: string)
    ensures Lines(raw + "\n" + more) == Lines(raw) + Lines(more)
  {
    hide KeptAll, Split;
    SplitJoined(raw, '\n', more);
    KeptAllConcat(Split(raw, '\n'), Split(more, '\n'));
  }

  /** A cut leaves every line before the cut whole and the line at the cut a prefix of itself. */
  lemma {:induction false} SplitCut(s: string, c: char, k: nat)
    requires k <= |s|
    ensures |Split(s[..k], c)| <= |Split(s, c)|
    ensures var n := |Split(s[..k], c)| - 1;
            Split(s[..k], c)[..n] == Split(s, c)[..n] && Split(s[..k], c)[n] <= Split(s, c)[n]
  {
    if k > 0 {
      assert s[..k][1..] == s[1..][..k - 1];
      SplitCut(s[1..], c, k - 1);
      SplitHead(s[..k], c);
      SplitHead(s, c);
      hide Split;
      CutHead(s[0] == c, s[0], Split(s[1..][..k - 1], c), Split(s[1..], c));
    }
  }

  /** The parts of a text from the parts of its tail. */
  function Headed(cut: bool, c: char, rest: seq<string>): seq<string>
    requires rest != []
  {
    if cut then [""] + rest else [[c] + rest[0]] + rest[1..]
  }

  lemma SplitHead(s: string, c: char)
    requires s != ""
    ensures Split(s, c) == Headed(s[0] == c, s[0], Split(s[1..], c))
  {
  }

  lemma CutHead(cut: bool, c: char, short: seq<string>, whole: seq<string>)
    requires 0 < |short| <= |whole| && short[..|short| - 1] == whole[..|short| - 1] && short[|short| - 1] <= whole[|short| - 1]
    ensures var a, b := Headed(cut, c, short), Headed(cut, c, whole);
      0 < |a| <= |b| && a[..|a| - 1] == b[..|a| - 1] && a[|a| - 1] <= b[|a| - 1]
  {
    var a, b, n := Headed(cut, c, short), Headed(cut, c, whole), |short| - 1;
    forall i | 0 <= i < |a| - 1 ensures a[i] == b[i] {
      var k := if cut then i - 1 else i;
      assert 0 <= k < n ==> short[..n][k] == whole[..n][k];
    }
  }

  /** The lines of a text before its last line break, which more text cannot change. */
  function WholeLines(t: string): seq<string> { KeptAll(Split(t, '\n')[..|Split(t, '\n')| - 1]) }

  /** The text after the last line break, which more text continues. */
  function Unfinished(t: string): string { Split(t, '\n')[|Split(t, '\n')| - 1] }

  lemma HeadExtended(cut: bool, c: char, parts: seq<string>, rest: string)
    requires parts != []
    ensures var n, h := |parts| - 1, Headed(cut, c, parts);
      Headed(cut, c, parts[..n] + [parts[n] + rest]) == h[..|h| - 1] + [h[|h| - 1] + rest]
  {
    var n, h := |parts| - 1, Headed(cut, c, parts);
    var longer := Headed(cut, c, parts[..n] + [parts[n] + rest]);
    if !cut && n == 0 {
      assert longer == [[c] + (parts[0] + rest)] && [c] + (parts[0] + rest) == [c] + parts[0] + rest;
    }
  }

  lemma {:induction false} SplitExtended(t: string, c: char, rest: string)
    requires c !in rest
    ensures Split(t + rest, c) == Split(t, c)[..|Split(t, c)| - 1] + [Split(t, c)[|Split(t, c)| - 1] + rest]
  {
    if t == "" {
      assert t + rest == rest;
      SplitPlain(rest, c);
    } else {
      assert (t + rest)[1..] == t[1..] + rest;
      SplitExtended(t[1..], c, rest);
      SplitHead(t, c);
      SplitHead(t + rest, c);
      hide Split;
      HeadExtended(t[0] == c, t[0], Split(t[1..], c), rest);
    }
  }

  /** Text that continues the unfinished line leaves the whole lines and makes that line longer. */
  lemma LinesExtended(t: string, rest: string)
    requires '\n' !in rest
    ensures Lines(t + rest) == WholeLines(t) + Kept(Unfinished(t) + rest)
  {
    hide Split, Kept;
    SplitExtended(t, '\n', rest);
    var parts, last := Split(t, '\n'), Unfinished(t) + rest;
    KeptAllConcat(parts[..|parts| - 1], [last]);
    assert KeptAll([last]) == Kept(last) by { assert [last][..0] == []; }
  }

  /** Whatever follows a text, its whole lines come first. */
  lemma WholeLinesStay(t: string, rest: string) returns (tail: seq<string>)
    ensures Lines(t + rest) == WholeLines(t) + tail
  {
    hide Split, Kept;
    assert (t + rest)[..|t|] == t;
    SplitCut(t + rest, '\n', |t|);
    var n, parts := |Split(t, '\n')| - 1, Split(t + rest, '\n');
    tail := KeptAll(parts[n..]);
    KeptAllConcat(parts[..n], parts[n..]);
    assert parts == parts[..n] + parts[n..];
  }

  // ----- key and value lines -----

  datatype Pair = NoPair | Pair(key: string, value: string)

  predicate AssignStop(c: char) { Space(c) || c == ':' || c == '=' }
  predicate ColonStop(c: char) { c == ':' || c == '=' }
  predicate Gap(c: char) { c == ' ' || c == '\t' }

  /** The index of the first character of the class at or after k, |s| when there is none. */
  function Find(s: string, stop: char -> bool, k: nat): (i: nat)
    requires k <= |s|
    ensures k <= i <= |s|
    ensures i < |s| ==> stop(s[i])
    decreases |s| - k
  {
    if k == |s| || stop(s[k]) then k else Find(s, stop, k + 1)
  }

  function SkipGap(s: string, k: nat): (i: nat)
    requires k <= |s|
    ensures k <= i <= |s|
    ensures forall m :: k <= m < i ==> Gap(s[m])
    decreases |s| - k
  {
    if k < |s| && Gap(s[k]) then SkipGap(s, k + 1) else k
  }

  /** KEY=value, the key without blanks, colons and equals signs. */
  function AssignPair(l: string): Pair {
    var i := Find(l, AssignStop, 0);
    if 0 < i < |l| && l[i] == '=' then Pair(l[..i], l[i + 1..]) else NoPair
  }

  /** Some Key: value, with at least one blank between. */
  function ColonPair(l: string): Pair {
    var i := Find(l, ColonStop, 0);
    if 0 < i < |l| && l[i] == ':' then
      var v := SkipGap(l, i + 1);
      if i + 1 < v < |l| && !Space(l[v]) then Pair(l[..i], l[v..]) else NoPair
    else NoPair
  }

  function TrimSeparators(s: string): string {
    if s != "" && ColonStop(s[0]) then TrimSeparators(s[1..]) else s
  }

  /** key value, at the first blank. */
  function BlankPair(l: string): Pair {
    var i := Find(l, Gap, 0);
    if 0 < i < |l| then Pair(l[..i], TrimSeparators(TrimSpace(l[i + 1..]))) else NoPair
  }

  function Unquote(v: string): string {
    if |v| >= 2 && v[0] == v[|v| - 1] && (v[0] == '"' || v[0] == '\'') then v[1..|v| - 1] else v
  }

  /** The forms in the order they are tried. */
  function RawPair(l: string): Pair {
    if AssignPair(l).Pair? then AssignPair(l) else if ColonPair(l).Pair? then ColonPair(l) else BlankPair(l)
  }

  function PairOf(line: string): Pair {
    var l := TrimSpace(line);
    if HasPrefix(l, "#") || MarkerLine(l) then NoPair
    else match RawPair(l)
      case NoPair => NoPair
      case Pair(k, v) => Pair(Lower(TrimSpace(k)), Unquote(TrimSpace(v)))
  }

  /** The value of a key: the first line that gives it one. */
  function FirstValue(lines: seq<string>, key: string): Pair {
    if lines == [] then NoPair
    else if PairOf(lines[0]).Pair? && PairOf(lines[0]).key == key then PairOf(lines[0])
    else FirstValue(lines[1..], key)
  }

  /** kv holds exactly the first value of every key the lines name. */
  ghost predicate FirstValues(lines: seq<string>, kv: Record) {
    forall key :: if key in kv then FirstValue(lines, key) == Pair(key, kv[key]) else FirstValue(lines, key) == NoPair
  }

  lemma {:induction false} FirstValueGrown(lines: seq<string>, l: string, key: string)
    ensures FirstValue(lines + [l], key) ==
            if FirstValue(lines, key).Pair? then FirstValue(lines, key)
            else if PairOf(l).Pair? && PairOf(l).key == key then PairOf(l) else NoPair
  {
    hide PairOf;
    if lines == [] {
      assert lines + [l] == [l];
      assert [l][1..] == [];
    } else {
      assert (lines + [l])[1..] == lines[1..] + [l];
      FirstValueGrown(lines[1..], l, key);
    }
  }

  lemma FirstValuesGrown(lines: seq<string>, l: string, kv: Record)
    requires FirstValues(lines, kv)
    ensures PairOf(l).NoPair? ==> FirstValues(lines + [l], kv)
    ensures PairOf(l).Pair? && PairOf(l).key in kv ==> FirstValues(lines + [l], kv)
    ensures PairOf(l).Pair? && PairOf(l).key !in kv ==> FirstValues(lines + [l], kv[PairOf(l).key := PairOf(l).value])
  {
    hide PairOf, FirstValue;
    forall key { FirstValueGrown(lines, l, key); }
  }

  /** The map of key and value lines, line after line: a key keeps its first value. */
  function KV(lines: seq<string>): Record {
    if lines == [] then map[]
    else
      var kv := KV(lines[..|lines| - 1]);
      match PairOf(lines[|lines| - 1])
      case NoPair => kv
      case Pair(k, v) => if k in kv then kv else kv[k := v]
  }

  lemma {:induction false} KVFirst(lines: seq<string>)
    ensures FirstValues(lines, KV(lines))
  {
    if lines == [] {
      FirstOfNone();
    } else {
      var rest, l := lines[..|lines| - 1], lines[|lines| - 1];
      KVFirst(rest);
      hide FirstValues, PairOf;
      FirstValuesGrown(rest, l, KV(rest));
      assert lines == rest + [l];
    }
  }

  method ParseKV(raw: string) returns (out: Record)
    ensures out == KV(Lines(raw)) && FirstValues(Lines(raw), out)
  {
    hide FirstValues, Lines, TrimSpace, RawPair, MarkerLine, Unquote, Lower;
    out := map[];
    var lines := ParseLines(raw);
    for i := 0 to |lines|
      invariant out == KV(lines[..i])
    {
      assert lines[..i + 1][..i] == lines[..i];
      var l := TrimSpace(lines[i]);
      if HasPrefix(l, "#") || MarkerLine(l) { continue; }
      var pair := RawPair(l);
      if pair == NoPair { continue; }
      var k, v := Lower(TrimSpace(pair.key)), Unquote(TrimSpace(pair.value));
      if k !in out { out := out[k := v]; }
    }
    assert lines[..|lines|] == lines;
    KVFirst(lines);
  }

  lemma FirstOfNone()
    ensures FirstValues([], map[])
  {
  }

  // ----- typed records -----

  /** What a record parser makes of one line: a record, nothing, or a line it does not recognise. */
  datatype Row = Row(record: Record) | Skipped | Bad

  /** One line of /etc/passwd, or of a listing of names and ids. */
  function AccountRow(l: string): Row {
    if HasPrefix(l, "#") then Skipped
    else if Holds(l, "[REDACTED") || Holds(l, "[TRUNCATED") then Bad
    else
      var f := Split(l, ':');
      if |f| == 7 then Row(map[NAME := f[0], UID := f[2], HOME := f[5], SHELL := f[6]])
      else
        var w := Fields(l);
        if |w| == 2 then Row(map[NAME := w[0], UID := w[1]]) else Bad
  }

  /** One line of a password status listing. */
  function StatusRow(l: string): Row {
    var f := Fields(l);
    if |f| < 2 then Bad else Row(map[NAME := f[0], STATUS := f[1]])
  }

  function RecordOf(row: string -> Row, l: string): seq<Record> {
    if MarkerLine(l) then []
    else match row(l)
      case Row(r) => [r]
      case Skipped => []
      case Bad => []
  }

  predicate Loses(row: string -> Row, l: string) { MarkerLine(l) || row(l).Bad? }

  function RecordsOf(row: string -> Row, lines: seq<string>): seq<Record> {
    if lines == [] then [] else RecordsOf(row, lines[..|lines| - 1]) + RecordOf(row, lines[|lines| - 1])
  }

  /** The record set of a capture: every recognised line's record in order, partial exactly when a line was lost. */
  function Typed(row: string -> Row, raw: string): Records {
    Records(RecordsOf(row, Lines(raw)), exists i :: 0 <= i < |Lines(raw)| && Loses(row, Lines(raw)[i]))
  }

  method BodyLines(lines: seq<string>) returns (body: seq<string>, marked: bool)
    ensures body == Bodies(lines)
    ensures marked <==> exists k :: 0 <= k < |lines| && MarkerLine(lines[k])
  {
    hide MarkerLine;
    body, marked := [], false;
    for i := 0 to |lines|
      invariant body == Bodies(lines[..i])
      invariant marked <==> exists k :: 0 <= k < i && MarkerLine(lines[k])
    {
      assert lines[..i + 1][..i] == lines[..i];
      if MarkerLine(lines[i]) {
        marked := true;
        continue;
      }
      body := body + [lines[i]];
    }
    assert lines[..|lines|] == lines;
  }

  method ReadRows(row: string -> Row, body: seq<string>) returns (items: seq<Record>, unparsed: nat)
    requires forall l :: l in body ==> !MarkerLine(l)
    ensures items == RecordsOf(row, body)
    ensures unparsed > 0 <==> exists k :: 0 <= k < |body| && row(body[k]).Bad?
  {
    hide MarkerLine;
    items, unparsed := [], 0;
    for i := 0 to |body|
      invariant items == RecordsOf(row, body[..i])
      invariant unparsed > 0 <==> exists k :: 0 <= k < i && row(body[k]).Bad?
    {
      assert body[..i + 1][..i] == body[..i];
      assert !MarkerLine(body[i]);
      match row(body[i]) {
        case Row(r) => items := items + [r];
        case Skipped =>
        case Bad => unparsed := unparsed + 1;
      }
    }
    assert body[..|body|] == body;
  }

  /** parseRecords for one shape: the markers first, then the shape's own parser over the body. */
  method ParseRecords(row: string -> Row, raw: string) returns (recs: Records)
    ensures recs == Typed(row, raw)
  {
    hide Lines, MarkerLine, Bodies, RecordsOf;
    var lines := ParseLines(raw);
    var body, marked := BodyLines(lines);
    BodiesExactly(lines);
    var items, unparsed := ReadRows(row, body);
    BodiesRecords(row, lines);
    LostExactly(row, lines, body);
    recs := Records(items, marked || unparsed > 0);
  }

  function Bodies(lines: seq<string>): seq<string> {
    if lines == [] then []
    else if MarkerLine(lines[|lines| - 1]) then Bodies(lines[..|lines| - 1])
    else Bodies(lines[..|lines| - 1]) + [lines[|lines| - 1]]
  }

  lemma {:induction false} BodiesExactly(lines: seq<string>)
    ensures forall l :: l in Bodies(lines) <==> l in lines && !MarkerLine(l)
  {
    hide MarkerLine;
    if lines != [] {
      BodiesExactly(lines[..|lines| - 1]);
      assert lines == lines[..|lines| - 1] + [lines[|lines| - 1]];
    }
  }

  lemma {:induction false} BodiesRecords(row: string -> Row, lines: seq<string>)
    ensures RecordsOf(row, Bodies(lines)) == RecordsOf(row, lines)
  {
    hide MarkerLine;
    if lines != [] {
      BodiesRecords(row, lines[..|lines| - 1]);
      var b := Bodies(lines[..|lines| - 1]);
      assert (b + [lines[|lines| - 1]])[..|b|] == b;
    }
  }

  lemma LostExactly(row: string -> Row, lines: seq<string>, body: seq<string>)
    requires forall l :: l in body <==> l in lines && !MarkerLine(l)
    ensures (exists k :: 0 <= k < |lines| && Loses(row, lines[k])) <==>
            ((exists k :: 0 <= k < |lines| && MarkerLine(lines[k])) || (exists k :: 0 <= k < |body| && row(body[k]).Bad?))
  {
    hide MarkerLine;
    if k :| 0 <= k < |lines| && Loses(row, lines[k]) && !MarkerLine(lines[k]) {
      assert lines[k] in body;
      var j :| 0 <= j < |body| && body[j] == lines[k];
      assert row(body[j]).Bad?;
    }
    if k :| 0 <= k < |body| && row(body[k]).Bad? {
      assert body[k] in lines;
      var j :| 0 <= j < |lines| && lines[j] == body[k];
      assert Loses(row, lines[j]);
    }
    if k :| 0 <= k < |lines| && MarkerLine(lines[k]) {
      assert Loses(row, lines[k]);
    }
  }

  lemma {:induction false} RecordsConcat(row: string -> Row, a: seq<string>, b: seq<string>)
    ensures RecordsOf(row, a + b) == RecordsOf(row, a) + RecordsOf(row, b)
  {
    hide RecordOf;
    if b == [] {
      assert a + b == a;
    } else {
      assert (a + b)[..|a + b| - 1] == a + b[..|b| - 1];
      RecordsConcat(row, a, b[..|b| - 1]);
    }
  }

  // ----- truncation of the text -----

  /** What a cut writes on a line of its own after the bytes it keeps. */
  predicate CutMark(m: string) { HasPrefix(m, "[TRUNCATED:") && '\n' !in m && TrimReturns(m) == m && TrimSpace(m) == m }

  function Truncated(raw: string, k: nat, mark: string): string
    requires k <= |raw|
  {
    raw[..k] + "\n" + mark
  }

  /** A cut record set: all but its last record are the whole set's first ones, the last may be a fragment. */
  predicate Fragment(cut: Records, whole: Records) {
    cut.partial &&
    (cut.items == [] ||
     (|whole.items| >= |cut.items| - 1 && whole.items[..|cut.items| - 1] == cut.items[..|cut.items| - 1]))
  }

  lemma RecordsOfOne(row: string -> Row, l: string)
    ensures |RecordsOf(row, Kept(l))| <= 1
  {
    assert Kept(l)[..0] == [];
  }

  /** Wherever the text was cut, the records read from it are a fragment of the records of the whole text. */
  lemma TruncatedFragment(row: string -> Row, raw: string, k: nat, mark: string)
    requires k <= |raw| && CutMark(mark)
    ensures Fragment(Typed(row, Truncated(raw, k, mark)), Typed(row, raw))
  {
    hide Split, Kept, KeptAll, RecordsOf, RecordOf;
    SplitJoined(raw[..k], '\n', mark);
    SplitPlain(mark, '\n');
    SplitCut(raw, '\n', k);
    var short, whole := Split(raw[..k], '\n'), Split(raw, '\n');
    var n := |short| - 1;
    var head := whole[..n];
    assert short == head + [short[n]];
    assert whole == head + whole[n..];
    var cutLines := Lines(Truncated(raw, k, mark));
    assert Split(Truncated(raw, k, mark), '\n') == head + [short[n]] + [mark];
    KeptThree(head, short[n], mark);
    KeptAllConcat(head, whole[n..]);
    MarkKept(mark);
    var lines := KeptAll(head);
    assert cutLines == lines + (Kept(short[n]) + [mark]);
    RecordsConcat(row, lines, KeptAll(whole[n..]));
    RecordsConcat(row, lines, Kept(short[n]) + [mark]);
    RecordsConcat(row, Kept(short[n]), [mark]);
    RecordsOfOne(row, short[n]);
    NoRecord(row, mark);
    assert cutLines[|cutLines| - 1] == mark;
    assert Loses(row, cutLines[|cutLines| - 1]);
    var r := RecordsOf(row, lines);
    assert |RecordsOf(row, cutLines)| <= |r| + 1;
    assert RecordsOf(row, cutLines)[..|r|] == r && RecordsOf(row, Lines(raw))[..|r|] == r;
  }

  lemma KeptThree(head: seq<string>, a: string, b: string)
    ensures KeptAll(head + [a] + [b]) == KeptAll(head) + (Kept(a) + Kept(b))
  {
    hide Kept;
    KeptAllConcat(head + [a], [b]);
    KeptAllConcat(head, [a]);
    assert KeptAll([a]) == Kept(a) by { assert [a][..0] == []; }
    assert KeptAll([b]) == Kept(b) by { assert [b][..0] == []; }
  }

  lemma MarkKept(mark: string)
    requires CutMark(mark)
    ensures Kept(mark) == [mark] && MarkerLine(mark)
  {
  }

  lemma NoRecord(row: string -> Row, mark: string)
    requires MarkerLine(mark)
    ensures RecordsOf(row, [mark]) == []
  {
    hide MarkerLine;
    assert [mark][..0] == [];
  }
}
