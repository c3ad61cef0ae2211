/** The three forms of a key and value line, exactly: KEY=value, Some Key: value, key value (parse.go). */
module KeyLines {
  import opened Text
  import opened Captures
  import opened Rules

  predicate Gaps(s: string) { s != "" && forall i :: 0 <= i < |s| ==> s[i] == ' ' || s[i] == '\t' }

  /** KEY=value: no blank, colon or equals sign in the key. */
  predicate AssignForm(l: string, k: string, v: string) {
    l == k + "=" + v && k != "" && forall i :: 0 <= i < |k| ==> k[i] !in " \t\r\n\U{0C}:="
  }

  /** Some Key: value, with blanks before the value; the key may hold blanks, and no colon or equals sign. */
  predicate ColonForm(l: string, k: string, gap: string, v: string) {
    l == k + ":" + gap + v && k != "" && ':' !in k && '=' !in k && Gaps(gap) && v != "" && v[0] !in " \t\r\n\U{0C}"
  }

  /** key value: the first blank ends the key. */
  predicate BlankForm(l: string, k: string, gap: char, rest: string) {
    l == k + [gap] + rest && k != "" && (gap == ' ' || gap == '\t') && ' ' !in k && '\t' !in k
  }

  lemma {:induction false} FindClear(s: string, stop: char -> bool, k: nat)
    requires k <= |s|
    ensures forall j :: k <= j < Find(s, stop, k) ==> !stop(s[j])
    decreases |s| - k
  {
    if k < |s| && !stop(s[k]) { FindClear(s, stop, k + 1); }
  }

  lemma {:induction false} SkipStops(s: string, k: nat, i: nat)
    requires k <= i <= |s| && (forall j :: k <= j < i ==> Gap(s[j])) && (i < |s| ==> !Gap(s[i]))
    ensures SkipGap(s, k) == i
    decreases i - k
  {
    if k < i { SkipStops(s, k + 1, i); }
  }

  lemma AssignExactly(l: string, k: string, v: string)
    ensures AssignPair(l) == Pair(k, v) <==> AssignForm(l, k, v)
  {
    hide Find;
    if AssignForm(l, k, v) {
      assert l[..|k|] == k && l[|k|] == '=' && l[|k| + 1..] == v;
      Stop(l, AssignStop, 0, |k|);
    }
    if AssignPair(l) == Pair(k, v) {
      FindClear(l, AssignStop, 0);
      assert l == l[..|k|] + [l[|k|]] + l[|k| + 1..];
    }
  }

  lemma ColonExactly(l: string, k: string, v: string)
    ensures ColonPair(l) == Pair(k, v) <==> exists gap :: ColonForm(l, k, gap, v)
  {
    hide Find, SkipGap;
    if gap :| ColonForm(l, k, gap, v) { ColonReads(l, k, gap, v); }
    if ColonPair(l) == Pair(k, v) { ColonFormed(l, k, v); }
  }

  lemma ColonFormed(l: string, k: string, v: string)
    requires ColonPair(l) == Pair(k, v)
    ensures exists gap :: ColonForm(l, k, gap, v)
  {
    hide Find, SkipGap;
    FindClear(l, ColonStop, 0);
    var i := |k|;
    var at := SkipGap(l, i + 1);
    var gap := l[i + 1..at];
    assert l == k + ":" + gap + v;
    assert forall j :: 0 <= j < |k| ==> k[j] == l[j] && !ColonStop(k[j]);
    assert forall j :: 0 <= j < |gap| ==> Gap(gap[j]);
    assert ColonForm(l, k, gap, v);
  }

  lemma ColonReads(l: string, k: string, gap: string, v: string)
    requires ColonForm(l, k, gap, v)
    ensures ColonPair(l) == Pair(k, v)
  {
    hide Find, SkipGap;
    var i, at := |k|, |k| + 1 + |gap|;
    assert l[..i] == k && l[i] == ':' && l[at..] == v && l[at] == v[0];
    assert forall j :: 0 <= j < i ==> l[j] == k[j];
    Stop(l, ColonStop, 0, i);
    assert forall j :: i + 1 <= j < at ==> l[j] == gap[j - i - 1];
    SkipStops(l, i + 1, at);
  }

  lemma BlankExactly(l: string, k: string, v: string)
    ensures BlankPair(l) == Pair(k, v) <==> exists gap, rest :: BlankForm(l, k, gap, rest) && v == TrimSeparators(TrimSpace(rest))
  {
    hide Find, TrimSpace, TrimSeparators;
    if gap, rest :| BlankForm(l, k, gap, rest) && v == TrimSeparators(TrimSpace(rest)) {
      assert l[..|k|] == k && l[|k|] == gap && l[|k| + 1..] == rest;
      assert forall j :: 0 <= j < |k| ==> l[j] == k[j];
      Stop(l, Gap, 0, |k|);
    }
    if BlankPair(l) == Pair(k, v) {
      FindClear(l, Gap, 0);
      var rest := l[|k| + 1..];
      assert l == l[..|k|] + [l[|k|]] + rest;
      assert BlankForm(l, k, l[|k|], rest);
    }
  }

  /** The value of a line: of the first form it has, trimmed, without the quotes around it; the key in lower case. */
  lemma LineReads(line: string, k: string, v: string)
    requires var l := TrimSpace(line); !HasPrefix(l, "#") && !MarkerLine(l)
    ensures var l := TrimSpace(line);
      (AssignForm(l, k, v) ==> PairOf(line) == Pair(Lower(TrimSpace(k)), Unquote(TrimSpace(v)))) &&
      ((forall a, b :: !AssignForm(l, a, b)) && (exists gap :: ColonForm(l, k, gap, v)) ==>
        PairOf(line) == Pair(Lower(TrimSpace(k)), Unquote(TrimSpace(v)))) &&
      ((forall a, b :: !AssignForm(l, a, b)) && (forall a, gap, b :: !ColonForm(l, a, gap, b)) && (exists gap, rest :: BlankForm(l, k, gap, rest) && v == TrimSeparators(TrimSpace(rest))) ==>
        PairOf(line) == Pair(Lower(TrimSpace(k)), Unquote(TrimSpace(v))))
  {
    var l := TrimSpace(line);
    AssignExactly(l, k, v);
    ColonExactly(l, k, v);
    BlankExactly(l, k, v);
    hide AssignForm, ColonForm, BlankForm, TrimSpace, Unquote, Lower, MarkerLine, TrimSeparators;
    if AssignPair(l).Pair? { AssignExactly(l, AssignPair(l).key, AssignPair(l).value); }
    if ColonPair(l).Pair? { ColonExactly(l, ColonPair(l).key, ColonPair(l).value); }
    hide AssignPair, ColonPair, BlankPair;
  }

  /** Quotes go only in pairs, one of each end. */
  lemma Unquoted(q: char, v: string)
    requires q == '"' || q == '\''
    ensures Unquote([q] + v + [q]) == v
  {
    var s := [q] + v + [q];
    assert s[1..|s| - 1] == v;
  }

  /** For one, what sestatus prints: a key of two words, blanks, a word. */
  lemma TwoWordKey(a: string, b: string, gap: string, v: string)
    requires Word(a) && Word(b) && Gaps(gap) && Word(v)
    ensures PairOf(a + " " + b + ":" + gap + v) == Pair(a + " " + b, v)
  {
    var k := a + " " + b;
    var l := k + ":" + gap + v;
    assert l[0] == a[0] && l[|l| - 1] == v[|v| - 1] && k[0] == a[0] && k[|k| - 1] == b[|b| - 1] && l[|a|] == ' ';
    Trimmed(l);
    Trimmed(k);
    Plain(v);
    LowerFixed(k);
    NotMarked(l);
    NoAssign(l, |a|);
    assert ColonForm(l, k, gap, v);
    hide AssignForm, ColonForm, BlankForm, TrimSpace, MarkerLine, PairOf, HasMarker, Word, Gaps, Lower, TrimSeparators;
    LineReads(l, k, v);
    assert Unquote(v) == v by { NoQuotes(v); }
  }

  lemma NoQuotes(v: string)
    requires Word(v)
    ensures Unquote(v) == v
  {
  }

  lemma NotMarked(l: string)
    requires l != "" && 'a' <= l[0] <= 'z' && TrimSpace(l) == l
    ensures !MarkerLine(l) && !HasPrefix(l, "#")
  {
  }

  lemma Trimmed(s: string)
    requires s != "" && !Blank(s[0]) && !Blank(s[|s| - 1])
    ensures TrimSpace(s) == s
  {
  }

  lemma NoAssign(l: string, n: nat)
    requires n < |l| && l[n] == ' ' && forall i :: 0 <= i < n ==> l[i] != '='
    ensures forall k, v :: !AssignForm(l, k, v)
  {
    forall k, v ensures !AssignForm(l, k, v) {
      if l == k + "=" + v {
        assert l[|k|] == '=';
        assert l[n] == k[n];
      }
    }
  }

  // ----- from a line to the verdict -----

  lemma OnePair(k: string, v: string)
    requires Word(k) && Word(v)
    ensures KV(Lines(k + " " + v)) == map[k := v]
  {
    var l := k + " " + v;
    OnlyLine(k, v);
    WordPair(k, v);
    hide Lines, PairOf, Word;
    assert [l][..0] == [];
    assert KV([l]) == map[k := v];
  }

  lemma OnlyLine(k: string, v: string)
    requires Word(k) && Word(v)
    ensures Lines(k + " " + v) == [k + " " + v]
  {
    hide Lines;
    var l := k + " " + v;
    assert l[0] == k[0] && l[|l| - 1] == v[|v| - 1];
    assert '\n' !in k && '\n' !in v;
    assert '\n' !in l;
    OneLine(l);
  }

  /** A key and its value: matched exactly when the value is the rule's in any case, disproved exactly when it is another known one, open otherwise. */
  lemma KeyDecides(p: Equals, k: string, v: string)
    requires Word(k) && Word(v)
    ensures var verdict := KeyVerdict(p, k + " " + v);
      (verdict.status == Matched <==> p.field == k && Lower(p.value) == v) &&
      (verdict.status == NotMatched <==> p.field == k && Lower(p.value) != v && exists i :: 0 <= i < |p.known| && Lower(p.known[i]) == v)
  {
    OnePair(k, v);
    Plain(v);
    hide Lines, KV, HasMarker, TrimSpace, Word;
  }
}
