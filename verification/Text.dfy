/** The string operations the locator syntax is written with. A char stands for one byte. */
module Text {

  datatype Cutting = NoCut | CutAt(before: string, after: string)

  predicate AllIn(s: string, ok: char -> bool) {
    forall i :: 0 <= i < |s| ==> ok(s[i])
  }

  predicate HasPrefix(s: string, p: string) {
    p <= s
  }

  predicate HasSuffix(s: string, p: string) {
    |p| <= |s| && s[|s| - |p|..] == p
  }

  function TrimSuffix(s: string, c: char): string {
    if s != "" && s[|s| - 1] == c then s[..|s| - 1] else s
  }

  /** strings.Cut at the first c. */
  function Cut(s: string, c: char): Cutting {
    if s == "" then NoCut
    else if s[0] == c then CutAt("", s[1..])
    else match Cut(s[1..], c)
      case NoCut => NoCut
      case CutAt(b, a) => CutAt([s[0]] + b, a)
  }

  /** Cut at the last c. */
  function CutLast(s: string, c: char): Cutting {
    if s == "" then NoCut
    else if s[|s| - 1] == c then CutAt(s[..|s| - 1], "")
    else match CutLast(s[..|s| - 1], c)
      case NoCut => NoCut
      case CutAt(b, a) => CutAt(b, a + [s[|s| - 1]])
  }

  lemma {:induction false} CutOf(b: string, c: char, a: string)
    requires c !in b
    ensures Cut(b + [c] + a, c) == CutAt(b, a)
  {
    var s := b + [c] + a;
    if b == "" {
      assert s[1..] == a;
    } else {
      assert s[1..] == b[1..] + [c] + a;
      CutOf(b[1..], c, a);
      assert [b[0]] + b[1..] == b;
    }
  }

  lemma {:induction false} NoCutOf(s: string, c: char)
    ensures Cut(s, c) == NoCut <==> c !in s
    ensures Cut(s, c).CutAt? ==> s == Cut(s, c).before + [c] + Cut(s, c).after && c !in Cut(s, c).before
  {
    if s != "" && s[0] != c {
      NoCutOf(s[1..], c);
      assert s == [s[0]] + s[1..];
    }
  }

  lemma {:induction false} CutLastOf(b: string, c: char, a: string)
    requires c !in a
    ensures CutLast(b + [c] + a, c) == CutAt(b, a)
  {
    var s := b + [c] + a;
    if a == "" {
      assert s[..|s| - 1] == b;
    } else {
      var a' := a[..|a| - 1];
      assert s[..|s| - 1] == b + [c] + a';
      CutLastOf(b, c, a');
      assert a' + [a[|a| - 1]] == a;
    }
  }

  lemma {:induction false} NoCutLastOf(s: string, c: char)
    requires c !in s
    ensures CutLast(s, c) == NoCut
  {
    if s != "" { NoCutLastOf(s[..|s| - 1], c); }
  }

  /** strings.Split on one separator: never empty. */
  function Split(s: string, c: char): (parts: seq<string>)
    ensures |parts| >= 1
    ensures forall i :: 0 <= i < |parts| ==> c !in parts[i]
  {
    if s == "" then [""]
    else
      var rest := Split(s[1..], c);
      if s[0] == c then [""] + rest else [[s[0]] + rest[0]] + rest[1..]
  }

  function Join(parts: seq<string>, c: char): string {
    if |parts| == 0 then ""
    else if |parts| == 1 then parts[0]
    else parts[0] + [c] + Join(parts[1..], c)
  }

  lemma {:induction false} SplitPlain(s: string, c: char)
    requires c !in s
    ensures Split(s, c) == [s]
  {
    if s != "" {
      SplitPlain(s[1..], c);
      assert [s[0]] + s[1..] == s;
    }
  }

  lemma {:induction false} SplitAt(b: string, c: char, a: string)
    requires c !in b
    ensures Split(b + [c] + a, c) == [b] + Split(a, c)
  {
    var s := b + [c] + a;
    if b == "" {
      assert s[1..] == a;
    } else {
      assert s[1..] == b[1..] + [c] + a;
      SplitAt(b[1..], c, a);
      assert [b[0]] + b[1..] == b;
    }
  }

  lemma {:induction false} SplitJoin(parts: seq<string>, c: char)
    requires |parts| >= 1 && forall i :: 0 <= i < |parts| ==> c !in parts[i]
    ensures Split(Join(parts, c), c) == parts
  {
    if |parts| == 1 {
      SplitPlain(parts[0], c);
      assert parts == [parts[0]];
    } else {
      SplitJoin(parts[1..], c);
      SplitAt(parts[0], c, Join(parts[1..], c));
      assert parts == [parts[0]] + parts[1..];
    }
  }

  lemma {:induction false} SplitJoined(a: string, c: char, b: string)
    ensures Split(a + [c] + b, c) == Split(a, c) + Split(b, c)
  {
    var s := a + [c] + b;
    if a == "" {
      assert s[1..] == b;
    } else {
      assert s[1..] == a[1..] + [c] + b;
      SplitJoined(a[1..], c, b);
    }
  }

  lemma {:induction false} JoinSplit(s: string, c: char)
    ensures Join(Split(s, c), c) == s
  {
    if s != "" {
      JoinSplit(s[1..], c);
      var rest, parts := Split(s[1..], c), Split(s, c);
      if s[0] == c {
        assert parts[1..] == rest;
      } else {
        assert parts[1..] == rest[1..];
        assert |rest| > 1 ==> ([s[0]] + rest[0]) + [c] + Join(rest[1..], c) == [s[0]] + (rest[0] + [c] + Join(rest[1..], c));
      }
    }
  }

  lemma {:induction false} JoinConcat(a: seq<string>, b: seq<string>, c: char)
    requires a != [] && b != []
    ensures Join(a + b, c) == Join(a, c) + [c] + Join(b, c)
  {
    if |a| == 1 {
      assert (a + b)[1..] == b;
    } else {
      JoinConcat(a[1..], b, c);
      assert (a + b)[1..] == a[1..] + b;
    }
  }

  lemma SplitInjective(s: string, t: string, c: char)
    requires Split(s, c) == Split(t, c)
    ensures s == t
  {
    JoinSplit(s, c);
    JoinSplit(t, c);
  }

  lemma AllInCons(c: char, t: string, ok: char -> bool)
    ensures AllIn([c] + t, ok) <==> ok(c) && AllIn(t, ok)
  {
    var s := [c] + t;
    assert s[0] == c && forall i :: 0 <= i < |t| ==> t[i] == s[i + 1];
    assert forall i :: 1 <= i < |s| ==> s[i] == t[i - 1];
  }

  /** The characters of a text are its separator and its parts' characters. */
  lemma {:induction false} SplitChars(s: string, c: char, ok: char -> bool)
    ensures (forall i :: 0 <= i < |s| ==> s[i] == c || ok(s[i])) <==>
      (forall k :: 0 <= k < |Split(s, c)| ==> AllIn(Split(s, c)[k], ok))
  {
    if s != "" {
      var rest, parts := Split(s[1..], c), Split(s, c);
      SplitChars(s[1..], c, ok);
      assert s == [s[0]] + s[1..];
      assert forall k :: 1 <= k < |rest| ==> rest[k] == parts[if s[0] == c then k + 1 else k];
      if s[0] != c {
        assert AllIn(parts[0], ok) <==> ok(s[0]) && AllIn(rest[0], ok) by { AllInCons(s[0], rest[0], ok); }
      } else {
        assert parts[0] == "" && parts[1] == rest[0];
      }
    }
  }

  /** A text that ends in the separator has an empty last part. */
  lemma {:induction false} SplitEnds(s: string, c: char)
    requires s != "" && s[|s| - 1] == c
    ensures Split(s, c)[|Split(s, c)| - 1] == "" && |Split(s, c)| >= 2
  {
    if |s| > 1 { SplitEnds(s[1..], c); }
  }

  function LowerChar(c: char): char {
    if 'A' <= c <= 'Z' then c - 'A' + 'a' else c
  }

  /** strings.ToLower on ASCII letters. */
  function Lower(s: string): (t: string)
    ensures |t| == |s| && forall i :: 0 <= i < |s| ==> t[i] == LowerChar(s[i])
  {
    seq(|s|, i requires 0 <= i < |s| => LowerChar(s[i]))
  }

  lemma LowerFixed(s: string)
    requires forall i :: 0 <= i < |s| ==> !('A' <= s[i] <= 'Z')
    ensures Lower(s) == s
  {
  }
}
