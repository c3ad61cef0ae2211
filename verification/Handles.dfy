/** Unique people handles made from GitHub logins (candidateHandle). */
module Handles {
  import opened Decimal

  const MAX_LENGTH := 63

  /** len() of a Go map is an int, so no map holds more keys than this. */
  const MAX_KEYS := 0x7FFF_FFFF_FFFF_FFFF

  predicate IsAlnum(c: char) {
    'a' <= c <= 'z' || IsDigit(c)
  }

  /** The asset-name pattern: ^[a-z0-9][a-z0-9-]{0,62}$ */
  predicate NamePattern(s: string) {
    && 1 <= |s| <= MAX_LENGTH
    && IsAlnum(s[0])
    && forall i :: 0 <= i < |s| ==> IsAlnum(s[i]) || s[i] == '-'
  }

  function Sanitize(login: string): (s: string)
    ensures |s| == |login|
    ensures forall i :: 0 <= i < |s| ==> IsAlnum(s[i]) || s[i] == '-'
    ensures forall i :: 0 <= i < |s| ==> s[i] == if IsAlnum(login[i]) then login[i] else '-'
  {
    seq(|login|, i requires 0 <= i < |login| => if IsAlnum(login[i]) then login[i] else '-')
  }

  function TrimLeft(s: string): (t: string)
    ensures |t| <= |s| && t == s[|s| - |t|..]
    ensures t != "" ==> t[0] != '-'
  {
    if s != "" && s[0] == '-' then TrimLeft(s[1..]) else s
  }

  function TrimRight(s: string): (t: string)
    ensures |t| <= |s| && t == s[..|t|]
    ensures t != "" ==> t[|t| - 1] != '-'
    ensures s != "" && s[0] != '-' ==> t != ""
  {
    if s != "" && s[|s| - 1] == '-' then TrimRight(s[..|s| - 1]) else s
  }

  /** The handle before any counter: lower is the login already lowercased. */
  function Base(lower: string): (base: string)
    ensures NamePattern(base)
  {
    var trimmed := TrimRight(TrimLeft(Sanitize(lower)));
    var named := if trimmed == "" then "account" else trimmed;
    if |named| > MAX_LENGTH then named[..MAX_LENGTH] else named
  }

  lemma Pow10At19()
    ensures Pow10(19) > MAX_KEYS
  {
    assert Pow10(5) == 100000;
    assert Pow10(10) == 10000000000;
    assert Pow10(15) == 1000000000000000;
  }

  /** A counter an int can hold prints short enough to leave room for the base. */
  /** The character a login's character becomes. */
  predicate Becomes(c: char, d: char) { if 'a' <= c <= 'z' || '0' <= c <= '9' then d == c else d == '-' }

  /** The base is the login with everything but letters and digits made hyphens, cut at its first and last other character, and to 63. */
  lemma BaseMeans(lower: string) returns (m: string, i: nat, j: nat)
    ensures |m| == |lower| && (forall k :: 0 <= k < |m| ==> Becomes(lower[k], m[k])) && i <= j <= |m|
    ensures (forall k :: 0 <= k < i ==> m[k] == '-') && (forall k :: j <= k < |m| ==> m[k] == '-')
    ensures i == j ==> Base(lower) == "account"
    ensures i < j ==> m[i] != '-' && m[j - 1] != '-' && Base(lower) == if j - i > 63 then m[i..i + 63] else m[i..j]
  {
    hide *;
    m := Sanitize(lower);
    SanitizeMeans(lower);
    i, j := Trimmed(m);
    BaseCut(lower, m, TrimRight(TrimLeft(m)));
    SameCut(m, TrimRight(TrimLeft(m)), i, j);
  }

  lemma SanitizeMeans(lower: string)
    ensures |Sanitize(lower)| == |lower| && forall k :: 0 <= k < |lower| ==> Becomes(lower[k], Sanitize(lower)[k])
  {
  }

  lemma SameCut(m: string, t: string, i: nat, j: nat)
    requires i <= j <= |m| && t == m[i..j]
    ensures |t| == j - i && (j - i > 63 ==> t[..63] == m[i..i + 63])
  {
  }

  lemma BaseCut(lower: string, m: string, t: string)
    requires m == Sanitize(lower) && t == TrimRight(TrimLeft(m))
    ensures Base(lower) == if t == "" then "account" else if |t| > 63 then t[..63] else t
  {
    hide TrimLeft, TrimRight, Sanitize, NamePattern;
  }

  lemma Trimmed(m: string) returns (i: nat, j: nat)
    ensures i <= j <= |m| && TrimRight(TrimLeft(m)) == m[i..j]
    ensures (forall k :: 0 <= k < i ==> m[k] == '-') && (forall k :: j <= k < |m| ==> m[k] == '-')
    ensures i < j ==> m[i] != '-' && m[j - 1] != '-'
  {
    hide TrimLeft, TrimRight;
    var left := TrimLeft(m);
    LeftHyphens(m);
    RightHyphens(left);
    i := |m| - |left|;
    j := i + |TrimRight(left)|;
    assert left == m[i..];
    forall k | j <= k < |m| ensures m[k] == '-' { assert m[k] == left[k - i]; }
    assert m[i..j] == left[..j - i];
    if i < j { assert left[0] == m[i] && TrimRight(left)[j - i - 1] == m[j - 1]; }
  }

  lemma {:induction false} LeftHyphens(s: string)
    ensures forall k :: 0 <= k < |s| - |TrimLeft(s)| ==> s[k] == '-'
  {
    if s != "" && s[0] == '-' {
      LeftHyphens(s[1..]);
      assert forall k :: 1 <= k < |s| ==> s[k] == s[1..][k - 1];
    }
  }

  lemma {:induction false} RightHyphens(s: string)
    ensures forall k :: |TrimRight(s)| <= k < |s| ==> s[k] == '-'
  {
    if s != "" && s[|s| - 1] == '-' { RightHyphens(s[..|s| - 1]); }
  }

  function Suffix(n: nat): (s: string)
    requires n <= MAX_KEYS
    ensures 2 <= |s| <= 20
  {
    Pow10At19();
    ItoaLength(n, 19);
    "-" + Itoa(n)
  }

  function Cut(base: string, room: nat): (prefix: string)
    ensures prefix <= base && |prefix| <= room
    ensures room > 0 && base != "" ==> prefix != ""
  {
    if |base| > room then base[..room] else base
  }

  /** The n-th numbered handle: the base cut so that the suffix still fits. */
  function Numbered(base: string, n: nat): string
    requires n <= MAX_KEYS
  {
    Cut(base, MAX_LENGTH - |Suffix(n)|) + Suffix(n)
  }

  lemma NumberedPattern(base: string, n: nat)
    requires n <= MAX_KEYS && NamePattern(base)
    ensures NamePattern(Numbered(base, n))
  {
    var prefix, suffix := Cut(base, MAX_LENGTH - |Suffix(n)|), Suffix(n);
    assert prefix[0] == base[0];
    assert suffix == "-" + Itoa(n);
  }

  function AfterLastHyphen(s: string): string {
    if s == "" || s[|s| - 1] == '-' then "" else AfterLastHyphen(s[..|s| - 1]) + [s[|s| - 1]]
  }

  lemma {:induction false} AfterLastHyphenOf(prefix: string, tail: string)
    requires '-' !in tail
    ensures AfterLastHyphen(prefix + ("-" + tail)) == tail
  {
    var s := prefix + ("-" + tail);
    if tail == "" {
      assert s[|s| - 1] == '-';
    } else {
      var cut := tail[..|tail| - 1];
      assert s[..|s| - 1] == prefix + ("-" + cut);
      AfterLastHyphenOf(prefix, cut);
      assert tail == cut + [tail[|tail| - 1]];
    }
  }

  /** Distinct counters give distinct handles, whatever the bases were cut to. */
  lemma NumberedInjective(base: string, n: nat, base': string, m: nat)
    requires n <= MAX_KEYS && m <= MAX_KEYS
    requires Numbered(base, n) == Numbered(base', m)
    ensures n == m
  {
    AfterLastHyphenOf(Cut(base, MAX_LENGTH - |Suffix(n)|), Itoa(n));
    AfterLastHyphenOf(Cut(base', MAX_LENGTH - |Suffix(m)|), Itoa(m));
    ItoaInjective(n, m);
  }

  ghost predicate AllTaken(base: string, n: nat, used: set<string>)
    requires n <= MAX_KEYS + 1
  {
    forall k :: 2 <= k < n ==> Numbered(base, k) in used
  }

  /** Pigeonhole: n - 2 taken numbered handles need as many used names. */
  lemma {:induction false} TakenBound(base: string, n: nat, used: set<string>)
    requires 2 <= n <= MAX_KEYS + 1 && AllTaken(base, n, used)
    ensures n - 2 <= |used|
  {
    hide Numbered;
    if n > 2 {
      var last := Numbered(base, n - 1);
      forall k | 2 <= k < n - 1 ensures Numbered(base, k) in used - {last} {
        if Numbered(base, k) == last { NumberedInjective(base, k, base, n - 1); }
      }
      TakenBound(base, n - 1, used - {last});
    }
  }

  /** What candidateHandle answers: the base if it is free, else the first free numbered handle. */
  ghost predicate FirstFree(base: string, used: set<string>, handle: string) {
    if base !in used then handle == base else
      handle !in used && exists n :: 2 <= n <= MAX_KEYS && handle == Numbered(base, n) && AllTaken(base, n, used)
  }

  method CandidateHandle(lower: string, used: set<string>) returns (handle: string, used': set<string>)
    requires |used| <= MAX_KEYS - 3
    ensures handle !in used && used' == used + {handle}
    ensures NamePattern(handle)
    ensures FirstFree(Base(lower), used, handle)
  {
    hide Numbered, Base, NamePattern;
    var base := Base(lower);
    handle := base;
    var n := 2;
    while handle in used
      invariant 2 <= n <= MAX_KEYS
      invariant NamePattern(handle)
      invariant if n == 2 then handle == base else base in used && handle == Numbered(base, n - 1) && AllTaken(base, n - 1, used)
      decreases MAX_KEYS - n
    {
      TakenBound(base, n, used);
      NumberedPattern(base, n);
      handle := Numbered(base, n);
      n := n + 1;
    }
    used' := used + {handle};
  }

  /** Successive calls over one shared used map. */
  method AssignHandles(lowers: seq<string>, used: set<string>) returns (handles: seq<string>, used': set<string>)
    requires |used| + |lowers| <= MAX_KEYS - 3
    ensures |handles| == |lowers|
    ensures used' == used + set h | h in handles
    ensures forall i :: 0 <= i < |handles| ==> handles[i] !in used && NamePattern(handles[i])
    ensures forall i, j :: 0 <= i < j < |handles| ==> handles[i] != handles[j]
  {
    hide *;
    handles, used' := [], used;
    for i := 0 to |lowers|
      invariant |handles| == i
      invariant forall h :: h in used' <==> h in used || h in handles
      invariant |used'| == |used| + i
      invariant forall k :: 0 <= k < i ==> handles[k] !in used && NamePattern(handles[k])
      invariant forall j, k :: 0 <= j < k < i ==> handles[j] != handles[k]
    {
      var handle, more := CandidateHandle(lowers[i], used');
      handles, used' := handles + [handle], more;
    }
  }
}
