/** What cleaning a path removes and what it keeps (section 5.2.4 of RFC 3986; locator.go). */
module CleanPaths {
  import opened Text
  import opened UrlPaths

  predicate NoSlash(parts: seq<string>) { forall i :: 0 <= i < |parts| ==> '/' !in parts[i] }

  /** The rooted path of those parts. */
  function Rooted(parts: seq<string>): string { "/" + Join(parts, '/') }

  /** The segments left of those parts. */
  function Left(parts: seq<string>): (kept: seq<string>)
    requires NoSlash(parts)
    ensures Segments(kept)
  {
    Resolve(parts, [])
  }

  // ----- walking the parts -----

  lemma {:induction false} ResolveConcat(a: seq<string>, b: seq<string>, stack: seq<string>)
    requires Segments(stack) && NoSlash(a) && NoSlash(b)
    ensures Resolve(a + b, stack) == Resolve(b, Resolve(a, stack))
  {
    if a == [] {
      assert a + b == b;
    } else {
      assert (a + b)[1..] == a[1..] + b;
      var next :=
        if a[0] == "" || a[0] == "." then stack
        else if a[0] == ".." then if stack == [] then [] else stack[..|stack| - 1]
        else stack + [a[0]];
      ResolveConcat(a[1..], b, next);
    }
  }

  /** A part that leaves the stack as it is may be dropped anywhere. */
  lemma PartsDropped(pre: seq<string>, mid: seq<string>, post: seq<string>)
    requires NoSlash(pre) && NoSlash(mid) && NoSlash(post)
    requires Resolve(mid, Left(pre)) == Left(pre)
    ensures NoSlash(pre + mid + post) && NoSlash(pre + post) && Left(pre + mid + post) == Left(pre + post)
  {
    ResolveConcat(pre + mid, post, []);
    ResolveConcat(pre, mid, []);
    ResolveConcat(pre, post, []);
  }

  lemma Steps(stack: seq<string>, s: string)
    requires Segments(stack) && Segment(s)
    ensures Resolve([s, ".."], stack) == stack && Resolve(["."], stack) == stack && Resolve([""], stack) == stack
    ensures Resolve([".."], []) == []
  {
    assert [s, ".."][1..] == [".."] && [".."][1..] == [] && ["."][1..] == [] && [""][1..] == [];
    var more := stack + [s];
    assert more[..|more| - 1] == stack;
    assert Resolve([".."], more) == Resolve([], stack);
  }

  // ----- on texts -----

  lemma RootedParts(parts: seq<string>)
    requires NoSlash(parts)
    ensures Clean(Rooted(parts)) == Rooted(Left(parts))
  {
    if parts == [] {
      assert Rooted([]) == "/";
      SplitRooted([""]);
      assert Join([""], '/') == "";
      assert Resolve(["", ""], []) == [] by { assert ["", ""][1..] == [""] && [""][1..] == []; }
    } else {
      SplitRooted(parts);
      assert ([""] + parts)[1..] == parts;
    }
  }

  lemma {:induction false} EndsAsLast(parts: seq<string>)
    requires parts != [] && NoSlash(parts)
    ensures Rooted(parts)[|Rooted(parts)| - 1] == '/' <==> parts[|parts| - 1] == ""
  {
    var last := parts[|parts| - 1];
    if |parts| == 1 {
      assert Join(parts, '/') == last;
    } else {
      assert parts == parts[..|parts| - 1] + [last];
      JoinConcat(parts[..|parts| - 1], [last], '/');
    }
    if last != "" { assert Rooted(parts)[|Rooted(parts)| - 1] == last[|last| - 1]; }
  }

  /** The cleaned path: the segments left, with a last slash where the path had one. */
  lemma NormalRooted(parts: seq<string>)
    requires parts != [] && NoSlash(parts)
    ensures Normal(Rooted(parts)) == Rooted(Left(parts)) + (if parts[|parts| - 1] == "" && Left(parts) != [] then "/" else "")
  {
    RootedParts(parts);
    EndsAsLast(parts);
    hide Clean;
    if Left(parts) != [] { JoinSegments(Left(parts)); }
  }

  lemma SameLeft(a: seq<string>, b: seq<string>)
    requires a != [] && b != [] && NoSlash(a) && NoSlash(b) && Left(a) == Left(b) && a[|a| - 1] == b[|b| - 1]
    ensures Normal(Rooted(a)) == Normal(Rooted(b))
  {
    hide Normal, Rooted;
    NormalRooted(a);
    NormalRooted(b);
  }

  /** A segment and the ".." after it take each other away. */
  lemma ParentRemoved(pre: seq<string>, s: string, post: seq<string>)
    requires NoSlash(pre) && NoSlash(post) && Segment(s) && post != []
    ensures Normal(Rooted(pre + [s, ".."] + post)) == Normal(Rooted(pre + post))
  {
    hide Normal, Rooted, Resolve;
    Steps(Left(pre), s);
    PartsDropped(pre, [s, ".."], post);
    SameLeft(pre + [s, ".."] + post, pre + post);
  }

  /** A ".." with nothing before it is dropped. */
  lemma RootHasNoParent(post: seq<string>)
    requires NoSlash(post) && post != []
    ensures Normal(Rooted([".."] + post)) == Normal(Rooted(post))
  {
    hide Normal, Rooted, Resolve;
    Steps([], "a");
    assert Left([]) == [] by { NothingLeft(); }
    PartsDropped([], [".."], post);
    assert [] + [".."] + post == [".."] + post && [] + post == post;
    SameLeft([".."] + post, post);
  }

  lemma NothingLeft()
    ensures Left([]) == []
  {
  }

  /** "." and empty parts are dropped anywhere. */
  lemma NothingRemoved(pre: seq<string>, s: string, post: seq<string>)
    requires NoSlash(pre) && NoSlash(post) && (s == "." || s == "") && post != []
    ensures Normal(Rooted(pre + [s] + post)) == Normal(Rooted(pre + post))
  {
    hide Normal, Rooted, Resolve;
    Steps(Left(pre), "a");
    PartsDropped(pre, [s], post);
    SameLeft(pre + [s] + post, pre + post);
  }

  /** At the end of a path: a ".." takes the last segment away, a "." nothing. */
  lemma LastRemoved(pre: seq<string>, s: string)
    requires NoSlash(pre) && Segment(s)
    ensures Normal(Rooted(pre + [s, ".."])) == Rooted(Left(pre)) && Normal(Rooted(pre + ["."])) == Rooted(Left(pre))
  {
    hide Normal, Rooted, Resolve;
    Steps(Left(pre), s);
    PartsDropped(pre, [s, ".."], []);
    PartsDropped(pre, ["."], []);
    assert pre + [s, ".."] + [] == pre + [s, ".."] && pre + ["."] + [] == pre + ["."] && pre + [] == pre;
    NormalRooted(pre + [s, ".."]);
    NormalRooted(pre + ["."]);
  }

  /** And a path without dot or empty parts keeps every segment, in order, and its last slash. */
  lemma SegmentsKept(parts: seq<string>)
    requires Segments(parts) && parts != []
    ensures Normal(Rooted(parts)) == Rooted(parts) && Normal(Rooted(parts) + "/") == Rooted(parts) + "/"
  {
    hide Normal, NoDots;
    KeptForm(parts);
  }

  /** For one: /a/../checkout/ is /checkout/, for every two segments. */
  lemma ParentGone(a: string, b: string)
    requires Segment(a) && Segment(b)
    ensures Normal(Rooted([a, "..", b, ""])) == Rooted([b]) + "/"
  {
    hide Normal, Resolve;
    ParentRemoved([], a, [b, ""]);
    assert [] + [a, ".."] + [b, ""] == [a, "..", b, ""] && [] + [b, ""] == [b, ""];
    SegmentsKept([b]);
    assert Join([b, ""], '/') == b + "/" by { assert [b, ""][1..] == [""]; }
    assert Rooted([b, ""]) == Rooted([b]) + "/";
  }

  // ----- escapes -----

  /** A byte is kept when it is a letter, a digit or one of the listed marks; any other is a percent sign and its two hex digits. */
  lemma EscapesExactly(c: char)
    requires IsByte(c)
    ensures EscapeByte(c) == [c] <==> 'a' <= c <= 'z' || 'A' <= c <= 'Z' || '0' <= c <= '9' || c in "-_.~$&+,/:;=@"
    ensures EscapeByte(c) != [c] ==>
      var e := EscapeByte(c); |e| == 3 && e[0] == '%' && IsHex(e[1]) && IsHex(e[2]) && c as int == 16 * Unhex(e[1]) + Unhex(e[2])
  {
    KeptExactly(c);
    HexReads(c as nat);
    hide Hex, Unhex, Kept, IsHex;
  }

  lemma KeptExactly(c: char)
    ensures Kept(c) <==> 'a' <= c <= 'z' || 'A' <= c <= 'Z' || '0' <= c <= '9' || c in "-_.~$&+,/:;=@"
  {
  }

  lemma HexReads(v: nat)
    requires v < 256
    ensures var hi, lo := Hex(v / 16 % 16), Hex(v % 16); IsHex(hi) && IsHex(lo) && v == 16 * Unhex(hi) + Unhex(lo)
  {
    UnhexHex(v / 16 % 16);
    UnhexHex(v % 16);
    hide Hex, Unhex, IsHex;
  }

  /** Hex digits are read in either case. */
  lemma HexDigits(d: nat)
    requires d < 16
    ensures Unhex("0123456789ABCDEF"[d]) == d && Unhex("0123456789abcdef"[d]) == d
  {
  }
}
