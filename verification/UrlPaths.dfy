/**
 URL paths as parseURL canonicalizes them: percent-decoded (section 2.1 of RFC 3986), dot segments
 removed and repeated slashes collapsed (section 5.2.4), then percent-encoded again.
 */
module UrlPaths {
  import opened Text

  datatype Decoded = Malformed | Plain(text: string)

  predicate IsByte(c: char) {
    c as int < 256
  }

  predicate Bytes(s: string) {
    forall i :: 0 <= i < |s| ==> IsByte(s[i])
  }

  predicate AsciiAlnum(c: char) {
    'a' <= c <= 'z' || 'A' <= c <= 'Z' || '0' <= c <= '9'
  }

  /** The bytes net/url leaves as they are in a path. */
  predicate Kept(c: char) {
    AsciiAlnum(c) || c in "-_.~$&+,/:;=@"
  }

  function Hex(d: nat): (c: char)
    requires d < 16
    ensures AsciiAlnum(c) && c != '/' && c != '%'
  {
    "0123456789ABCDEF"[d]
  }

  predicate IsHex(c: char) {
    '0' <= c <= '9' || 'A' <= c <= 'F' || 'a' <= c <= 'f'
  }

  function Unhex(c: char): (d: nat)
    requires IsHex(c)
    ensures d < 16
  {
    if c <= '9' then (c - '0') as nat else if c <= 'F' then (c - 'A') as nat + 10 else (c - 'a') as nat + 10
  }

  lemma UnhexHex(d: nat)
    requires d < 16
    ensures IsHex(Hex(d)) && Unhex(Hex(d)) == d
  {
  }

  function EscapeByte(c: char): (e: string)
    ensures (e == [c] && Kept(c)) || (!Kept(c) && |e| == 3 && e[0] == '%' && AsciiAlnum(e[1]) && AsciiAlnum(e[2]))
  {
    if Kept(c) then [c] else ['%', Hex(c as nat / 16 % 16), Hex(c as nat % 16)]
  }

  /** EscapedPath of a URL holding only a decoded path. */
  function Escape(s: string): string {
    if s == "" then "" else EscapeByte(s[0]) + Escape(s[1..])
  }

  function Unescape(s: string): Decoded {
    if s == "" then Plain("")
    else if s[0] == '%' then
      if |s| < 3 || !IsHex(s[1]) || !IsHex(s[2]) then Malformed
      else match Unescape(s[3..])
        case Malformed => Malformed
        case Plain(t) => Plain([(Unhex(s[1]) * 16 + Unhex(s[2])) as char] + t)
    else match Unescape(s[1..])
      case Malformed => Malformed
      case Plain(t) => Plain([s[0]] + t)
  }

  lemma {:induction false} UnescapeBytes(s: string)
    requires Bytes(s) && Unescape(s).Plain?
    ensures Bytes(Unescape(s).text)
  {
    if s != "" { UnescapeBytes(if s[0] == '%' then s[3..] else s[1..]); }
  }

  lemma UnescapeHex(hi: nat, lo: nat, rest: string, t: string)
    requires hi < 16 && lo < 16 && Unescape(rest) == Plain(t)
    ensures Unescape(['%', Hex(hi), Hex(lo)] + rest) == Plain([(hi * 16 + lo) as char] + t)
  {
    UnhexHex(hi);
    UnhexHex(lo);
    hide Hex, Unhex, IsHex;
    var s := ['%', Hex(hi), Hex(lo)] + rest;
    assert s[3..] == rest;
  }

  lemma UnescapeByte(c: char, rest: string, t: string)
    requires IsByte(c) && Unescape(rest) == Plain(t)
    ensures Unescape(EscapeByte(c) + rest) == Plain([c] + t)
  {
    hide Hex;
    if Kept(c) {
      assert ([c] + rest)[1..] == rest;
    } else {
      hide Unescape;
      var hi, lo := c as nat / 16, c as nat % 16;
      assert hi < 16 && hi % 16 == hi && hi * 16 + lo == c as nat;
      UnescapeHex(hi, lo, rest, t);
    }
  }

  lemma {:induction false} UnescapeEscape(s: string)
    requires Bytes(s)
    ensures Unescape(Escape(s)) == Plain(s)
  {
    if s != "" {
      UnescapeEscape(s[1..]);
      UnescapeByte(s[0], Escape(s[1..]), s[1..]);
      assert s == [s[0]] + s[1..];
    }
  }

  /** Escaped text holds only the kept bytes and percent signs, and the slashes it had. */
  lemma {:induction false} EscapeShape(s: string)
    requires Bytes(s)
    ensures forall i :: 0 <= i < |Escape(s)| ==> Kept(Escape(s)[i]) || Escape(s)[i] == '%'
    ensures Escape(s) == "" <==> s == ""
    ensures s != "" ==> (Escape(s)[0] == '/' <==> s[0] == '/')
    ensures NoDoubleSlash(s) ==> NoDoubleSlash(Escape(s))
  {
    if s != "" {
      var e, rest := EscapeByte(s[0]), Escape(s[1..]);
      EscapeShape(s[1..]);
      assert Escape(s) == e + rest;
      if NoDoubleSlash(s) && s[1..] != "" {
        assert s[0] == '/' ==> s[1..][0] != '/';
        NoDoubleTail(s);
        NoDoubleConcat(e, rest);
      }
    }
  }

  predicate NoDoubleSlash(s: string) {
    forall i :: 0 <= i < |s| - 1 ==> !(s[i] == '/' && s[i + 1] == '/')
  }

  lemma NoDoubleTail(s: string)
    requires NoDoubleSlash(s) && s != ""
    ensures NoDoubleSlash(s[1..])
  {
    var t := s[1..];
    forall i | 0 <= i < |t| - 1 ensures !(t[i] == '/' && t[i + 1] == '/') {
      assert t[i] == s[i + 1] && t[i + 1] == s[(i + 1) + 1];
    }
  }

  lemma NoDoubleConcat(a: string, b: string)
    requires NoDoubleSlash(a) && NoDoubleSlash(b)
    requires a == "" || b == "" || a[|a| - 1] != '/' || b[0] != '/'
    ensures NoDoubleSlash(a + b)
  {
    var s := a + b;
    forall i | 0 <= i < |s| - 1 ensures !(s[i] == '/' && s[i + 1] == '/') {
      if i >= |a| {
        assert s[i] == b[i - |a|] && s[i + 1] == b[i - |a| + 1];
      }
    }
  }

  predicate Segment(s: string) {
    s != "" && s != "." && s != ".." && '/' !in s
  }

  predicate Segments(parts: seq<string>) {
    forall i :: 0 <= i < |parts| ==> Segment(parts[i])
  }

  /** Walks the segments with the stack of those kept so far. */
  function Resolve(parts: seq<string>, stack: seq<string>): (kept: seq<string>)
    requires Segments(stack) && forall i :: 0 <= i < |parts| ==> '/' !in parts[i]
    ensures Segments(kept)
  {
    if parts == [] then stack
    else if parts[0] == "" || parts[0] == "." then Resolve(parts[1..], stack)
    else if parts[0] == ".." then Resolve(parts[1..], if stack == [] then [] else stack[..|stack| - 1])
    else Resolve(parts[1..], stack + [parts[0]])
  }

  /** path.Clean of a rooted path. */
  function Clean(p: string): string {
    "/" + Join(Resolve(Split(p, '/'), []), '/')
  }

  /** The decoded path parseURL keeps: cleaned, with a trailing slash where one was written. */
  function Normal(p: string): string {
    if p == "" then "/"
    else
      var c := Clean(p);
      if p[|p| - 1] == '/' && c != "/" then c + "/" else c
  }

  lemma {:induction false} ResolveKept(parts: seq<string>, stack: seq<string>)
    requires Segments(stack) && Segments(parts)
    ensures Resolve(parts, stack) == stack + parts
    ensures Resolve(parts + [""], stack) == stack + parts
  {
    if parts == [] {
      assert parts + [""] == [""] && [""][1..] == [];
    } else {
      ResolveKept(parts[1..], stack + [parts[0]]);
      assert (parts + [""])[1..] == parts[1..] + [""];
      assert stack + [parts[0]] + parts[1..] == stack + parts;
    }
  }

  lemma {:induction false} JoinSegments(parts: seq<string>)
    requires Segments(parts) && parts != []
    ensures Join(parts, '/') != "" && Join(parts, '/')[0] != '/' && Join(parts, '/')[|Join(parts, '/')| - 1] != '/'
    ensures NoDoubleSlash(Join(parts, '/'))
    ensures Join(parts + [""], '/') == Join(parts, '/') + "/"
  {
    if |parts| == 1 {
      assert parts + [""] == [parts[0], ""];
      assert Join([parts[0], ""], '/') == parts[0] + ['/'] + Join([""], '/') by { assert [parts[0], ""][1..] == [""]; }
    } else {
      var rest := Join(parts[1..], '/');
      JoinSegments(parts[1..]);
      NoDoubleConcat(parts[0], "/");
      NoDoubleConcat(parts[0] + "/", rest);
      assert (parts + [""])[1..] == parts[1..] + [""];
      assert parts[0] + ['/'] + (rest + "/") == parts[0] + ['/'] + rest + "/";
    }
  }

  lemma SplitRooted(parts: seq<string>)
    requires |parts| >= 1 && forall i :: 0 <= i < |parts| ==> '/' !in parts[i]
    ensures Split("/" + Join(parts, '/'), '/') == [""] + parts
  {
    SplitJoin(parts, '/');
    SplitAt("", '/', Join(parts, '/'));
    assert "" + ['/'] + Join(parts, '/') == "/" + Join(parts, '/');
  }

  /** No segment of the path is a dot segment. */
  predicate NoDots(p: string) {
    var parts := Split(p, '/');
    forall k :: 0 <= k < |parts| ==> parts[k] != "." && parts[k] != ".."
  }

  /** A cleaned path starts with a slash, doubles none, has no dot segment, and cleaning it again changes nothing. */
  lemma NormalForm(p: string)
    ensures Normal(p) != "" && Normal(p)[0] == '/' && NoDoubleSlash(Normal(p)) && NoDots(Normal(p))
    ensures Normal(Normal(p)) == Normal(p)
  {
    if p == "" {
      RootForm();
    } else {
      var kept := Resolve(Split(p, '/'), []);
      if kept == [] {
        RootForm();
      } else {
        JoinSegments(kept);
        KeptForm(kept);
        hide Split, NoDots;
        NoDoubleConcat("/", Join(kept, '/'));
        NoDoubleConcat("/" + Join(kept, '/'), "/");
      }
    }
  }

  lemma RootForm()
    ensures Normal("/") == "/" && NoDots("/")
  {
    SplitRooted([""]);
    assert Resolve(["", ""], []) == [];
  }

  lemma KeptForm(kept: seq<string>)
    requires Segments(kept) && kept != []
    ensures Normal("/" + Join(kept, '/')) == "/" + Join(kept, '/') && NoDots("/" + Join(kept, '/'))
    ensures Normal("/" + Join(kept, '/') + "/") == "/" + Join(kept, '/') + "/" && NoDots("/" + Join(kept, '/') + "/")
  {
    JoinSegments(kept);
    ResolveRooted(kept);
    SplitRooted(kept);
    SplitRooted(kept + [""]);
    var j := Join(kept, '/');
    assert "/" + (j + "/") == "/" + j + "/";
    hide Split, Resolve, Join, Normal, NoDots, Segments;
    FixedForm("/" + j, [""] + kept, kept, j);
    FixedForm("/" + j + "/", [""] + (kept + [""]), kept, j);
  }

  /** A path of those parts, of which cleaning keeps those segments, is its own cleaned form. */
  lemma FixedForm(p: string, parts: seq<string>, kept: seq<string>, j: string)
    requires Segments(kept) && kept != [] && j == Join(kept, '/') && (p == "/" + j || p == "/" + j + "/")
    requires Split(p, '/') == parts && Resolve(parts, []) == kept && (parts == [""] + kept || parts == [""] + (kept + [""]))
    ensures Normal(p) == p && NoDots(p)
  {
    JoinSegments(kept);
    hide Split, Resolve, Join;
    assert p == "/" + j ==> p[|p| - 1] == j[|j| - 1];
    forall k | 0 <= k < |parts| ensures parts[k] != "." && parts[k] != ".." {
      assert 1 <= k <= |kept| ==> parts[k] == kept[k - 1];
    }
  }

  lemma ResolveRooted(kept: seq<string>)
    requires Segments(kept)
    ensures Resolve([""] + kept, []) == kept && Resolve([""] + (kept + [""]), []) == kept
  {
    ResolveKept(kept, []);
    assert ([""] + kept)[1..] == kept;
    assert ([""] + (kept + [""]))[1..] == kept + [""];
  }

  // ----- bytes stay bytes -----

  lemma {:induction false} SplitBytes(s: string, c: char)
    requires Bytes(s)
    ensures forall k :: 0 <= k < |Split(s, c)| ==> Bytes(Split(s, c)[k])
  {
    if s != "" {
      SplitBytes(s[1..], c);
      var rest, parts := Split(s[1..], c), Split(s, c);
      forall k | 0 <= k < |parts| ensures Bytes(parts[k]) {
        if s[0] == c {
          assert k > 0 ==> parts[k] == rest[k - 1];
        } else {
          assert parts[k] == if k == 0 then [s[0]] + rest[0] else rest[k];
        }
      }
    }
  }

  lemma {:induction false} JoinBytes(parts: seq<string>)
    requires forall i :: 0 <= i < |parts| ==> Bytes(parts[i])
    ensures Bytes(Join(parts, '/'))
  {
    if |parts| > 1 { JoinBytes(parts[1..]); }
  }

  /** Cleaning keeps whole segments, so it keeps a property every segment has. */
  lemma {:induction false} ResolveBytes(parts: seq<string>, stack: seq<string>)
    requires Segments(stack) && forall i :: 0 <= i < |parts| ==> '/' !in parts[i]
    requires forall i :: 0 <= i < |parts| ==> Bytes(parts[i])
    requires forall i :: 0 <= i < |stack| ==> Bytes(stack[i])
    ensures forall i :: 0 <= i < |Resolve(parts, stack)| ==> Bytes(Resolve(parts, stack)[i])
  {
    hide Bytes;
    if parts != [] {
      if parts[0] == "" || parts[0] == "." {
        ResolveBytes(parts[1..], stack);
      } else if parts[0] == ".." {
        ResolveBytes(parts[1..], if stack == [] then [] else stack[..|stack| - 1]);
      } else {
        ResolveBytes(parts[1..], stack + [parts[0]]);
      }
    }
  }

  lemma NormalBytes(p: string)
    requires Bytes(p)
    ensures Bytes(Normal(p))
  {
    SplitBytes(p, '/');
    hide Split;
    ResolveBytes(Split(p, '/'), []);
    JoinBytes(Resolve(Split(p, '/'), []));
    hide Resolve, Join;
  }

  /** The paths of canonical url locators: the encoding of a cleaned path. */
  ghost predicate CanonicalPath(p: string) {
    exists d :: Bytes(d) && Normal(d) == d && p == Escape(d)
  }

  /** Every decoded path, cleaned and encoded, is canonical and decodes to the cleaned path. */
  lemma CanonicalOf(d: string)
    requires Bytes(d)
    ensures Bytes(Normal(d)) && CanonicalPath(Escape(Normal(d)))
  {
    NormalBytes(d);
    NormalForm(d);
  }

  lemma CanonicalShape(p: string)
    requires CanonicalPath(p)
    ensures p != "" && p[0] == '/' && NoDoubleSlash(p)
    ensures forall i :: 0 <= i < |p| ==> Kept(p[i]) || p[i] == '%'
    ensures Unescape(p).Plain?
    ensures Bytes(Unescape(p).text) && Bytes(Normal(Unescape(p).text)) && Escape(Normal(Unescape(p).text)) == p
  {
    var d :| Bytes(d) && Normal(d) == d && p == Escape(d);
    NormalForm(d);
    EscapeShape(d);
    UnescapeEscape(d);
  }
}
