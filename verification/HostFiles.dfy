/** The evidence files of different hosts are different files, whatever the hosts are called (stages.go, resume.go). */
module HostFiles {
  import opened Addresses
  import opened Decimal
  import opened Text
  import opened LocatorSyntax
  import opened LocatorRoundTrip
  import Handles
  import opened Resume

  /** What a host asset may be called: a declared asset name, or the id of a host. */
  ghost predicate HostName(n: Netip, s: string) {
    Handles.NamePattern(s) || exists r: Ref :: r.Host? && Canonical(r) && s == Id(n, r)
  }

  /** Characters a file name keeps as they are. */
  predicate Safe(c: char) { 'a' <= c <= 'z' || '0' <= c <= '9' || c == '-' || c == '.' }

  /** The shapes of host names: without brackets, or with one pair of them around an IPv6 address. */
  datatype Shape = Open | Bracketed(address: string, port: string)

  predicate Digits(p: string) { p != "" && forall i :: 0 <= i < |p| ==> '0' <= p[i] <= '9' }

  predicate Fits(s: string, shape: Shape) {
    match shape
    case Open => (forall i :: 0 <= i < |s| ==> Safe(s[i]) || s[i] == ':') && (|s| > 5 ==> Safe(s[5]))
    case Bracketed(t, p) =>
      (forall i :: 0 <= i < |t| ==> Safe(t[i]) || t[i] == ':') && Digits(p) && s == "host:[" + t + "]:" + p
  }

  /** How a host name ends: never as the record files do before their last extension. */
  predicate EndsPlainly(s: string) {
    (forall i :: 0 <= i < |s| ==> s[i] != '.') || |s| < 11 || (s != "" && '0' <= s[|s| - 1] <= '9')
  }

  lemma HostNameFits(n: Netip, s: string) returns (shape: Shape)
    requires HostName(n, s) && Lawful(n)
    ensures Fits(s, shape) && EndsPlainly(s)
  {
    if Handles.NamePattern(s) {
      shape := Open;
    } else {
      var r: Ref :| r.Host? && Canonical(r) && s == Id(n, r);
      shape := HostIdFits(n, r);
    }
  }

  lemma HostIdFits(n: Netip, r: Ref) returns (shape: Shape)
    requires r.Host? && Canonical(r) && Lawful(n)
    ensures Fits(Id(n, r), shape) && EndsPlainly(Id(n, r))
  {
    HostIdText(n, r);
    if r.site == Named(LOCAL) {
      LocalFits();
      shape := Open;
    } else {
      hide Lawful, CanonicalSite, Fits, EndsPlainly, Id, SiteText, AllIn;
      var text, port := SiteText(n, r.site), Itoa(r.port);
      SiteTextShape(n, r.site);
      if r.site.Literal? && |r.site.addr| == V6 {
        shape := Bracketed(text, port);
        BracketedFits(text, port);
      } else {
        shape := Open;
        PlainFits(text, port);
      }
    }
  }

  lemma HostIdText(n: Netip, r: Ref)
    requires r.Host?
    ensures var text, port := SiteText(n, r.site), Itoa(r.port);
      Id(n, r) ==
        if r.site == Named(LOCAL) then "host:local"
        else if r.site.Literal? && |r.site.addr| == V6 then "host:[" + text + "]:" + port
        else "host:" + text + ":" + port
  {
    hide Itoa;
    var text, port := SiteText(n, r.site), Itoa(r.port);
    assert "host" + ":" + ("[" + text + "]" + ":" + port) == "host:[" + text + "]:" + port;
    assert "host" + ":" + (text + ":" + port) == "host:" + text + ":" + port;
  }

  lemma LocalFits()
    ensures Fits("host:local", Open) && EndsPlainly("host:local")
  {
  }

  lemma PlainFits(text: string, port: string)
    requires text != "" && AllIn(text, NameChar) && AllDigits(port) && port != ""
    ensures Fits("host:" + text + ":" + port, Open) && EndsPlainly("host:" + text + ":" + port)
  {
    var s := "host:" + text + ":" + port;
    assert s[5] == text[0] && s[|s| - 1] == port[|port| - 1];
  }

  lemma BracketedFits(text: string, port: string)
    requires AllIn(text, HexOrColon) && AllDigits(port) && port != ""
    ensures Fits("host:[" + text + "]:" + port, Bracketed(text, port)) && EndsPlainly("host:[" + text + "]:" + port)
  {
    var s := "host:[" + text + "]:" + port;
    assert s[|s| - 1] == port[|port| - 1];
  }

  // ----- file names tell host names apart -----

  lemma SameChars(s: string, t: string)
    requires FileName(s) == FileName(t)
    ensures |s| == |t| && forall i :: 0 <= i < |s| ==> FileChar(s[i]) == FileChar(t[i])
  {
    forall i | 0 <= i < |s| ensures FileChar(s[i]) == FileChar(t[i]) { assert FileName(s)[i] == FileName(t)[i]; }
  }

  lemma OpenInjective(s: string, t: string)
    requires Fits(s, Open) && Fits(t, Open) && FileName(s) == FileName(t)
    ensures s == t
  {
    SameChars(s, t);
    forall i | 0 <= i < |s| ensures s[i] == t[i] { assert FileChar(s[i]) == FileChar(t[i]); }
  }

  lemma OpenNotBracketed(s: string, t: string, shape: Shape)
    requires Fits(s, Open) && shape.Bracketed? && Fits(t, shape)
    ensures FileName(s) != FileName(t)
  {
    assert t[5] == '[';
    if FileName(s) == FileName(t) { SameChars(s, t); }
  }

  lemma BracketedAt(s: string, t: string, p: string)
    requires Fits(s, Bracketed(t, p))
    ensures var b := |s| - |p| - 2;
      b >= 6 && s[5] == '[' && s[b] == ']' && s[b + 1] == ':' && (forall i :: b + 2 <= i < |s| ==> '0' <= s[i] <= '9') &&
      forall i :: 0 <= i < |s| && i != 5 && i != b ==> Safe(s[i]) || s[i] == ':'
  {
    var b := |s| - |p| - 2;
    assert s[b + 2..] == p;
    assert forall i :: b + 2 <= i < |s| ==> s[i] == p[i - b - 2];
    assert forall i :: 6 <= i < b ==> s[i] == t[i - 6];
  }

  lemma BracketedInjective(s: string, a: Shape, t: string, b: Shape)
    requires a.Bracketed? && b.Bracketed? && Fits(s, a) && Fits(t, b) && FileName(s) == FileName(t)
    ensures s == t
  {
    BracketedAt(s, a.address, a.port);
    BracketedAt(t, b.address, b.port);
    hide Fits;
    SameChars(s, t);
    var i, j := |s| - |a.port| - 2, |t| - |b.port| - 2;
    assert FileChar(s[i + 1]) == '_' && FileChar(t[j + 1]) == '_';
    assert i == j;
    forall k | 0 <= k < |s| ensures s[k] == t[k] { assert FileChar(s[k]) == FileChar(t[k]); }
  }

  /** Different host names have different file names. */
  lemma FileNameInjective(n: Netip, s: string, t: string)
    requires Lawful(n) && HostName(n, s) && HostName(n, t) && FileName(s) == FileName(t)
    ensures s == t
  {
    hide Lawful, HostName, Fits, FileName, EndsPlainly;
    var a := HostNameFits(n, s);
    var b := HostNameFits(n, t);
    if a == Open && b == Open {
      OpenInjective(s, t);
    } else if a == Open {
      OpenNotBracketed(s, t, b);
    } else if b == Open {
      OpenNotBracketed(t, s, a);
    } else {
      BracketedInjective(s, a, t, b);
    }
  }

  /** A name whose envelope stood where a record does would end as no host name does. */
  lemma EndsAsRecord(s: string, t: string)
    requires EnvFile(s) == RecFile(t)
    ensures !EndsPlainly(s)
  {
    var f, g := FileName(s), FileName(t);
    assert |f| == |g| + 11;
    var k := |f| - 11;
    assert RecFile(t)[9 + k] == '.' && RecFile(t)[9 + |f| - 1] == 'n';
    assert EnvFile(s)[9 + k] == f[k] && EnvFile(s)[9 + |f| - 1] == f[|f| - 1];
    assert FileChar(s[k]) == '.' && FileChar(s[|s| - 1]) == 'n';
  }

  /**
   * The evidence files of hosts are apart: the envelope and the record of a host are no other host's, and no envelope
   * stands where a record does.
   */
  lemma HostFilesApart(n: Netip, s: string, t: string)
    requires Lawful(n) && HostName(n, s) && HostName(n, t)
    ensures EnvFile(s) != RecFile(t)
    ensures EnvFile(s) == EnvFile(t) ==> s == t
    ensures RecFile(s) == RecFile(t) ==> s == t
  {
    hide Lawful, HostName, FileName, Fits;
    var shape := HostNameFits(n, s);
    hide EndsPlainly;
    if EnvFile(s) == RecFile(t) { EndsAsRecord(s, t); }
    var f, g := FileName(s), FileName(t);
    if EnvFile(s) == EnvFile(t) {
      assert EnvFile(s)[9..9 + |f|] == f && EnvFile(t)[9..9 + |g|] == g;
      FileNameInjective(n, s, t);
    }
    if RecFile(s) == RecFile(t) {
      assert RecFile(s)[9..9 + |f|] == f && RecFile(t)[9..9 + |g|] == g;
      FileNameInjective(n, s, t);
    }
  }
}
