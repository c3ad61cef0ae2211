/** The check catalog's argv templates: what validation demands of them and what binding then guarantees (invariants.go, bind.go). */
module Binding {
  import opened Options
  import opened Text
  import opened Decimal

  datatype Kind = Path | Enum | Int | Ident | OtherKind

  datatype Param = Param(name: string, kind: Kind, values: seq<string>, min: int, max: int)

  datatype Parser = LinesOrKV | RawOrJson | TypedShape | OtherParser

  /** The regular expression that keeps part of the output, by its capture groups. */
  datatype Extract = NoExtract | NotARegexp | Groups(n: nat)

  datatype Check = Check(id: string, argv: seq<string>, params: seq<Param>, hasPathUse: bool, canary: bool, baseline: bool, baselineProfile: bool,
                         parser: Parser, unit: string, extract: Extract)

  /** What a binary with both query and mutating modes may be asked: verbs is the list of allowed ones, if there is one. */
  datatype BinaryRule = BinaryRule(verbs: Option<seq<string>>, denyTokens: seq<string>, denyPrefixes: seq<string>)

  /** The compiled-in tables of binaries. */
  datatype Tables = Tables(denied: set<string>, rules: map<string, BinaryRule>)

  // ----- characters -----

  predicate Alnum(c: char) { 'a' <= c <= 'z' || 'A' <= c <= 'Z' || '0' <= c <= '9' }

  /** The whole character set of a literal token. */
  predicate LiteralChar(c: char) {
    Alnum(c) || c == '.' || c == '_' || c == '/' || c == ',' || c == ':' || c == '=' || c == '+' || c == '%' || c == '@' || c == '-'
  }

  predicate PathChar(c: char) { Alnum(c) || c == '.' || c == '_' || c == '/' || c == '-' }
  predicate IdentChar(c: char) { Alnum(c) || c == '.' || c == '_' || c == '-' }
  predicate NameChar(c: char) { 'a' <= c <= 'z' || '0' <= c <= '9' || c == '_' }

  predicate Literal(s: string) { forall i :: 0 <= i < |s| ==> LiteralChar(s[i]) }
  predicate PathText(s: string) { s != "" && forall i :: 0 <= i < |s| ==> PathChar(s[i]) }
  predicate IdentText(s: string) { s != "" && forall i :: 0 <= i < |s| ==> IdentChar(s[i]) }
  predicate HoleName(s: string) { s != "" && 'a' <= s[0] <= 'z' && forall i :: 0 <= i < |s| ==> NameChar(s[i]) }

  /** A token that is wholly "{name}" binds that name. */
  function Placeholder(token: string): (r: Option<string>)
    ensures r.Some? <==> exists n :: HoleName(n) && token == "{" + n + "}"
    ensures r.Some? ==> HoleName(r.value) && token == "{" + r.value + "}"
  {
    if |token| >= 3 && token[0] == '{' && token[|token| - 1] == '}' && HoleName(token[1..|token| - 1]) then
      assert token == "{" + token[1..|token| - 1] + "}";
      Some(token[1..|token| - 1])
    else
      assert forall n :: token == "{" + n + "}" ==> token[1..|token| - 1] == n;
      None
  }

  // ----- values -----

  const MAX_INT := 0x7fff_ffff_ffff_ffff

  /** strconv.Atoi: an optional sign and digits, within the machine's integers. */
  function Atoi(s: string): Option<int> {
    var digits := if s != "" && (s[0] == '+' || s[0] == '-') then s[1..] else s;
    if digits == "" || !AllDigits(digits) then None
    else
      var m: int := Value(digits);
      var n := if s[0] == '-' then -m else m;
      if -MAX_INT - 1 <= n <= MAX_INT then Some(n) else None
  }

  predicate ValidPath(v: string) { PathText(v) && v[0] == '/' && ".." !in Split(v, '/') }

  predicate ValidParam(p: Param, v: string) {
    match p.kind
    case Path => ValidPath(v)
    case Ident => IdentText(v)
    case Int => Atoi(v).Some? && p.min <= Atoi(v).value <= p.max
    case Enum => v in p.values
    case OtherKind => false
  }

  // ----- what validation demands -----

  function Holes(argv: seq<string>, name: string): nat {
    if argv == [] then 0 else Holes(argv[..|argv| - 1], name) + (if Placeholder(argv[|argv| - 1]) == Some(name) then 1 else 0)
  }

  function Declared(params: seq<Param>): (m: map<string, Param>) {
    if params == [] then map[] else Declared(params[..|params| - 1])[params[|params| - 1].name := params[|params| - 1]]
  }

  predicate ParamFits(c: Check, p: Param) {
    match p.kind
    case Enum => p.values != [] && forall i :: 0 <= i < |p.values| ==> Literal(p.values[i]) && p.values[i] != ""
    case Int => p.min <= p.max
    case Path => c.hasPathUse
    case Ident => true
    case OtherKind => false
  }

  predicate TokenFits(c: Check, names: set<string>, t: string) {
    match Placeholder(t)
    case Some(name) => name in names
    case None => '{' !in t && '}' !in t && (c.canary || Literal(t))
  }

  predicate ParamsFit(c: Check) {
    (forall i :: 0 <= i < |c.params| ==> ParamFits(c, c.params[i])) &&
    (forall i, j :: 0 <= i < j < |c.params| ==> c.params[i].name != c.params[j].name)
  }

  predicate TokensFit(c: Check) { forall i :: 0 <= i < |c.argv| ==> TokenFits(c, Declared(c.params).Keys, c.argv[i]) }

  /** Every hole is a declared param, every declared param has exactly one hole, and the rest is literal. */
  predicate WellFormed(c: Check) {
    c.argv != [] && ParamsFit(c) && TokensFit(c) &&
    (forall name :: name in Declared(c.params) ==> Holes(c.argv, name) == 1)
  }

  datatype Rule = EmptyArgv | BadParam | PathUse | UnboundHole | MalformedHole | Metachar | MultiplyBound | ParamWithoutHole | CanaryCount | BaselineTierCap |
                  ParserKind | MissingUnit | BadExtract | DisallowedBinary | ElevatedPrefixOnly | MutatingFlag | VerbNotAllowed

  predicate FitUpTo(c: Check, n: nat)
    requires n <= |c.params|
  {
    (forall i :: 0 <= i < n ==> ParamFits(c, c.params[i])) &&
    (forall i, j :: 0 <= i < j < n ==> c.params[i].name != c.params[j].name)
  }

  lemma FitGrows(c: Check, n: nat)
    requires n < |c.params|
    ensures FitUpTo(c, n + 1) <==> FitUpTo(c, n) && ParamFits(c, c.params[n]) && c.params[n].name !in Declared(c.params[..n])
  {
    hide ParamFits, Declared;
    DeclaredExactly(c.params[..n]);
    assert forall i :: 0 <= i < n ==> c.params[..n][i] == c.params[i];
  }

  method ParamViolations(c: Check) returns (vs: seq<Rule>, declared: map<string, Param>)
    ensures vs == [] <==> ParamsFit(c)
    ensures declared == Declared(c.params)
  {
    vs, declared := [], map[];
    for i := 0 to |c.params|
      invariant declared == Declared(c.params[..i])
      invariant vs == [] <==> FitUpTo(c, i)
    {
      hide ParamFits, FitUpTo;
      var p := c.params[i];
      assert c.params[..i + 1][..i] == c.params[..i];
      FitGrows(c, i);
      var bad := ParamRules(c, p);
      if p.name in declared { bad := [BadParam] + bad; }
      declared := declared[p.name := p];
      vs := vs + bad;
    }
    assert c.params[..|c.params|] == c.params;
  }

  method ParamRules(c: Check, p: Param) returns (vs: seq<Rule>)
    ensures vs == [] <==> ParamFits(c, p)
  {
    vs := [];
    match p.kind {
      case Enum =>
        if |p.values| == 0 { vs := vs + [BadParam]; }
        for k := 0 to |p.values|
          invariant vs == [] <==> (p.values != [] && forall l :: 0 <= l < k ==> Literal(p.values[l]) && p.values[l] != "")
        {
          if !Literal(p.values[k]) || p.values[k] == "" { vs := vs + [BadParam]; }
        }
      case Int => if p.min > p.max { vs := [BadParam]; }
      case Path => if !c.hasPathUse { vs := [PathUse]; }
      case Ident =>
      case OtherKind => vs := [BadParam];
    }
  }

  /** bound counts how often each hole appears. */
  ghost predicate CountsHoles(argv: seq<string>, bound: map<string, nat>) {
    forall n :: Holes(argv, n) == if n in bound then bound[n] else 0
  }

  lemma CountsGrow(argv: seq<string>, t: string, bound: map<string, nat>)
    requires CountsHoles(argv, bound)
    ensures Placeholder(t).None? ==> CountsHoles(argv + [t], bound)
    ensures Placeholder(t).Some? ==>
      (var n := Placeholder(t).value; CountsHoles(argv + [t], bound[n := (if n in bound then bound[n] else 0) + 1]))
  {
    hide Placeholder;
    assert (argv + [t])[..|argv|] == argv;
  }

  method TokenViolations(c: Check, declared: map<string, Param>) returns (vs: seq<Rule>, bound: map<string, nat>)
    requires declared == Declared(c.params)
    ensures vs == [] <==> TokensFit(c)
    ensures CountsHoles(c.argv, bound) && forall n :: n in bound ==> bound[n] > 0
  {
    hide Placeholder, Declared, Literal, Holes;
    vs, bound := [], map[];
    CountsNone();
    for i := 0 to |c.argv|
      invariant CountsHoles(c.argv[..i], bound) && forall n :: n in bound ==> bound[n] > 0
      invariant vs == [] <==> forall k :: 0 <= k < i ==> TokenFits(c, declared.Keys, c.argv[k])
    {
      hide CountsHoles;
      CountsGrow(c.argv[..i], c.argv[i], bound);
      assert c.argv[..i + 1] == c.argv[..i] + [c.argv[i]];
      var hole := Placeholder(c.argv[i]);
      if hole.Some? {
        if hole.value !in declared { vs := vs + [UnboundHole]; }
        bound := bound[hole.value := (if hole.value in bound then bound[hole.value] else 0) + 1];
        continue;
      }
      if '{' in c.argv[i] || '}' in c.argv[i] {
        vs := vs + [MalformedHole];
        continue;
      }
      if !c.canary && !Literal(c.argv[i]) { vs := vs + [Metachar]; }
    }
    assert c.argv[..|c.argv|] == c.argv;
  }

  lemma CountsNone()
    ensures CountsHoles([], map[])
  {
  }

  /** The two last loops, over maps in any order: a hole bound twice, a param without a hole. */
  method HoleViolations(declared: map<string, Param>, bound: map<string, nat>) returns (vs: seq<Rule>)
    ensures vs == [] <==> ((forall n :: n in bound ==> bound[n] <= 1) && (forall n :: n in declared ==> n in bound && bound[n] != 0))
  {
    vs := [];
    var todo := bound.Keys;
    while todo != {}
      invariant todo <= bound.Keys
      invariant vs == [] <==> forall n :: n in bound && n !in todo ==> bound[n] <= 1
      decreases todo
    {
      var n :| n in todo;
      if bound[n] > 1 { vs := vs + [MultiplyBound]; }
      todo := todo - {n};
    }
    todo := declared.Keys;
    ghost var before := vs;
    while todo != {}
      invariant todo <= declared.Keys
      invariant vs == [] <==> (before == [] && forall n :: n in declared && n !in todo ==> n in bound && bound[n] != 0)
      decreases todo
    {
      var n :| n in todo;
      if n !in bound || bound[n] == 0 { vs := vs + [ParamWithoutHole]; }
      todo := todo - {n};
    }
  }

  // ----- parsers, extraction and binaries -----

  predicate ParserFits(c: Check) {
    match c.parser
    case LinesOrKV => c.unit != ""
    case RawOrJson => true
    case TypedShape => c.unit == ""
    case OtherParser => false
  }

  predicate ExtractFits(c: Check) { c.extract == NoExtract || c.extract == Groups(1) }

  function BaseOf(path: string): string { match CutLast(path, '/') case NoCut => path case CutAt(_, base) => base }

  predicate Dashed(t: string) { HasPrefix(t, "-") }

  /** The first token that is no flag, or simply the first where the allowed verbs are flags themselves. */
  function VerbOf(args: seq<string>, flags: bool): string {
    if args == [] then "" else if !Dashed(args[0]) || flags then args[0] else VerbOf(args[1..], flags)
  }

  predicate FlagVerbs(verbs: seq<string>) { verbs != [] && Dashed(verbs[0]) }

  predicate Mutates(r: BinaryRule, t: string) {
    t in r.denyTokens || exists i :: 0 <= i < |r.denyPrefixes| && HasPrefix(t, r.denyPrefixes[i])
  }

  predicate RuleFits(r: BinaryRule, args: seq<string>) {
    (forall i :: 0 <= i < |args| ==> !Mutates(r, args[i])) &&
    (r.verbs.Some? ==> VerbOf(args, FlagVerbs(r.verbs.value)) in r.verbs.value)
  }

  predicate BinaryFits(t: Tables, argv: seq<string>)
    requires argv != []
  {
    var bin := BaseOf(argv[0]);
    bin !in t.denied && bin != "sudo" && bin != "doas" && (bin in t.rules ==> RuleFits(t.rules[bin], argv[1..]))
  }

  method BinaryViolations(r: BinaryRule, args: seq<string>) returns (vs: seq<Rule>)
    ensures vs == [] <==> RuleFits(r, args)
  {
    hide Dashed, HasPrefix;
    vs := [];
    for i := 0 to |args|
      invariant vs == [] <==> forall k :: 0 <= k < i ==> !Mutates(r, args[k])
    {
      var bad := args[i] in r.denyTokens;
      for k := 0 to |r.denyPrefixes|
        invariant bad <==> (args[i] in r.denyTokens || exists l :: 0 <= l < k && HasPrefix(args[i], r.denyPrefixes[l]))
      {
        if HasPrefix(args[i], r.denyPrefixes[k]) { bad := true; }
      }
      if bad { vs := vs + [MutatingFlag]; }
    }
    if r.verbs.Some? {
      var verb := "";
      var flags, k := FlagVerbs(r.verbs.value), 0;
      assert args[0..] == args;
      while k < |args|
        invariant 0 <= k <= |args| && verb == "" && VerbOf(args[k..], flags) == VerbOf(args, flags)
      {
        assert args[k..][0] == args[k] && args[k..][1..] == args[k + 1..];
        if !Dashed(args[k]) || flags {
          verb := args[k];
          break;
        }
        k := k + 1;
      }
      if verb !in r.verbs.value { vs := vs + [VerbNotAllowed]; }
    }
  }

  /** Everything validateOne asks of a check. */
  predicate Passes(t: Tables, c: Check) {
    WellFormed(c) && ParserFits(c) && ExtractFits(c) && BinaryFits(t, c.argv)
  }

  method ShapeViolations(t: Tables, c: Check) returns (vs: seq<Rule>)
    requires c.argv != []
    ensures vs == [] <==> ParserFits(c) && ExtractFits(c) && BinaryFits(t, c.argv)
  {
    hide RuleFits, BaseOf;
    vs := [];
    match c.parser {
      case LinesOrKV => if c.unit == "" { vs := vs + [MissingUnit]; }
      case RawOrJson =>
      case TypedShape => if c.unit != "" { vs := vs + [MissingUnit]; }
      case OtherParser => vs := vs + [ParserKind];
    }
    if c.extract != NoExtract && c.extract != Groups(1) { vs := vs + [BadExtract]; }
    var bin := BaseOf(c.argv[0]);
    if bin in t.denied { vs := vs + [DisallowedBinary]; }
    if bin == "sudo" || bin == "doas" { vs := vs + [ElevatedPrefixOnly]; }
    if bin in t.rules {
      var bs := BinaryViolations(t.rules[bin], c.argv[1..]);
      vs := vs + bs;
    }
  }

  /** validateOne: no violation exactly when the check passes. */
  method ValidateOne(t: Tables, c: Check) returns (vs: seq<Rule>)
    ensures vs == [] <==> Passes(t, c)
  {
    hide ParamsFit, Holes, Declared, ParserFits, ExtractFits, BinaryFits;
    if |c.argv| == 0 { return [EmptyArgv]; }
    var ss := ShapeViolations(t, c);
    var ps, declared := ParamViolations(c);
    var ts, bound := TokenViolations(c, declared);
    var hs := HoleViolations(declared, bound);
    vs := ss + ps + ts + hs;
    if TokensFit(c) { HolesDeclared(c, declared, bound); }
  }

  const BASELINE_TIER_CAP: nat := 40

  predicate OnDemandBaseline(c: Check) { !c.baseline && c.baselineProfile }

  function Canaries(cs: seq<Check>): nat { if cs == [] then 0 else Canaries(cs[..|cs| - 1]) + (if cs[|cs| - 1].canary then 1 else 0) }

  function OnDemand(cs: seq<Check>): nat { if cs == [] then 0 else OnDemand(cs[..|cs| - 1]) + (if OnDemandBaseline(cs[|cs| - 1]) then 1 else 0) }

  /** Validate: a catalog without violations has only passing checks, exactly one canary, and a bounded baseline tier. */
  method Validate(t: Tables, cs: seq<Check>) returns (vs: seq<Rule>)
    ensures vs == [] <==>
      ((forall i :: 0 <= i < |cs| ==> Passes(t, cs[i])) && (cs != [] ==> Canaries(cs) == 1) && OnDemand(cs) <= 40)
  {
    hide Passes;
    vs := [];
    var canaries, onDemand := 0, 0;
    for i := 0 to |cs|
      invariant vs == [] <==> forall k :: 0 <= k < i ==> Passes(t, cs[k])
      invariant canaries == Canaries(cs[..i]) && onDemand == OnDemand(cs[..i])
    {
      assert cs[..i + 1][..i] == cs[..i];
      var one := ValidateOne(t, cs[i]);
      vs := vs + one;
      if cs[i].canary { canaries := canaries + 1; }
      if OnDemandBaseline(cs[i]) { onDemand := onDemand + 1; }
    }
    assert cs[..|cs|] == cs;
    if |cs| > 0 && canaries != 1 { vs := vs + [CanaryCount]; }
    if onDemand > BASELINE_TIER_CAP { vs := vs + [BaselineTierCap]; }
  }

  lemma HolesDeclared(c: Check, declared: map<string, Param>, bound: map<string, nat>)
    requires TokensFit(c) && declared == Declared(c.params) && CountsHoles(c.argv, bound) && forall n :: n in bound ==> bound[n] > 0
    ensures forall n :: n in bound ==> n in declared
  {
    forall n | n in bound ensures n in declared {
      HoleAt(c.argv, n);
      var i :| 0 <= i < |c.argv| && Placeholder(c.argv[i]) == Some(n);
      assert TokenFits(c, declared.Keys, c.argv[i]);
    }
  }

  lemma {:induction false} HoleAt(argv: seq<string>, name: string)
    ensures Holes(argv, name) > 0 <==> exists i :: 0 <= i < |argv| && Placeholder(argv[i]) == Some(name)
  {
    hide Placeholder;
    if argv != [] {
      HoleAt(argv[..|argv| - 1], name);
      assert forall i :: 0 <= i < |argv| - 1 ==> argv[..|argv| - 1][i] == argv[i];
    }
  }

  // ----- binding -----

  /** The whole result of Bind: the argv, or None for its error. */
  function Bound(c: Check, params: map<string, string>): Option<seq<string>> {
    if !(params.Keys <= Declared(c.params).Keys) then None else Substituted(Declared(c.params), c.argv, params)
  }

  function Substituted(declared: map<string, Param>, argv: seq<string>, params: map<string, string>): (r: Option<seq<string>>)
    ensures r.Some? ==> |r.value| == |argv|
  {
    if argv == [] then Some([])
    else
      var rest, t := Substituted(declared, argv[..|argv| - 1], params), argv[|argv| - 1];
      if rest.None? then None
      else match Placeholder(t)
        case None => Some(rest.value + [t])
        case Some(name) =>
          if name in declared && name in params && ValidParam(declared[name], params[name]) then Some(rest.value + [params[name]]) else None
  }

  method Bind(c: Check, params: map<string, string>) returns (r: Option<seq<string>>)
    ensures r == Bound(c, params)
  {
    hide Placeholder, ValidParam;
    var byName := map[];
    for i := 0 to |c.params|
      invariant byName == Declared(c.params[..i])
    {
      assert c.params[..i + 1][..i] == c.params[..i];
      byName := byName[c.params[i].name := c.params[i]];
    }
    assert c.params[..|c.params|] == c.params;
    var todo := params.Keys;
    while todo != {}
      invariant todo <= params.Keys && forall n :: n in params && n !in todo ==> n in byName
      decreases todo
    {
      var n :| n in todo;
      if n !in byName { return None; }
      todo := todo - {n};
    }
    var argv := [];
    for i := 0 to |c.argv|
      invariant Some(argv) == Substituted(byName, c.argv[..i], params)
    {
      assert c.argv[..i + 1][..i] == c.argv[..i];
      var hole := Placeholder(c.argv[i]);
      if hole == None {
        argv := argv + [c.argv[i]];
        continue;
      }
      if hole.value !in params || hole.value !in byName || !ValidParam(byName[hole.value], params[hole.value]) {
        Short(byName, c.argv, params, i + 1);
        return None;
      }
      argv := argv + [params[hole.value]];
    }
    assert c.argv[..|c.argv|] == c.argv;
    return Some(argv);
  }

  lemma {:induction false} Short(declared: map<string, Param>, argv: seq<string>, params: map<string, string>, i: nat)
    requires i <= |argv| && Substituted(declared, argv[..i], params) == None
    ensures Substituted(declared, argv, params) == None
  {
    hide Placeholder, ValidParam;
    if i == |argv| {
      assert argv[..i] == argv;
    } else {
      assert argv[..|argv| - 1][..i] == argv[..i];
      Short(declared, argv[..|argv| - 1], params, i);
    }
  }

  /** Token by token: a literal stays, a hole holds the param's value. */
  lemma {:induction false} SubstitutedAt(declared: map<string, Param>, argv: seq<string>, params: map<string, string>, i: nat)
    requires i < |argv| && Substituted(declared, argv, params).Some?
    ensures var out := Substituted(declared, argv, params).value;
      match Placeholder(argv[i])
      case None => out[i] == argv[i]
      case Some(n) => n in declared && n in params && out[i] == params[n] && ValidParam(declared[n], params[n])
  {
    hide Placeholder, ValidParam;
    if i < |argv| - 1 {
      assert argv[..|argv| - 1][i] == argv[i];
      SubstitutedAt(declared, argv[..|argv| - 1], params, i);
    }
  }

  lemma {:induction false} SubstitutedIf(declared: map<string, Param>, argv: seq<string>, params: map<string, string>)
    requires forall i :: 0 <= i < |argv| && Placeholder(argv[i]).Some? ==>
      Placeholder(argv[i]).value in declared && Placeholder(argv[i]).value in params &&
      ValidParam(declared[Placeholder(argv[i]).value], params[Placeholder(argv[i]).value])
    ensures Substituted(declared, argv, params).Some?
  {
    hide Placeholder, ValidParam;
    if argv != [] {
      assert forall i :: 0 <= i < |argv| - 1 ==> argv[..|argv| - 1][i] == argv[i];
      SubstitutedIf(declared, argv[..|argv| - 1], params);
    }
  }

  // ----- what validation buys -----

  lemma DigitsLiteral(s: string)
    requires Atoi(s).Some?
    ensures Literal(s)
  {
    assert s != "";
    var digits := if s[0] == '+' || s[0] == '-' then s[1..] else s;
    assert forall i :: 1 <= i < |s| ==> s[i] == digits[if digits == s then i else i - 1];
  }

  /** A value any kind accepts is over the literal alphabet, and never empty. */
  lemma ValueLiteral(c: Check, p: Param, v: string)
    requires ParamFits(c, p) && ValidParam(p, v)
    ensures Literal(v) && v != ""
  {
    hide Split, Atoi;
    match p.kind
    case Path =>
    case Ident =>
    case Int =>
      DigitsLiteral(v);
      NotEmpty(v);
    case Enum =>
  }

  /** The three alphabets, in characters. */
  lemma Alphabets(c: char)
    ensures LiteralChar(c) <==> 'a' <= c <= 'z' || 'A' <= c <= 'Z' || '0' <= c <= '9' || c in "._/,:=+%@-"
    ensures PathChar(c) <==> 'a' <= c <= 'z' || 'A' <= c <= 'Z' || '0' <= c <= '9' || c in "._/-"
    ensures IdentChar(c) <==> 'a' <= c <= 'z' || 'A' <= c <= 'Z' || '0' <= c <= '9' || c in "._-"
  {
  }

  /** A path value is absolute and over the path alphabet, and none of its segments is the parent. */
  lemma PathValues(v: string)
    ensures ValidPath(v) <==>
      exists parts: seq<string> :: PathParts(parts) && v == "/" + Join(parts, '/')
  {
    forall parts: seq<string> | PathParts(parts) && v == "/" + Join(parts, '/') ensures ValidPath(v) { PathValue(parts); }
    if ValidPath(v) {
      var rest := v[1..];
      var parts := Split(rest, '/');
      SplitAt("", '/', rest);
      assert "" + ['/'] + rest == v;
      JoinSplit(rest, '/');
      SplitChars(rest, '/', PathChar);
      assert v == "/" + Join(parts, '/');
      assert forall i :: 0 <= i < |rest| ==> rest[i] == v[i + 1];
      forall i | 0 <= i < |parts| ensures parts[i] != ".." && AllIn(parts[i], PathChar) { assert ([""] + parts)[i + 1] == parts[i]; }
    }
  }

  predicate PathParts(parts: seq<string>) {
    parts != [] && forall i :: 0 <= i < |parts| ==> parts[i] != ".." && '/' !in parts[i] && AllIn(parts[i], PathChar)
  }

  lemma PathValue(parts: seq<string>)
    requires PathParts(parts)
    ensures ValidPath("/" + Join(parts, '/'))
  {
    var rest := Join(parts, '/');
    var v := "/" + rest;
    SplitJoin(parts, '/');
    SplitAt("", '/', rest);
    assert "" + ['/'] + rest == v;
    SplitChars(rest, '/', PathChar);
    hide Split, Join;
    assert forall i :: 0 <= i < |v| ==> PathChar(v[i]);
    assert ".." !in [""] + parts by { assert forall x :: x in [""] + parts ==> x == "" || x in parts; }
  }

  lemma NotEmpty(v: string)
    requires Atoi(v).Some?
    ensures v != ""
  {
  }

  lemma {:induction false} DeclaredExactly(params: seq<Param>)
    ensures forall n :: n in Declared(params) <==> exists i :: 0 <= i < |params| && params[i].name == n
    ensures forall n :: n in Declared(params) ==> Declared(params)[n] in params && Declared(params)[n].name == n
  {
    if params != [] {
      var rest := params[..|params| - 1];
      DeclaredExactly(rest);
      assert forall i :: 0 <= i < |rest| ==> params[i] == rest[i];
      assert params == rest + [params[|params| - 1]];
    }
  }

  /** Bind accepts exactly the declared params, each with a value of its kind. */
  lemma BindAccepts(c: Check, params: map<string, string>)
    requires WellFormed(c)
    ensures Bound(c, params).Some? <==>
      (params.Keys == Declared(c.params).Keys && forall n :: n in params ==> ValidParam(Declared(c.params)[n], params[n]))
  {
    hide ValidParam, Literal, ParamsFit, Placeholder;
    var declared := Declared(c.params);
    if Bound(c, params).Some? {
      forall n | n in declared ensures n in params && ValidParam(declared[n], params[n]) {
        HoleAt(c.argv, n);
        var i :| 0 <= i < |c.argv| && Placeholder(c.argv[i]) == Some(n);
        SubstitutedAt(declared, c.argv, params, i);
      }
    } else if params.Keys == declared.Keys && forall n :: n in params ==> ValidParam(declared[n], params[n]) {
      forall i | 0 <= i < |c.argv| && Placeholder(c.argv[i]).Some? ensures Placeholder(c.argv[i]).value in declared {
        assert TokenFits(c, declared.Keys, c.argv[i]);
      }
      SubstitutedIf(declared, c.argv, params);
    }
  }

  /**
   * For a check validation passes: the bound argv keeps the template's length and every literal, its tokens are over the
   * literal alphabet, and each param stands in exactly one place.
   */
  lemma BindSound(c: Check, params: map<string, string>)
    requires WellFormed(c) && !c.canary && Bound(c, params).Some?
    ensures var argv := Bound(c, params).value;
      |argv| == |c.argv| &&
      (forall i :: 0 <= i < |argv| ==> Literal(argv[i])) &&
      (forall i :: 0 <= i < |argv| && Placeholder(c.argv[i]).None? ==> argv[i] == c.argv[i]) &&
      (forall i :: 0 <= i < |argv| && Placeholder(c.argv[i]).Some? ==>
        Placeholder(c.argv[i]).value in params && argv[i] == params[Placeholder(c.argv[i]).value]) &&
      (forall n :: n in params ==> Holes(c.argv, n) == 1)
  {
    hide ValidParam, Literal, Placeholder, Holes;
    var declared, argv := Declared(c.params), Bound(c, params).value;
    DeclaredExactly(c.params);
    forall i | 0 <= i < |argv| ensures Literal(argv[i]) {
      SubstitutedAt(declared, c.argv, params, i);
      assert TokenFits(c, declared.Keys, c.argv[i]);
      if Placeholder(c.argv[i]).Some? {
        var n := Placeholder(c.argv[i]).value;
        ValueLiteral(c, declared[n], params[n]);
      }
    }
    forall i | 0 <= i < |argv|
      ensures Placeholder(c.argv[i]).None? ==> argv[i] == c.argv[i]
      ensures Placeholder(c.argv[i]).Some? ==> Placeholder(c.argv[i]).value in params && argv[i] == params[Placeholder(c.argv[i]).value]
    {
      SubstitutedAt(declared, c.argv, params, i);
    }
  }

  /** So the command line determines the call: two bindings with equal argv are the same binding. */
  lemma BindInjective(c: Check, a: map<string, string>, b: map<string, string>)
    requires WellFormed(c) && Bound(c, a).Some? && Bound(c, a) == Bound(c, b)
    ensures a == b
  {
    hide ValidParam, Literal, Placeholder, ParamsFit, TokensFit;
    BindAccepts(c, a);
    BindAccepts(c, b);
    forall n | n in a ensures a[n] == b[n] {
      HoleAt(c.argv, n);
      var i :| 0 <= i < |c.argv| && Placeholder(c.argv[i]) == Some(n);
      SubstitutedAt(Declared(c.params), c.argv, a, i);
      SubstitutedAt(Declared(c.params), c.argv, b, i);
    }
  }

  /** Without validation it does not: a declared param with no hole may take any value, and the argv does not show it. */
  lemma UnusedParamCollides(c: Check, params: map<string, string>, n: string, v: string)
    requires Bound(c, params).Some? && n in Declared(c.params) && Holes(c.argv, n) == 0
    ensures Bound(c, params[n := v]) == Bound(c, params)
  {
    NoHole(Declared(c.params), c.argv, params, n, v);
  }

  lemma {:induction false} NoHole(declared: map<string, Param>, argv: seq<string>, params: map<string, string>, n: string, v: string)
    requires Holes(argv, n) == 0
    ensures Substituted(declared, argv, params[n := v]) == Substituted(declared, argv, params)
  {
    hide ValidParam, Placeholder;
    if argv != [] { NoHole(declared, argv[..|argv| - 1], params, n, v); }
  }
}
