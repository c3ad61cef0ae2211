/**
 * Validation looks at the template and binding at the values: exactly when every argv Bind accepts still obeys the rules of
 * its binary (invariants.go, bind.go).
 */
module BoundArgv {
  import opened Options
  import opened Text
  import opened Decimal
  import opened Binding

  /** What may stand in place of a token: itself, or for a hole any value of its param. */
  predicate Takes(declared: map<string, Param>, token: string, v: string) {
    match Placeholder(token)
    case None => v == token
    case Some(n) => n in declared && ValidParam(declared[n], v)
  }

  predicate InstanceOf(declared: map<string, Param>, argv: seq<string>, out: seq<string>) {
    |out| == |argv| && forall i :: 0 <= i < |argv| ==> Takes(declared, argv[i], out[i])
  }

  // ----- bindings are instances -----

  lemma {:induction false} HoleOnce(argv: seq<string>, n: string, i: nat, j: nat)
    requires i < j < |argv| && Placeholder(argv[i]) == Some(n) && Placeholder(argv[j]) == Some(n)
    ensures Holes(argv, n) >= 2
  {
    hide Placeholder;
    var rest := argv[..|argv| - 1];
    if j < |argv| - 1 {
      HoleOnce(rest, n, i, j);
    } else {
      assert rest[i] == argv[i];
      HoleAt(rest, n);
    }
  }

  lemma BoundIsInstance(c: Check, params: map<string, string>)
    requires Bound(c, params).Some?
    ensures InstanceOf(Declared(c.params), c.argv, Bound(c, params).value)
  {
    hide Placeholder, ValidParam, Declared;
    forall i | 0 <= i < |c.argv| ensures Takes(Declared(c.params), c.argv[i], Bound(c, params).value[i]) {
      SubstitutedAt(Declared(c.params), c.argv, params, i);
    }
  }

  /** The holes take their values independently: every instance of the template is a binding. */
  lemma Realized(c: Check, out: seq<string>) returns (params: map<string, string>)
    requires WellFormed(c) && InstanceOf(Declared(c.params), c.argv, out)
    ensures Bound(c, params) == Some(out)
  {
    hide Placeholder, ValidParam, Declared, ParamsFit, TokensFit, Holes, Substituted;
    var declared := Declared(c.params);
    params := map n | n in declared && Within(c.argv, n) :: out[HoleOf(c.argv, n)];
    forall i | 0 <= i < |c.argv| && Placeholder(c.argv[i]).Some?
      ensures Placeholder(c.argv[i]).value in params && params[Placeholder(c.argv[i]).value] == out[i]
    {
      var n := Placeholder(c.argv[i]).value;
      assert Takes(declared, c.argv[i], out[i]);
      var j := HoleOf(c.argv, n);
      if i < j { HoleOnce(c.argv, n, i, j); } else if j < i { HoleOnce(c.argv, n, j, i); }
    }
    Filled(declared, c.argv, params, out);
  }

  ghost predicate Within(argv: seq<string>, n: string) { exists i :: 0 <= i < |argv| && Placeholder(argv[i]) == Some(n) }

  ghost function HoleOf(argv: seq<string>, n: string): (i: nat)
    requires Within(argv, n)
    ensures i < |argv| && Placeholder(argv[i]) == Some(n)
  {
    var i :| 0 <= i < |argv| && Placeholder(argv[i]) == Some(n);
    i
  }

  lemma Filled(declared: map<string, Param>, argv: seq<string>, params: map<string, string>, out: seq<string>)
    requires InstanceOf(declared, argv, out)
    requires forall i :: 0 <= i < |argv| && Placeholder(argv[i]).Some? ==>
      Placeholder(argv[i]).value in params && params[Placeholder(argv[i]).value] == out[i]
    ensures Substituted(declared, argv, params) == Some(out)
  {
    hide Placeholder, ValidParam, Substituted;
    forall i | 0 <= i < |argv| && Placeholder(argv[i]).Some?
      ensures Placeholder(argv[i]).value in declared && ValidParam(declared[Placeholder(argv[i]).value], params[Placeholder(argv[i]).value])
    {
      assert Takes(declared, argv[i], out[i]);
    }
    SubstitutedIf(declared, argv, params);
    var got := Substituted(declared, argv, params).value;
    forall i | 0 <= i < |argv| ensures got[i] == out[i] {
      SubstitutedAt(declared, argv, params, i);
      assert Takes(declared, argv[i], out[i]);
    }
    assert got == out;
  }

  // ----- every param has a value -----

  /** The bounds of an integer param are machine integers. */
  predicate MachineBounds(c: Check) {
    forall i :: 0 <= i < |c.params| ==> -MAX_INT - 1 <= c.params[i].min <= MAX_INT && -MAX_INT - 1 <= c.params[i].max <= MAX_INT
  }

  function IntText(n: int): string { if n < 0 then "-" + Itoa(0 - n) else Itoa(n) }

  lemma IntTextReads(n: int)
    requires -MAX_INT - 1 <= n <= MAX_INT
    ensures Atoi(IntText(n)) == Some(n)
  {
    hide Itoa, Value;
    var m: nat := if n < 0 then 0 - n else n;
    ValueOfItoa(m);
    if n < 0 { assert ("-" + Itoa(m))[1..] == Itoa(m); }
  }

  function Witness(p: Param): string {
    match p.kind
    case Path => "/"
    case Ident => "a"
    case Int => IntText(p.min)
    case Enum => if p.values == [] then "" else p.values[0]
    case OtherKind => ""
  }

  lemma WitnessValid(c: Check, p: Param)
    requires ParamFits(c, p) && -MAX_INT - 1 <= p.min <= MAX_INT
    ensures ValidParam(p, Witness(p))
  {
    if p.kind == Int {
      hide IntText, Atoi;
      IntTextReads(p.min);
    } else if p.kind == Path {
      RootValid();
    }
  }

  lemma RootValid()
    ensures ValidPath("/")
  {
    assert Split("/", '/') == ["", ""];
  }

  /** Every token can stand for something. */
  predicate Inhabited(declared: map<string, Param>, argv: seq<string>) {
    forall i :: 0 <= i < |argv| ==> Takes(declared, argv[i], Standing(declared, argv[i]))
  }

  function Standing(declared: map<string, Param>, token: string): string {
    match Placeholder(token)
    case None => token
    case Some(n) => if n in declared then Witness(declared[n]) else ""
  }

  lemma AllInhabited(c: Check)
    requires WellFormed(c) && MachineBounds(c)
    ensures Inhabited(Declared(c.params), c.argv)
  {
    hide Placeholder, ValidParam, Witness, ParamFits, Holes, Literal;
    var declared := Declared(c.params);
    DeclaredExactly(c.params);
    hide Declared;
    forall i | 0 <= i < |c.argv| ensures Takes(declared, c.argv[i], Standing(declared, c.argv[i])) {
      assert TokenFits(c, declared.Keys, c.argv[i]);
      if Placeholder(c.argv[i]).Some? {
        var p := declared[Placeholder(c.argv[i]).value];
        var k :| 0 <= k < |c.params| && c.params[k] == p;
        assert ParamFits(c, c.params[k]);
        WitnessValid(c, p);
      }
    }
  }

  function Standings(declared: map<string, Param>, argv: seq<string>): (out: seq<string>)
    ensures |out| == |argv| && forall i :: 0 <= i < |argv| ==> out[i] == Standing(declared, argv[i])
  {
    seq(|argv|, i requires 0 <= i < |argv| => Standing(declared, argv[i]))
  }

  // ----- the verb -----

  /** No verb of the table is a hole. */
  predicate PlainVerbs(t: Tables) {
    forall b :: b in t.rules && t.rules[b].verbs.Some? ==> forall v :: v in t.rules[b].verbs.value ==> Placeholder(v).None?
  }

  lemma {:induction false} SameVerb(args: seq<string>, out: seq<string>, flags: bool)
    requires |args| == |out| && forall i :: 0 <= i < |args| ==> Placeholder(args[i]).None? ==> out[i] == args[i]
    requires Placeholder(VerbOf(args, flags)).None?
    ensures VerbOf(out, flags) == VerbOf(args, flags)
  {
    if args != [] {
      DashedLiteral(args[0]);
      hide Placeholder, Dashed;
      if Dashed(args[0]) && !flags {
        forall i | 0 <= i < |args| - 1 ensures Placeholder(args[1..][i]).None? ==> out[1..][i] == args[1..][i] {
          assert args[1..][i] == args[i + 1];
        }
        SameVerb(args[1..], out[1..], flags);
      }
    }
  }

  lemma DashedLiteral(t: string)
    ensures Dashed(t) ==> Placeholder(t).None?
  {
  }

  /** Binding cannot change what a binary with an allowlist is asked to do: the verb is the template's, and an allowed one. */
  lemma BindKeepsVerb(t: Tables, c: Check, params: map<string, string>, verbs: seq<string>)
    requires Passes(t, c) && PlainVerbs(t) && Bound(c, params).Some?
    requires BaseOf(c.argv[0]) in t.rules && t.rules[BaseOf(c.argv[0])].verbs == Some(verbs)
    ensures var argv := Bound(c, params).value;
      argv != [] && VerbOf(argv[1..], FlagVerbs(verbs)) in verbs &&
      VerbOf(argv[1..], FlagVerbs(verbs)) == VerbOf(c.argv[1..], FlagVerbs(verbs))
  {
    BoundIsInstance(c, params);
    hide Placeholder, Holes, Literal, BaseOf, Bound, Mutates, VerbOf, ValidParam, Declared, ParamsFit, TokensFit;
    var argv := Bound(c, params).value;
    forall i | 0 <= i < |c.argv| - 1 ensures Placeholder(c.argv[1..][i]).None? ==> argv[1..][i] == c.argv[1..][i] {
      assert Takes(Declared(c.params), c.argv[i + 1], argv[i + 1]);
    }
    SameVerb(c.argv[1..], argv[1..], FlagVerbs(verbs));
  }

  /** Whatever the holes hold, the first token that is no flag is an allowed verb. */
  ghost predicate VerbAlways(declared: map<string, Param>, args: seq<string>, verbs: seq<string>) {
    if args == [] then "" in verbs
    else
      (forall v :: Takes(declared, args[0], v) && (!Dashed(v) || FlagVerbs(verbs)) ==> v in verbs) &&
      ((exists v :: Takes(declared, args[0], v) && Dashed(v) && !FlagVerbs(verbs)) ==> VerbAlways(declared, args[1..], verbs))
  }

  lemma {:induction false} VerbHolds(declared: map<string, Param>, args: seq<string>, verbs: seq<string>, out: seq<string>)
    requires VerbAlways(declared, args, verbs) && InstanceOf(declared, args, out)
    ensures VerbOf(out, FlagVerbs(verbs)) in verbs
  {
    hide Takes, Dashed, FlagVerbs;
    if args != [] {
      assert Takes(declared, args[0], out[0]);
      if Dashed(out[0]) && !FlagVerbs(verbs) { VerbHolds(declared, args[1..], verbs, out[1..]); }
    }
  }

  lemma {:induction false} VerbBreaks(declared: map<string, Param>, args: seq<string>, verbs: seq<string>) returns (out: seq<string>)
    requires !VerbAlways(declared, args, verbs) && Inhabited(declared, args)
    ensures InstanceOf(declared, args, out) && VerbOf(out, FlagVerbs(verbs)) !in verbs
  {
    hide Takes, Dashed, FlagVerbs, Standing;
    if args == [] { return []; }
    if v :| Takes(declared, args[0], v) && (!Dashed(v) || FlagVerbs(verbs)) && v !in verbs {
      out := [v] + Standings(declared, args[1..]);
    } else {
      var v :| Takes(declared, args[0], v) && Dashed(v) && !FlagVerbs(verbs);
      var rest := VerbBreaks(declared, args[1..], verbs);
      out := [v] + rest;
      assert out[1..] == rest;
    }
  }

  // ----- the rules of the binary -----

  /** A value of the token is a denied one. */
  ghost predicate MayMutate(declared: map<string, Param>, r: BinaryRule, token: string) { exists v :: Takes(declared, token, v) && Mutates(r, v) }

  ghost predicate ArgsFit(declared: map<string, Param>, r: BinaryRule, args: seq<string>) {
    (forall i :: 0 <= i < |args| ==> !MayMutate(declared, r, args[i])) && (r.verbs.Some? ==> VerbAlways(declared, args, r.verbs.value))
  }

  lemma ArgsHold(declared: map<string, Param>, r: BinaryRule, args: seq<string>, out: seq<string>)
    requires ArgsFit(declared, r, args) && InstanceOf(declared, args, out)
    ensures RuleFits(r, out)
  {
    hide Takes, Mutates, VerbOf, FlagVerbs, VerbAlways;
    forall i | 0 <= i < |out| ensures !Mutates(r, out[i]) { assert !MayMutate(declared, r, args[i]); }
    if r.verbs.Some? { VerbHolds(declared, args, r.verbs.value, out); }
  }

  lemma ArgsBreak(declared: map<string, Param>, r: BinaryRule, args: seq<string>) returns (out: seq<string>)
    requires !ArgsFit(declared, r, args) && Inhabited(declared, args)
    ensures InstanceOf(declared, args, out) && !RuleFits(r, out)
  {
    hide Takes, Mutates, VerbOf, FlagVerbs, VerbAlways, Standing;
    if i :| 0 <= i < |args| && MayMutate(declared, r, args[i]) {
      var v :| Takes(declared, args[i], v) && Mutates(r, v);
      out := Standings(declared, args)[i := v];
      assert Mutates(r, out[i]);
    } else {
      out := VerbBreaks(declared, args, r.verbs.value);
    }
  }

  predicate BinaryDenied(t: Tables, v: string) { BaseOf(v) in t.denied || BaseOf(v) == "sudo" || BaseOf(v) == "doas" }

  /** Whatever argv[0] may be, it is no denied binary, and what a ruled one may be given obeys its rule. */
  ghost predicate TemplateFits(t: Tables, c: Check)
    requires c.argv != []
  {
    var declared := Declared(c.params);
    forall v :: Takes(declared, c.argv[0], v) ==>
      !BinaryDenied(t, v) && (BaseOf(v) in t.rules ==> ArgsFit(declared, t.rules[BaseOf(v)], c.argv[1..]))
  }

  lemma TemplateHolds(t: Tables, c: Check, params: map<string, string>)
    requires c.argv != [] && TemplateFits(t, c) && Bound(c, params).Some?
    ensures Bound(c, params).value != [] && BinaryFits(t, Bound(c, params).value)
  {
    BoundIsInstance(c, params);
    hide Bound, Takes, BaseOf, RuleFits, ArgsFit, Declared;
    var declared, out := Declared(c.params), Bound(c, params).value;
    assert Takes(declared, c.argv[0], out[0]);
    if BaseOf(out[0]) in t.rules { ArgsHold(declared, t.rules[BaseOf(out[0])], c.argv[1..], out[1..]); }
  }

  /** And otherwise some binding breaks a rule. */
  lemma TemplateBreaks(t: Tables, c: Check) returns (params: map<string, string>)
    requires WellFormed(c) && MachineBounds(c) && !TemplateFits(t, c)
    ensures Bound(c, params).Some? && Bound(c, params).value != [] && !BinaryFits(t, Bound(c, params).value)
  {
    AllInhabited(c);
    hide Bound, Takes, BaseOf, RuleFits, ArgsFit, Declared, Standing;
    var declared, args := Declared(c.params), c.argv[1..];
    var v :| Takes(declared, c.argv[0], v) &&
      (BinaryDenied(t, v) || (BaseOf(v) in t.rules && !ArgsFit(declared, t.rules[BaseOf(v)], args)));
    var rest := Standings(declared, args);
    if !BinaryDenied(t, v) { rest := ArgsBreak(declared, t.rules[BaseOf(v)], args); }
    var out := [v] + rest;
    assert out[1..] == rest;
    params := Realized(c, out);
  }

  /** Every argv Bind accepts obeys the rules of its binary exactly when the template does for all values of its holes. */
  lemma BoundFitsExactly(t: Tables, c: Check)
    requires WellFormed(c) && MachineBounds(c)
    ensures (forall params :: Bound(c, params).Some? ==> Bound(c, params).value != [] && BinaryFits(t, Bound(c, params).value)) <==> TemplateFits(t, c)
  {
    hide Bound, BinaryFits, TemplateFits;
    if TemplateFits(t, c) {
      forall params | Bound(c, params).Some? ensures Bound(c, params).value != [] && BinaryFits(t, Bound(c, params).value) {
        TemplateHolds(t, c, params);
      }
    } else {
      var params := TemplateBreaks(t, c);
    }
  }

  /**
   * For a check that passed validation and names its binary outright, the verb is safe and one thing is left to ask: that no
   * hole of a ruled binary can take a denied value.
   */
  lemma PassedFitsExactly(t: Tables, c: Check)
    requires Passes(t, c) && MachineBounds(c) && PlainVerbs(t) && Placeholder(c.argv[0]).None?
    ensures (forall params :: Bound(c, params).Some? ==> Bound(c, params).value != [] && BinaryFits(t, Bound(c, params).value)) <==>
      (BaseOf(c.argv[0]) in t.rules ==>
        forall i :: 1 <= i < |c.argv| && Placeholder(c.argv[i]).Some? ==> !MayMutate(Declared(c.params), t.rules[BaseOf(c.argv[0])], c.argv[i]))
  {
    BoundFitsExactly(t, c);
    hide Bound, BinaryFits, BaseOf, ArgsFit, Declared, MayMutate;
    var declared, bin, args := Declared(c.params), BaseOf(c.argv[0]), c.argv[1..];
    assert BinaryFits(t, c.argv);
    LiteralBinary(t, c);
    if bin in t.rules {
      AllInhabited(c);
      PassedArgs(declared, t.rules[bin], args);
      assert forall i :: 0 <= i < |args| ==> args[i] == c.argv[i + 1];
    }
  }

  lemma LiteralBinary(t: Tables, c: Check)
    requires c.argv != [] && BinaryFits(t, c.argv) && Placeholder(c.argv[0]).None?
    ensures TemplateFits(t, c) <==> (BaseOf(c.argv[0]) in t.rules ==> ArgsFit(Declared(c.params), t.rules[BaseOf(c.argv[0])], c.argv[1..]))
  {
    hide BaseOf, RuleFits, ArgsFit, Declared, Placeholder;
    assert Takes(Declared(c.params), c.argv[0], c.argv[0]);
  }

  lemma PassedArgs(declared: map<string, Param>, r: BinaryRule, args: seq<string>)
    requires RuleFits(r, args) && Inhabited(declared, args)
    requires r.verbs.Some? ==> forall v :: v in r.verbs.value ==> Placeholder(v).None?
    ensures ArgsFit(declared, r, args) <==> forall i :: 0 <= i < |args| && Placeholder(args[i]).Some? ==> !MayMutate(declared, r, args[i])
  {
    hide Mutates, VerbOf, FlagVerbs, VerbAlways, Placeholder, Standing, ValidParam;
    if r.verbs.Some? && !VerbAlways(declared, args, r.verbs.value) {
      var out := VerbBreaks(declared, args, r.verbs.value);
      assert forall i :: 0 <= i < |args| ==> Placeholder(args[i]).None? ==> Takes(declared, args[i], out[i]);
      SameVerb(args, out, FlagVerbs(r.verbs.value));
    }
    forall i | 0 <= i < |args| && Placeholder(args[i]).None? ensures !MayMutate(declared, r, args[i]) {
      assert !Mutates(r, args[i]);
    }
  }

  /** An identifier may be a denied value exactly when a denied token is one, or a denied prefix may begin one. */
  lemma IdentMutates(r: BinaryRule)
    ensures (exists v :: IdentText(v) && Mutates(r, v)) <==>
      ((exists i :: 0 <= i < |r.denyTokens| && IdentText(r.denyTokens[i])) ||
       (exists i :: 0 <= i < |r.denyPrefixes| && IdentText(r.denyPrefixes[i] + "a")))
  {
    if v :| IdentText(v) && Mutates(r, v) {
      if v !in r.denyTokens {
        var i :| 0 <= i < |r.denyPrefixes| && HasPrefix(v, r.denyPrefixes[i]);
        assert forall k :: 0 <= k < |r.denyPrefixes[i]| ==> r.denyPrefixes[i][k] == v[k];
        assert IdentText(r.denyPrefixes[i] + "a");
      }
    }
    if i :| 0 <= i < |r.denyTokens| && IdentText(r.denyTokens[i]) { assert Mutates(r, r.denyTokens[i]); }
    if i :| 0 <= i < |r.denyPrefixes| && IdentText(r.denyPrefixes[i] + "a") { assert Mutates(r, r.denyPrefixes[i] + "a"); }
  }

  // ----- where validation passes what binding breaks -----

  const FIND := BinaryRule(None, ["-exec", "-execdir", "-ok", "-okdir", "-delete", "-fprint", "-fprint0", "-fprintf", "-fls"], [])
  const TABLES := Tables({"rm"}, map["find" := FIND])

  function OneParam(argv: seq<string>, kind: Kind, values: seq<string>): Check {
    Check("c", argv, [Param("x", kind, values, 0, 0)], false, false, false, false, RawOrJson, "", NoExtract)
  }

  lemma HoleX()
    ensures Placeholder("{x}") == Some("x")
  {
    assert HoleName("x") && "{x}" == "{" + "x" + "}";
    assert "{x}"[1..2] == "x";
  }

  lemma DeclaredX(p: Param)
    ensures Declared([p]) == map[p.name := p]
  {
    assert [p][..0] == [];
  }

  /** The binary's name is what follows its last slash. */
  lemma OwnBase(s: string)
    requires '/' !in s
    ensures BaseOf(s) == s && forall dir :: BaseOf(dir + ['/'] + s) == s
  {
    NoCutLastOf(s, '/');
    forall dir ensures BaseOf(dir + ['/'] + s) == s { CutLastOf(dir, '/', s); }
  }

  /** A template whose last token is the hole, with literals before it, is well formed and binds any value of the param. */
  lemma HoleLast(before: seq<string>, kind: Kind, values: seq<string>, v: string)
    requires forall i :: 0 <= i < |before| ==> Placeholder(before[i]).None? && '{' !in before[i] && '}' !in before[i] && Literal(before[i])
    requires var c := OneParam(before + ["{x}"], kind, values); ParamFits(c, c.params[0]) && ValidParam(c.params[0], v)
    ensures var c := OneParam(before + ["{x}"], kind, values); WellFormed(c) && Bound(c, map["x" := v]) == Some(before + [v])
  {
    hide ParamFits, ValidParam, Literal, Placeholder;
    var c := OneParam(before + ["{x}"], kind, values);
    HoleX();
    DeclaredX(c.params[0]);
    hide Declared;
    assert c.argv[..|before|] == before;
    HoleAt(before, "x");
    Filled(Declared(c.params), c.argv, map["x" := v], before + [v]);
    hide Substituted, Holes;
    assert TokensFit(c);
  }

  /** An identifier may be a flag: find {x} passes, and binds to a find that deletes. */
  lemma FindMayDelete()
    ensures var c := OneParam(["find", "{x}"], Ident, []);
      Passes(TABLES, c) && Bound(c, map["x" := "-delete"]) == Some(["find", "-delete"]) && !BinaryFits(TABLES, ["find", "-delete"])
  {
    hide WellFormed, Bound, RuleFits, BaseOf;
    FindBinds();
    OwnBase("find");
    FindRules();
    assert ["find", "-delete"][1..] == ["-delete"] && ["find", "{x}"][1..] == ["{x}"];
  }

  lemma FindBinds()
    ensures var c := OneParam(["find", "{x}"], Ident, []);
      WellFormed(c) && Bound(c, map["x" := "-delete"]) == Some(["find", "-delete"])
  {
    hide WellFormed, Bound;
    assert ["find"] + ["{x}"] == ["find", "{x}"] && ["find"] + ["-delete"] == ["find", "-delete"];
    HoleLast(["find"], Ident, [], "-delete");
  }

  lemma FindRules()
    ensures RuleFits(FIND, ["{x}"]) && !RuleFits(FIND, ["-delete"])
  {
    assert FIND.denyTokens[4] == "-delete";
    assert Mutates(FIND, ["-delete"][0]);
  }

  /** And a hole may be the binary itself: {x} of the values ["rm"] passes, and binds to rm. */
  lemma HoleMayRemove()
    ensures var c := OneParam(["{x}"], Enum, ["rm"]);
      Passes(TABLES, c) && Bound(c, map["x" := "rm"]) == Some(["rm"]) && !BinaryFits(TABLES, ["rm"])
  {
    hide WellFormed, Bound;
    assert [] + ["{x}"] == ["{x}"] && [] + ["rm"] == ["rm"];
    HoleLast([], Enum, ["rm"], "rm");
    OwnBase("{x}");
    OwnBase("rm");
    hide BaseOf;
  }
}
