/** The grade as arithmetic on ranks, for every context: what each row does, where it stops, and when a risk is accepted (grade.go). */
module GradeTable {
  import opened Options
  import opened SeverityChain
  import opened Grading

  /** Info is 0, low 1, medium 2, high 3 and critical 4. */
  function Clamp(r: int): nat { if r < 0 then 0 else if r > 4 then 4 else r }

  /** One row: the scale has ends, and a custom finding is never raised. */
  function Moved(custom: bool, r: nat, d: int): nat { if custom && d > 0 then r else Clamp(r + d) }

  // ----- the rows -----

  predicate Declares(c: Context, s: ServiceRef) {
    exists i :: 0 <= i < |c.services| && c.services[i].port == s.port && Text.Lower(c.services[i].proto) == Text.Lower(s.proto)
  }

  /** A declared listener is information; one nobody declared makes a network finding graver. */
  function ServiceDelta(c: Context, f: Finding): int {
    if f.service.None? || c.services == [] then 0
    else if Declares(c, f.service.value) then 0 - f.base.Rank()
    else if f.category == "network" then 1 else 0
  }

  function ExposureDelta(c: Context, f: Finding): int {
    if c.exposure == "internet" && f.category in {"remote-access", "network"} then 1
    else if c.exposure == "airgapped" && f.category == "remote-access" then -2 else 0
  }

  function EnvironmentDelta(c: Context): int { if c.environment == "dev" then -1 else 0 }

  /** At most one row, of that delta; no row for none. */
  predicate RowOf(rows: seq<Adjustment>, d: int) { (rows == [] && d == 0) || (|rows| == 1 && rows[0].delta == d) }

  lemma RowsAre(c: Context, f: Finding)
    ensures RowOf(ServiceRows(c, f), ServiceDelta(c, f)) && RowOf(ExposureRows(c, f), ExposureDelta(c, f))
    ensures RowOf(EnvironmentRows(c), EnvironmentDelta(c))
  {
    if f.service.Some? {
      var s := f.service.value;
      assert Declares(c, s) <==> exists i :: 0 <= i < |c.services| && SameService(c.services[i], s);
    }
  }

  lemma AdjustedRank(custom: bool, s: Fold, a: Adjustment)
    ensures var s' := Adjusted(custom, s, a); var r := Moved(custom, s.severity.Rank(), a.delta);
      s'.severity.Rank() == r && (s'.raisedBy.Some? <==> s.raisedBy.Some? || (s.severity.Rank() <= 3 && r == 4))
  {
    SameRank(s.severity, s.severity.Shift(a.delta));
  }

  lemma RowFolded(custom: bool, base: Severity, before: seq<Adjustment>, rows: seq<Adjustment>, d: int)
    requires RowOf(rows, d)
    ensures var s, s' := Folded(custom, base, before), Folded(custom, base, before + rows);
      s'.severity.Rank() == Moved(custom, s.severity.Rank(), d) &&
      (s'.raisedBy.Some? <==> s.raisedBy.Some? || (s.severity.Rank() <= 3 && s'.severity.Rank() == 4))
  {
    hide Adjusted;
    if rows == [] {
      assert before + rows == before;
    } else {
      var all := before + rows;
      assert rows == [rows[0]] && all[..|all| - 1] == before && all[|all| - 1] == rows[0];
      AdjustedRank(custom, Folded(custom, base, before), rows[0]);
    }
  }

  /** The rank after the table, before the caps. */
  function Walked(c: Context, f: Finding): (nat, nat, nat) {
    var a := Moved(f.custom, f.base.Rank(), ServiceDelta(c, f));
    var b := Moved(f.custom, a, ExposureDelta(c, f));
    (a, b, Moved(f.custom, b, EnvironmentDelta(c)))
  }

  /**
   * The final grade, exactly: the three rows in order; critical only for what was critical all along; a custom finding
   * at most medium.
   */
  lemma GradeIs(c: Context, g: Grader, f: Finding)
    requires g.context == Some(c)
    ensures var (a, b, r) := Walked(c, f);
      var capped := if r == 4 && (f.base.Rank() < 4 || a < 4 || b < 4) then 3 else r;
      FinalSeverity(g, f).Rank() == if f.custom && capped > 2 then 2 else capped
  {
    var x, y, z := ServiceRows(c, f), ExposureRows(c, f), EnvironmentRows(c);
    RowsAre(c, f);
    hide Folded, ServiceRows, ExposureRows, EnvironmentRows, ServiceDelta, ExposureDelta, EnvironmentDelta, RowOf;
    RowFolded(f.custom, f.base, [], x, ServiceDelta(c, f));
    RowFolded(f.custom, f.base, x, y, ExposureDelta(c, f));
    RowFolded(f.custom, f.base, x + y, z, EnvironmentDelta(c));
    assert [] + x == x;
    assert Folded(f.custom, f.base, []) == Fold(f.base, [], None, [BaseStep(f.base)]) by { NoRows(f.custom, f.base); }
  }

  lemma NoRows(custom: bool, base: Severity)
    ensures Folded(custom, base, []) == Fold(base, [], None, [BaseStep(base)])
  {
  }

  /** Without a context the grade is the base, a custom finding's at most medium. */
  lemma GradeWithout(g: Grader, f: Finding)
    requires g.context.None?
    ensures FinalSeverity(g, f).Rank() == if f.custom && f.base.Rank() > 2 then 2 else f.base.Rank()
  {
  }

  // ----- one row at a time -----

  predicate NoService(c: Context, f: Finding) { f.service.None? || c.services == [] }

  /** The internet makes a remote-access or network finding one graver, up to high, and no other. */
  lemma InternetRaises(c: Context, g: Grader, f: Finding)
    requires g.context == Some(c) && c.exposure == "internet" && c.environment != "dev" && NoService(c, f) && !f.custom
    ensures FinalSeverity(g, f).Rank() ==
      if f.category in {"remote-access", "network"} && f.base.Rank() < 3 then f.base.Rank() + 1 else f.base.Rank()
  {
    GradeIs(c, g, f);
    hide FinalSeverity;
  }

  /** An air gap takes two off a remote-access finding, and nothing off any other. */
  lemma AirGapLowers(c: Context, g: Grader, f: Finding)
    requires g.context == Some(c) && c.exposure == "airgapped" && c.environment != "dev" && NoService(c, f) && !f.custom
    ensures FinalSeverity(g, f).Rank() ==
      if f.category != "remote-access" then f.base.Rank() else if f.base.Rank() <= 2 then 0 else f.base.Rank() - 2
  {
    GradeIs(c, g, f);
    hide FinalSeverity;
  }

  /** A dev host takes one off every finding. */
  lemma DevLowers(c: Context, g: Grader, f: Finding)
    requires g.context == Some(c) && c.exposure !in {"internet", "airgapped"} && c.environment == "dev" && NoService(c, f) && !f.custom
    ensures FinalSeverity(g, f).Rank() == if f.base.Rank() == 0 then 0 else f.base.Rank() - 1
  {
    GradeIs(c, g, f);
    hide FinalSeverity;
  }

  // ----- accepted risks -----

  /** The first risk of that id. */
  predicate FirstRisk(risks: seq<Risk>, id: string, i: nat) { i < |risks| && risks[i].id == id && forall k :: 0 <= k < i ==> risks[k].id != id }

  predicate Standing(risks: seq<Risk>, id: string, now: int, i: nat) {
    FirstRisk(risks, id, i) && (risks[i].expires.None? || now <= risks[i].expires.value)
  }

  lemma {:induction false} AcceptanceFirst(risks: seq<Risk>, id: string, i: nat)
    requires FirstRisk(risks, id, i)
    ensures Acceptance(risks, id) == Some(risks[i])
  {
    if risks[0].id != id {
      assert FirstRisk(risks[1..], id, i - 1);
      AcceptanceFirst(risks[1..], id, i - 1);
    }
  }

  lemma {:induction false} SomeFirst(risks: seq<Risk>, id: string) returns (i: nat)
    requires exists k :: 0 <= k < |risks| && risks[k].id == id
    ensures FirstRisk(risks, id, i)
  {
    if risks[0].id == id { return 0; }
    i := SomeFirst(risks[1..], id);
    i := i + 1;
  }

  /** Accepted exactly when the first risk of the id has no end, or one not yet passed; then for that risk's reason. */
  lemma AcceptedExactly(g: Grader, f: Finding)
    ensures Graded(g, f).status == Accepted <==> g.context.Some? && exists i: nat :: Standing(g.context.value.risks, f.id, g.now, i)
    ensures Graded(g, f).status == Accepted ==>
      exists i: nat :: Standing(g.context.value.risks, f.id, g.now, i) && Graded(g, f).acceptedReason == g.context.value.risks[i].reason
    ensures Graded(g, f).status == Open ==> Graded(g, f).acceptedReason == ""
  {
    hide Table, FinalSeverity, CapsHigh;
    if g.context.Some? {
      var risks := g.context.value.risks;
      if exists k :: 0 <= k < |risks| && risks[k].id == f.id {
        var i := SomeFirst(risks, f.id);
        AcceptanceFirst(risks, f.id, i);
        assert forall k: nat :: FirstRisk(risks, f.id, k) ==> k == i;
        assert Standing(risks, f.id, g.now, i) <==> !Expired(risks[i], g.now);
      }
    }
  }
}
