/** The severity scale and the recorded chain of steps over it (chain.go). */
module SeverityChain {

  datatype Severity = Info | Low | Medium | High | Critical {
    function Rank(): (r: nat)
      ensures r <= 4
    {
      match this case Info => 0 case Low => 1 case Medium => 2 case High => 3 case Critical => 4
    }

    /** Moved by delta steps, clamped to the scale. */
    function Shift(delta: int): (s: Severity)
      ensures var r := Rank() + delta; s.Rank() == if r < 0 then 0 else if r > 4 then 4 else r
    {
      var r := Rank() + delta;
      if r <= 0 then Info else if r == 1 then Low else if r == 2 then Medium else if r == 3 then High else Critical
    }
  }

  function Graver(a: Severity, b: Severity): Severity { if a.Rank() >= b.Rank() then a else b }

  datatype Ceiling = NoCeiling | AtMost(severity: Severity)

  datatype Stopped = NotStopped | ScaleEnd | AtCeiling | PastHigh

  datatype Move = Move(rule: string, delta: int, from: Severity, to: Severity, stopped: Stopped)

  /** What a caller asks of one step. */
  datatype Ask = Ask(rule: string, delta: int, pastHigh: bool, ceiling: Ceiling)

  /** Where a step ends, and what stopped it. */
  function Landing(s: Severity, a: Ask): (r: (Severity, Stopped)) {
    var next := s.Shift(a.delta);
    if next == s then (next, ScaleEnd)
    else if a.delta > 0 && a.ceiling.AtMost? && next.Rank() > a.ceiling.severity.Rank() then (Graver(s, a.ceiling.severity), AtCeiling)
    else if a.delta > 0 && !a.pastHigh && next.Rank() > High.Rank() then (Graver(s, High), PastHigh)
    else (next, NotStopped)
  }

  function MoveOf(s: Severity, a: Ask): Move { Move(a.rule, a.delta, s, Landing(s, a).0, Landing(s, a).1) }

  /** The moves a run of asks records from s. */
  function Moves(s: Severity, asks: seq<Ask>): (ms: seq<Move>)
    ensures |ms| == |asks|
  {
    if asks == [] then [] else Moves(s, asks[..|asks| - 1]) + [MoveOf(End(s, Moves(s, asks[..|asks| - 1])), asks[|asks| - 1])]
  }

  /** Where a list of moves that starts at s ends. */
  function End(s: Severity, ms: seq<Move>): Severity { if ms == [] then s else ms[|ms| - 1].to }

  /** Every move starts where the one before it ended, the first at the base. */
  ghost predicate Linked(base: Severity, ms: seq<Move>) {
    forall i :: 0 <= i < |ms| ==> ms[i].from == End(base, ms[..i])
  }

  /** asks is the run so far: every chain is the moves of some run of steps from its base. */
  class Chain {
    const base: Severity
    var severity: Severity
    var moves: seq<Move>
    ghost var asks: seq<Ask>

    ghost predicate Valid() reads this { moves == Moves(base, asks) && severity == End(base, moves) }

    constructor (base: Severity)
      ensures Valid() && this.base == base && severity == base && moves == [] && asks == []
    {
      this.base, severity, moves, asks := base, base, [], [];
    }

    method Step(a: Ask) returns (moved: bool)
      requires Valid()
      modifies this
      ensures Valid() && asks == old(asks) + [a]
      ensures moves == old(moves) + [MoveOf(old(severity), a)]
      ensures moved <==> severity != old(severity)
    {
      hide Moves;
      MovesGrow(base, asks, a);
      var next, stopped := severity.Shift(a.delta), NotStopped;
      if next == severity {
        stopped := ScaleEnd;
      } else if a.delta > 0 && a.ceiling.AtMost? && next.Rank() > a.ceiling.severity.Rank() {
        next, stopped := Graver(severity, a.ceiling.severity), AtCeiling;
      } else if a.delta > 0 && !a.pastHigh && next.Rank() > High.Rank() {
        next, stopped := Graver(severity, High), PastHigh;
      }
      moves := moves + [Move(a.rule, a.delta, severity, next, stopped)];
      moved := next != severity;
      severity := next;
      asks := asks + [a];
    }
  }

  lemma MovesGrow(s: Severity, asks: seq<Ask>, a: Ask)
    ensures Moves(s, asks + [a]) == Moves(s, asks) + [MoveOf(End(s, Moves(s, asks)), a)]
  {
    hide MoveOf;
    assert (asks + [a])[..|asks|] == asks;
  }

  lemma LinkedGrown(base: Severity, ms: seq<Move>, m: Move)
    requires Linked(base, ms) && m.from == End(base, ms)
    ensures Linked(base, ms + [m])
  {
    assert forall i :: 0 <= i <= |ms| ==> (ms + [m])[..i] == ms[..i];
    assert ms[..|ms|] == ms;
  }

  // ----- what every run keeps -----

  /** A recorded move goes the way it was asked, no further than asked, and names what stopped it when it did not move. */
  predicate Honest(m: Move) {
    (m.delta >= 0 ==> m.from.Rank() <= m.to.Rank() <= m.from.Rank() + m.delta) &&
    (m.delta <= 0 ==> m.from.Rank() + m.delta <= m.to.Rank() <= m.from.Rank()) &&
    (m.from == m.to ==> m.stopped != NotStopped) &&
    (m.stopped == NotStopped ==> m.to.Rank() == m.from.Rank() + m.delta || m.to == Info || m.to == Critical) &&
    (m.stopped == ScaleEnd ==> m.from == m.to && (m.delta == 0 || (m.delta > 0 && m.to == Critical) || (m.delta < 0 && m.to == Info)))
  }

  lemma {:induction false} RunLinked(base: Severity, asks: seq<Ask>)
    ensures Linked(base, Moves(base, asks))
    ensures forall i :: 0 <= i < |asks| ==> Honest(Moves(base, asks)[i])
  {
    if asks != [] {
      var rest := asks[..|asks| - 1];
      RunLinked(base, rest);
      var s := End(base, Moves(base, rest));
      StepHonest(s, asks[|asks| - 1]);
      LinkedGrown(base, Moves(base, rest), MoveOf(s, asks[|asks| - 1]));
    }
  }

  lemma StepHonest(s: Severity, a: Ask)
    ensures Honest(MoveOf(s, a))
  {
  }

  /** With ceilings at most b on every step, no severity of the run is above both the base and b. */
  lemma {:induction false} CeilingHolds(base: Severity, asks: seq<Ask>, b: Severity)
    requires forall i :: 0 <= i < |asks| ==> asks[i].ceiling.AtMost? && asks[i].ceiling.severity.Rank() <= b.Rank()
    ensures forall i :: 0 <= i < |asks| ==> Moves(base, asks)[i].to.Rank() <= Graver(base, b).Rank()
  {
    if asks != [] {
      CeilingHolds(base, asks[..|asks| - 1], b);
      var s := End(base, Moves(base, asks[..|asks| - 1]));
      assert s.Rank() <= Graver(base, b).Rank();
    }
  }

  /** Only a past-high step passes both the base and high: without one, no severity of the run is above them. */
  lemma {:induction false} PastHighOnlyByRight(base: Severity, asks: seq<Ask>)
    requires forall i :: 0 <= i < |asks| ==> !asks[i].pastHigh
    ensures forall i :: 0 <= i < |asks| ==> Moves(base, asks)[i].to.Rank() <= Graver(base, High).Rank()
  {
    if asks != [] {
      PastHighOnlyByRight(base, asks[..|asks| - 1]);
      var s := End(base, Moves(base, asks[..|asks| - 1]));
      assert s.Rank() <= Graver(base, High).Rank();
    }
  }

  /** In any run, the first step to pass both the base and high was one with the right to. */
  lemma {:induction false} FirstPastHigh(base: Severity, asks: seq<Ask>, i: nat)
    requires i < |asks| && Moves(base, asks)[i].to.Rank() > Graver(base, High).Rank()
    ensures exists k :: 0 <= k <= i && asks[k].pastHigh && Moves(base, asks)[k].to.Rank() > Graver(base, High).Rank()
  {
    MovesPrefix(base, asks, i);
    var before := Moves(base, asks[..i]);
    var s := End(base, before);
    assert Moves(base, asks)[i] == MoveOf(s, asks[i]);
    if s.Rank() > Graver(base, High).Rank() {
      assert i > 0;
      MovesPrefix(base, asks, i - 1);
      FirstPastHigh(base, asks, i - 1);
    } else {
      assert asks[i].pastHigh;
    }
  }

  lemma {:induction false} MovesPrefix(base: Severity, asks: seq<Ask>, i: nat)
    requires i < |asks|
    ensures Moves(base, asks)[i] == MoveOf(End(base, Moves(base, asks[..i])), asks[i])
    ensures Moves(base, asks[..i]) == Moves(base, asks)[..i]
  {
    hide MoveOf;
    var last := asks[..|asks| - 1];
    if i < |last| {
      MovesPrefix(base, last, i);
      assert last[..i] == asks[..i];
    }
  }

  function Least(a: int, b: int): int { if a < b then a else b }
  function Most(a: int, b: int): int { if a < b then b else a }

  /** Where a step lands, as arithmetic: down as far as asked; up to its ceiling, and to high without the right to pass it; never back. */
  lemma LandingIs(s: Severity, a: Ask)
    ensures var next := Most(0, Least(4, s.Rank() + a.delta));
      var bound := Least(if a.ceiling.AtMost? then a.ceiling.severity.Rank() else 4, if a.pastHigh then 4 else 3);
      MoveOf(s, a).to.Rank() == (if a.delta <= 0 then next else Most(s.Rank(), Least(next, bound))) &&
      (MoveOf(s, a).stopped == NotStopped <==> next != s.Rank() && (a.delta <= 0 || next <= bound)) &&
      (MoveOf(s, a).stopped == ScaleEnd <==> next == s.Rank()) &&
      (MoveOf(s, a).stopped == AtCeiling <==> a.delta > 0 && next != s.Rank() && a.ceiling.AtMost? && next > a.ceiling.severity.Rank())
  {
    SameRank(s, s.Shift(a.delta));
  }

  lemma SameRank(a: Severity, b: Severity)
    ensures a.Rank() == b.Rank() <==> a == b
  {
  }
}
