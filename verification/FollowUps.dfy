/** The permission follow-up: rounds of re-judging under a cap, and what it leaves in the ledger (followup.go). */
module FollowUps {
  import opened Options
  import opened Sorting
  import opened Ledger

  /** A login with a repository it may still have access to; root is the index of its GitHub root. */
  datatype Pair = Pair(root: nat, fired: bool, left: string, handle: string, login: string, repo: string) {
    function Key(): string { repo + "|" + login }
  }

  datatype Asked = Asked(refused: bool, kind: string, limit: bool, repeats: bool, detail: string, sent: bool, reused: bool)

  datatype Done = NotAskedLimit(detail: string) | NotAskedCap | DoneAsked(asked: Asked)

  datatype Entry = Entry(pair: Pair, done: Done)

  /** The outside, by the number of pairs attempted before: the deadline, the gate, and what a request comes to. */
  datatype World = World(limit: int, expired: nat -> bool, gateError: nat -> Option<string>, collect: nat -> Asked)

  const TIMED_OUT := "the run's timeout passed"

  function Or(a: string, b: string): string { if a != "" then a else b }

  // ----- one pair -----

  function DoneOf(w: World, stop: string, sent: nat, n: nat): Done {
    if stop == "" && w.expired(n) then NotAskedLimit(TIMED_OUT)
    else if stop != "" then NotAskedLimit(stop)
    else if sent >= w.limit then NotAskedCap
    else if w.gateError(n).Some? then NotAskedLimit(w.gateError(n).value)
    else DoneAsked(w.collect(n))
  }

  function StopAfter(stop: string, d: Done): string {
    if stop != "" then stop
    else match d
      case NotAskedLimit(detail) => detail
      case NotAskedCap => ""
      case DoneAsked(a) =>
        if a.refused then Or(a.detail, "GitHub did not accept the credential")
        else if a.repeats || a.limit then Or(a.detail, "a limit was reached")
        else ""
  }

  predicate Counts(d: Done) { d.DoneAsked? && (d.asked.sent || d.asked.reused) }
  predicate Refuses(d: Done) { d.DoneAsked? && d.asked.refused }
  predicate Stops(d: Done) { d.NotAskedLimit? || (d.DoneAsked? && !d.asked.refused && (d.asked.repeats || d.asked.limit)) }

  // ----- all pairs attempted -----

  function StopOf(es: seq<Entry>): string { if es == [] then "" else StopAfter(StopOf(es[..|es| - 1]), es[|es| - 1].done) }
  function SentOf(es: seq<Entry>): nat { if es == [] then 0 else SentOf(es[..|es| - 1]) + (if Counts(es[|es| - 1].done) then 1 else 0) }
  function Keys(es: seq<Entry>): set<string> { set i | 0 <= i < |es| :: es[i].pair.Key() }
  function Refused(es: seq<Entry>): set<nat> { set i | 0 <= i < |es| && Refuses(es[i].done) :: es[i].pair.root }
  function Stopped(es: seq<Entry>): set<nat> { set i | 0 <= i < |es| && Stops(es[i].done) :: es[i].pair.root }

  /** Every entry is what the code makes of its pair at that moment. */
  ghost predicate Trace(w: World, es: seq<Entry>) {
    forall i :: 0 <= i < |es| ==> es[i].done == DoneOf(w, StopOf(es[..i]), SentOf(es[..i]), i)
  }

  lemma TraceGrows(w: World, es: seq<Entry>, e: Entry)
    requires Trace(w, es) && e.done == DoneOf(w, StopOf(es), SentOf(es), |es|)
    ensures Trace(w, es + [e])
    ensures StopOf(es + [e]) == StopAfter(StopOf(es), e.done) && SentOf(es + [e]) == SentOf(es) + (if Counts(e.done) then 1 else 0)
    ensures Keys(es + [e]) == Keys(es) + {e.pair.Key()}
    ensures Refused(es + [e]) == Refused(es) + (if Refuses(e.done) then {e.pair.root} else {})
    ensures Stopped(es + [e]) == Stopped(es) + (if Stops(e.done) then {e.pair.root} else {})
  {
    SetsGrow(es, e);
    hide DoneOf, Refuses, Stops, Counts, StopAfter, Keys, Refused, Stopped;
    var all := es + [e];
    assert all[..|es|] == es && all[|es|] == e;
    forall i | 0 <= i < |all| ensures all[i].done == DoneOf(w, StopOf(all[..i]), SentOf(all[..i]), i) {
      assert i < |es| ==> all[..i] == es[..i];
    }
  }

  lemma SetsGrow(es: seq<Entry>, e: Entry)
    ensures Keys(es + [e]) == Keys(es) + {e.pair.Key()}
    ensures Refused(es + [e]) == Refused(es) + (if Refuses(e.done) then {e.pair.root} else {})
    ensures Stopped(es + [e]) == Stopped(es) + (if Stops(e.done) then {e.pair.root} else {})
  {
    hide Refuses, Stops;
    var all := es + [e];
    assert all[|es|] == e && forall i :: 0 <= i < |es| ==> all[i] == es[i];
  }

  /** At most the cap of requests is sent or answered from the gate's ledger. */
  lemma {:induction false} CapHolds(w: World, es: seq<Entry>)
    requires Trace(w, es)
    ensures SentOf(es) == 0 || SentOf(es) <= w.limit
  {
    if es != [] {
      var rest := es[..|es| - 1];
      assert forall i :: 0 <= i < |rest| ==> rest[..i] == es[..i];
      CapHolds(w, rest);
    }
  }

  lemma {:induction false} StopStays(es: seq<Entry>, i: nat, j: nat)
    requires i <= j <= |es| && StopOf(es[..i]) != ""
    ensures StopOf(es[..j]) == StopOf(es[..i])
  {
    if i < j {
      StopStays(es, i, j - 1);
      assert es[..j][..j - 1] == es[..j - 1];
    }
  }

  lemma StopNext(es: seq<Entry>, i: nat)
    requires i < |es|
    ensures StopOf(es[..i + 1]) == StopAfter(StopOf(es[..i]), es[i].done)
  {
    hide StopAfter;
    assert es[..i + 1][..i] == es[..i];
  }

  lemma StopMade(stop: string, d: Done)
    requires Refuses(d) || (Stops(d) && d != NotAskedLimit(""))
    ensures StopAfter(stop, d) != ""
  {
  }

  /** Once something stopped the follow-up nothing more is sent, and every later pair says what stopped it. */
  lemma NothingAfterStop(w: World, es: seq<Entry>, i: nat, j: nat)
    requires Trace(w, es) && i < j < |es| && (Refuses(es[i].done) || (Stops(es[i].done) && es[i].done != NotAskedLimit("")))
    ensures es[j].done == NotAskedLimit(StopOf(es[..i + 1])) && StopOf(es[..i + 1]) == StopOf(es) != ""
  {
    StopMade(StopOf(es[..i]), es[i].done);
    StopNext(es, i);
    hide StopAfter, Refuses, Stops, SentOf, StopOf;
    StopStays(es, i + 1, j);
    StopStays(es, i + 1, |es|);
    assert es[..|es|] == es;
  }

  /** So at most one root is refused, and nobody after it is asked. */
  lemma OneRefusal(w: World, es: seq<Entry>, i: nat, j: nat)
    requires Trace(w, es) && i < |es| && j < |es| && Refuses(es[i].done) && Refuses(es[j].done)
    ensures i == j
  {
    if i < j { NothingAfterStop(w, es, i, j); } else if j < i { NothingAfterStop(w, es, j, i); }
  }

  // ----- the order of a round -----

  function CompareBool(a: bool, b: bool): int { if a == b then 0 else if a then -1 else 1 }

  /** Fired logins first, then the most recent leaving date, handle, login and repository. */
  function Urgency(a: Pair, b: Pair): int {
    if a.fired != b.fired then CompareBool(a.fired, b.fired)
    else if a.left != b.left then Compare(b.left, a.left)
    else if a.handle != b.handle then Compare(a.handle, b.handle)
    else if a.login != b.login then Compare(a.login, b.login)
    else Compare(a.repo, b.repo)
  }

  lemma UrgencyTotal(a: Pair, b: Pair)
    ensures Urgency(a, b) <= 0 || Urgency(b, a) <= 0
  {
    hide Compare;
    CompareFlips(a.left, b.left);
    CompareFlips(a.handle, b.handle);
    CompareFlips(a.login, b.login);
    CompareFlips(a.repo, b.repo);
  }

  /** One text field of a lexicographic order: later fields are looked at only when it is equal all along. */
  lemma FieldTransitive(a: string, b: string, c: string)
    requires Compare(a, b) <= 0 && Compare(b, c) <= 0
    ensures Compare(a, c) <= 0 && (a == c ==> a == b == c)
    ensures a != c ==> Compare(a, c) < 0
  {
    CompareTransitive(a, b, c);
    CompareZero(a, b);
    CompareZero(b, c);
    CompareZero(a, c);
  }

  lemma UrgencyTransitive(a: Pair, b: Pair, c: Pair)
    requires Urgency(a, b) <= 0 && Urgency(b, c) <= 0
    ensures Urgency(a, c) <= 0
  {
    hide Compare;
    if a.fired == b.fired == c.fired {
      Reflexive(a.left); Reflexive(b.left); Reflexive(a.handle); Reflexive(b.handle); Reflexive(a.login); Reflexive(b.login);
      FieldTransitive(c.left, b.left, a.left);
      if a.left == b.left == c.left {
        FieldTransitive(a.handle, b.handle, c.handle);
        if a.handle == b.handle == c.handle {
          FieldTransitive(a.login, b.login, c.login);
          if a.login == b.login == c.login { FieldTransitive(a.repo, b.repo, c.repo); }
        }
      }
    }
  }

  lemma Reflexive(a: string)
    ensures Compare(a, a) == 0
  {
    CompareZero(a, a);
  }

  lemma UrgencyOrdered()
    ensures Ordered(Urgency)
  {
    forall a, b ensures Urgency(a, b) <= 0 || Urgency(b, a) <= 0 { UrgencyTotal(a, b); }
    forall a, b, c | Urgency(a, b) <= 0 && Urgency(b, c) <= 0 ensures Urgency(a, c) <= 0 { UrgencyTransitive(a, b, c); }
  }

  lemma FiredFirst(round: seq<Pair>, i: nat, j: nat)
    requires Sorted(round, Urgency) && i < j < |round| && round[j].fired
    ensures round[i].fired
  {
    SortedAt(round, Urgency, i, j);
  }

  /** A pair's key tells its repository and its login. */
  lemma KeyTells(a: Pair, b: Pair)
    requires '|' !in a.repo && '|' !in b.repo && a.Key() == b.Key()
    ensures a.repo == b.repo && a.login == b.login
  {
    Text.CutOf(a.repo, '|', a.login);
    Text.CutOf(b.repo, '|', b.login);
    assert a.Key() == a.repo + ['|'] + a.login && b.Key() == b.repo + ['|'] + b.login;
  }

  ghost predicate Before(a: string, b: string) { exists k: nat :: Precedes(a, b, k) }

  /** a may be asked before b: fired logins first, then who left last, then by handle, login and repository. */
  ghost predicate MayPrecede(a: Pair, b: Pair) {
    if a.fired != b.fired then a.fired
    else if a.left != b.left then Before(b.left, a.left)
    else if a.handle != b.handle then Before(a.handle, b.handle)
    else if a.login != b.login then Before(a.login, b.login)
    else a.repo == b.repo || Before(a.repo, b.repo)
  }

  /** In a round every pair may be asked before those after it. */
  lemma RoundOrder(round: seq<Pair>, i: nat, j: nat)
    requires Sorted(round, Urgency) && i < j < |round|
    ensures MayPrecede(round[i], round[j])
  {
    SortedAt(round, Urgency, i, j);
    hide Sorted, Compare, Precedes;
    var a, b := round[i], round[j];
    DictionaryOrder(b.left, a.left);
    DictionaryOrder(a.handle, b.handle);
    DictionaryOrder(a.login, b.login);
    DictionaryOrder(a.repo, b.repo);
  }

  lemma DictionaryOrder(a: string, b: string)
    ensures Compare(a, b) <= 0 <==> a == b || Before(a, b)
  {
    CompareMeans(a, b);
    CompareZero(a, b);
    hide Compare, Precedes;
  }

  // ----- the rounds -----

  /** Distinct keys within a list, whatever its order. */
  ghost predicate DistinctKeys(ps: seq<Pair>) {
    (forall p :: multiset(ps)[p] <= 1) && (forall p, q :: p in ps && q in ps && p.Key() == q.Key() ==> p == q)
  }

  function Fresh(open: seq<Pair>, attempted: set<string>): (r: seq<Pair>)
    ensures forall p :: p in r <==> p in open && p.Key() !in attempted
    ensures forall p :: multiset(r)[p] <= multiset(open)[p]
  {
    if open == [] then []
    else
      var rest, p := Fresh(open[..|open| - 1], attempted), open[|open| - 1];
      assert open == open[..|open| - 1] + [p];
      if p.Key() in attempted then rest else rest + [p]
  }

  /** The open pairs not attempted yet, the most urgent first. */
  method OpenRound(open: seq<Pair>, attempted: set<string>) returns (round: seq<Pair>)
    ensures Sorted(round, Urgency) && multiset(round) == multiset(Fresh(open, attempted))
  {
    hide Urgency, Ordered;
    round := [];
    for i := 0 to |open|
      invariant round == Fresh(open[..i], attempted)
    {
      assert open[..i + 1][..i] == open[..i];
      if open[i].Key() !in attempted { round := round + [open[i]]; }
    }
    assert open[..|open|] == open;
    UrgencyOrdered();
    SortSorted(round, Urgency);
    round := Sort(round, Urgency);
  }

  /** What one round needs to know of its pairs. */
  lemma RoundFresh(open: seq<Pair>, attempted: set<string>, round: seq<Pair>)
    requires multiset(round) == multiset(Fresh(open, attempted))
    ensures forall p :: p in round <==> p in open && p.Key() !in attempted
    ensures DistinctKeys(open) ==> DistinctKeys(round)
  {
    var kept := Fresh(open, attempted);
    assert forall p :: p in round <==> p in multiset(round);
    assert forall p :: p in kept <==> p in multiset(kept);
  }

  lemma DistinctAt(ps: seq<Pair>, i: nat, j: nat)
    requires DistinctKeys(ps) && i < j < |ps|
    ensures ps[i].Key() != ps[j].Key()
  {
    if ps[i] == ps[j] { Twice(ps, i, j); }
  }

  /** The run's memory of the follow-up so far. */
  datatype Memory = Memory(sent: nat, stop: string, attempted: set<string>, stopped: set<nat>, refused: map<nat, Asked>)

  ghost predicate Remembers(m: Memory, es: seq<Entry>) {
    m.sent == SentOf(es) && m.stop == StopOf(es) && m.attempted == Keys(es) && m.stopped == Stopped(es) && m.refused.Keys == Refused(es)
  }

  /** One pair: asked, or recorded as not asked and why. */
  method Attempt(w: World, p: Pair, m: Memory, n: nat) returns (d: Done, m': Memory)
    ensures d == DoneOf(w, m.stop, m.sent, n)
    ensures m'.sent == m.sent + (if Counts(d) then 1 else 0) && m'.stop == StopAfter(m.stop, d)
    ensures m'.attempted == m.attempted + {p.Key()}
    ensures m'.stopped == m.stopped + (if Stops(d) then {p.root} else {})
    ensures m'.refused.Keys == m.refused.Keys + (if Refuses(d) then {p.root} else {})
  {
    m' := m.(attempted := m.attempted + {p.Key()});
    if m.stop == "" && w.expired(n) { m' := m'.(stop := TIMED_OUT); }
    if m'.stop != "" {
      d := NotAskedLimit(m'.stop);
      m' := m'.(stopped := m.stopped + {p.root});
    } else if m.sent >= w.limit {
      d := NotAskedCap;
    } else if w.gateError(n).Some? {
      d := NotAskedLimit(w.gateError(n).value);
      m' := m'.(stop := w.gateError(n).value, stopped := m.stopped + {p.root});
    } else {
      var a := w.collect(n);
      d := DoneAsked(a);
      if a.sent || a.reused { m' := m'.(sent := m.sent + 1); }
      if a.refused {
        m' := m'.(refused := m.refused[p.root := a], stop := Or(a.detail, "GitHub did not accept the credential"));
      } else if a.repeats || a.limit {
        m' := m'.(stopped := m.stopped + {p.root}, stop := Or(a.detail, "a limit was reached"));
      }
    }
  }

  /** The entries from n on are the round's pairs, in its order. */
  ghost predicate Appended(es: seq<Entry>, n: nat, round: seq<Pair>) {
    |es| == n + |round| && forall i :: n <= i < |es| ==> es[i].pair == round[i - n]
  }

  method RunRound(w: World, round: seq<Pair>, es0: seq<Entry>, m0: Memory) returns (es: seq<Entry>, m: Memory)
    requires Trace(w, es0) && Remembers(m0, es0)
    ensures Trace(w, es) && Remembers(m, es) && es0 <= es && Appended(es, |es0|, round)
  {
    hide Trace, DoneOf, StopAfter, Counts, Stops, Refuses, StopOf, SentOf, Keys, Refused, Stopped;
    es, m := es0, m0;
    for i := 0 to |round|
      invariant Trace(w, es) && Remembers(m, es) && es0 <= es && |es| == |es0| + i
      invariant forall k :: |es0| <= k < |es| ==> es[k].pair == round[k - |es0|]
    {
      var d, m' := Attempt(w, round[i], m, |es|);
      TraceGrows(w, es, Entry(round[i], d));
      es, m := es + [Entry(round[i], d)], m';
    }
  }

  // ----- the whole follow-up -----

  /** The pair was open when its round was judged. */
  ghost predicate Opened(judge: seq<Entry> -> seq<Pair>, es: seq<Entry>, i: nat)
    requires i < |es|
  {
    exists k :: 0 <= k <= i && es[i].pair in judge(es[..k])
  }

  ghost predicate OnceEach(es: seq<Entry>) { forall i, j :: 0 <= i < j < |es| ==> es[i].pair.Key() != es[j].pair.Key() }

  /** What the finished and unfinished rounds have in common. */
  ghost predicate Progress(judge: seq<Entry> -> seq<Pair>, es: seq<Entry>, universe: set<string>, roots: nat) {
    (forall i :: 0 <= i < |es| ==> EntryFits(judge, es, i, universe, roots)) &&
    (AlwaysDistinct(judge) ==> OnceEach(es))
  }

  ghost predicate Fits(judge: seq<Entry> -> seq<Pair>, universe: set<string>, roots: nat) {
    forall x, p :: p in judge(x) ==> p.root < roots && p.Key() in universe
  }

  lemma OldOpened(judge: seq<Entry> -> seq<Pair>, es0: seq<Entry>, es: seq<Entry>, i: nat)
    requires es0 <= es && i < |es0| && Opened(judge, es0, i)
    ensures Opened(judge, es, i)
  {
    var k :| 0 <= k <= i && es0[i].pair in judge(es0[..k]);
    assert es[..k] == es0[..k] && es[i] == es0[i];
  }

  lemma NewOpened(judge: seq<Entry> -> seq<Pair>, es0: seq<Entry>, es: seq<Entry>, i: nat)
    requires es0 <= es && |es0| <= i < |es| && es[i].pair in judge(es0)
    ensures Opened(judge, es, i)
  {
    assert es[..|es0|] == es0;
  }

  lemma KeysGrow(es0: seq<Entry>, es: seq<Entry>, universe: set<string>)
    requires es0 < es && es[|es0|].pair.Key() !in Keys(es0)
    requires forall i :: 0 <= i < |es| ==> es[i].pair.Key() in universe
    ensures Keys(es0) < Keys(es) <= universe
  {
    assert es[|es0|].pair.Key() in Keys(es);
    forall x | x in Keys(es0) ensures x in Keys(es) {
      var i :| 0 <= i < |es0| && es0[i].pair.Key() == x;
      assert es[i] == es0[i];
    }
  }

  ghost predicate EntryFits(judge: seq<Entry> -> seq<Pair>, es: seq<Entry>, i: nat, universe: set<string>, roots: nat)
    requires i < |es|
  {
    Opened(judge, es, i) && es[i].pair.root < roots && es[i].pair.Key() in universe
  }

  lemma NewFits(judge: seq<Entry> -> seq<Pair>, es0: seq<Entry>, es: seq<Entry>, i: nat, universe: set<string>, roots: nat)
    requires es0 <= es && |es0| <= i < |es| && es[i].pair in judge(es0) && Fits(judge, universe, roots)
    ensures EntryFits(judge, es, i, universe, roots)
  {
    hide Opened;
    NewOpened(judge, es0, es, i);
  }

  lemma OldFits(judge: seq<Entry> -> seq<Pair>, es0: seq<Entry>, es: seq<Entry>, i: nat, universe: set<string>, roots: nat)
    requires es0 <= es && i < |es0| && EntryFits(judge, es0, i, universe, roots)
    ensures EntryFits(judge, es, i, universe, roots)
  {
    hide Opened;
    OldOpened(judge, es0, es, i);
    assert es[i] == es0[i];
  }

  lemma RoundEntries(judge: seq<Entry> -> seq<Pair>, es0: seq<Entry>, round: seq<Pair>, es: seq<Entry>, universe: set<string>, roots: nat)
    requires es0 <= es && Appended(es, |es0|, round) && Fits(judge, universe, roots)
    requires forall i :: 0 <= i < |es0| ==> EntryFits(judge, es0, i, universe, roots)
    requires forall k :: 0 <= k < |round| ==> round[k] in judge(es0)
    ensures forall i :: 0 <= i < |es| ==> EntryFits(judge, es, i, universe, roots)
    ensures forall i :: 0 <= i < |es| ==> es[i].pair.Key() in universe
  {
    hide EntryFits, Fits, Pair.Key;
    var n := |es0|;
    forall i | 0 <= i < |es| ensures EntryFits(judge, es, i, universe, roots) && es[i].pair.Key() in universe {
      if i < n {
        OldFits(judge, es0, es, i, universe, roots);
      } else {
        assert es[i].pair == round[i - n];
        NewFits(judge, es0, es, i, universe, roots);
      }
      KeyFits(judge, es, i, universe, roots);
    }
  }

  lemma RoundProgress(judge: seq<Entry> -> seq<Pair>, es0: seq<Entry>, round: seq<Pair>, es: seq<Entry>, universe: set<string>, roots: nat)
    requires Progress(judge, es0, universe, roots) && es0 <= es && Appended(es, |es0|, round)
    requires multiset(round) == multiset(Fresh(judge(es0), Keys(es0)))
    requires Fits(judge, universe, roots)
    ensures Progress(judge, es, universe, roots)
    ensures round != [] ==> Keys(es) <= universe && universe - Keys(es) < universe - Keys(es0)
  {
    RoundFresh(judge(es0), Keys(es0), round);
    hide Fresh, Keys, DistinctKeys, OnceEach, EntryFits, Fits, Pair.Key, AlwaysDistinct;
    assert forall k :: 0 <= k < |round| ==> round[k] in round;
    RoundEntries(judge, es0, round, es, universe, roots);
    if AlwaysDistinct(judge) {
      AlwaysAt(judge, es0);
      RoundOnce(es0, round, es);
    }
    if round != [] {
      assert es[|es0|].pair == round[0];
      KeysGrow(es0, es, universe);
      assert universe - Keys(es) < universe - Keys(es0);
    }
  }

  ghost predicate AlwaysDistinct(judge: seq<Entry> -> seq<Pair>) { forall x :: DistinctKeys(judge(x)) }

  lemma AlwaysAt(judge: seq<Entry> -> seq<Pair>, es: seq<Entry>)
    requires AlwaysDistinct(judge)
    ensures DistinctKeys(judge(es))
  {
  }

  lemma KeyFits(judge: seq<Entry> -> seq<Pair>, es: seq<Entry>, i: nat, universe: set<string>, roots: nat)
    requires i < |es| && EntryFits(judge, es, i, universe, roots)
    ensures es[i].pair.Key() in universe
  {
  }

  lemma RoundOnce(es0: seq<Entry>, round: seq<Pair>, es: seq<Entry>)
    requires OnceEach(es0) && DistinctKeys(round) && es0 <= es && Appended(es, |es0|, round)
    requires forall p :: p in round ==> p.Key() !in Keys(es0)
    ensures OnceEach(es)
  {
    var n := |es0|;
    forall i, j | 0 <= i < j < |es| ensures es[i].pair.Key() != es[j].pair.Key() {
      if j < n {
        assert es[i] == es0[i] && es[j] == es0[j];
      } else {
        assert es[j].pair == round[j - n] && round[j - n] in round;
        if i < n {
          assert es0[i].pair.Key() in Keys(es0) && es[i] == es0[i];
        } else {
          assert es[i].pair == round[i - n];
          DistinctAt(round, i - n, j - n);
        }
      }
    }
  }

  /**
   * One round, of the entries between two marks: it attempts only pairs open at its start and not attempted before, the
   * most urgent first, and by its end every pair that was open at its start has been attempted.
   */
  ghost predicate RoundAt(judge: seq<Entry> -> seq<Pair>, es: seq<Entry>, from: nat, to: nat) {
    from < to <= |es| &&
    (forall p :: p in judge(es[..from]) ==> p.Key() in Keys(es[..to])) &&
    (forall i :: from <= i < to ==> es[i].pair in judge(es[..from]) && es[i].pair.Key() !in Keys(es[..from])) &&
    (forall i, j :: from <= i < j < to ==> Urgency(es[i].pair, es[j].pair) <= 0)
  }

  /** The entries fall into rounds, one after another, that the marks separate. */
  ghost predicate InRounds(judge: seq<Entry> -> seq<Pair>, es: seq<Entry>, marks: seq<nat>) {
    marks != [] && marks[0] == 0 && marks[|marks| - 1] == |es| &&
    forall r :: 0 < r < |marks| ==> RoundAt(judge, es, marks[r - 1], marks[r])
  }

  lemma RoundStays(judge: seq<Entry> -> seq<Pair>, es: seq<Entry>, es': seq<Entry>, from: nat, to: nat)
    requires RoundAt(judge, es, from, to) && es <= es'
    ensures RoundAt(judge, es', from, to)
  {
    hide Urgency, Keys;
    assert es'[..from] == es[..from] && es'[..to] == es[..to];
    assert forall i :: 0 <= i < |es| ==> es'[i] == es[i];
  }

  lemma RoundCovers(open: seq<Pair>, es0: seq<Entry>, round: seq<Pair>, es: seq<Entry>, p: Pair)
    requires es0 <= es && Appended(es, |es0|, round) && p in open
    requires forall q :: q in round <==> q in open && q.Key() !in Keys(es0)
    ensures p.Key() in Keys(es)
  {
    if p.Key() in Keys(es0) {
      var i :| 0 <= i < |es0| && es0[i].pair.Key() == p.Key();
      assert es[i] == es0[i];
    } else {
      var k :| 0 <= k < |round| && round[k] == p;
      assert es[|es0| + k].pair == round[|es0| + k - |es0|];
    }
  }

  lemma RoundInOrder(es: seq<Entry>, n: nat, round: seq<Pair>)
    requires Appended(es, n, round) && Sorted(round, Urgency)
    ensures forall i, j :: n <= i < j < |es| ==> Urgency(es[i].pair, es[j].pair) <= 0
  {
    hide Urgency, Sorted;
    forall i, j | n <= i < j < |es| ensures Urgency(es[i].pair, es[j].pair) <= 0 { SortedAt(round, Urgency, i - n, j - n); }
  }

  lemma RoundDone(judge: seq<Entry> -> seq<Pair>, es0: seq<Entry>, round: seq<Pair>, es: seq<Entry>)
    requires es0 <= es && Appended(es, |es0|, round) && round != [] && Sorted(round, Urgency)
    requires forall p :: p in round <==> p in judge(es0) && p.Key() !in Keys(es0)
    ensures RoundAt(judge, es, |es0|, |es|)
  {
    RoundInOrder(es, |es0|, round);
    hide Urgency, Sorted, Keys, Pair.Key;
    assert es[..|es0|] == es0 && es[..|es|] == es;
    forall p | p in judge(es0) ensures p.Key() in Keys(es) { RoundCovers(judge(es0), es0, round, es, p); }
    forall i | |es0| <= i < |es| ensures es[i].pair in judge(es0) && es[i].pair.Key() !in Keys(es0) {
      assert es[i].pair == round[i - |es0|] && round[i - |es0|] in round;
    }
  }

  lemma RoundAdded(judge: seq<Entry> -> seq<Pair>, es0: seq<Entry>, es: seq<Entry>, marks: seq<nat>)
    requires InRounds(judge, es0, marks) && es0 <= es && RoundAt(judge, es, |es0|, |es|)
    ensures InRounds(judge, es, marks + [|es|])
  {
    hide RoundAt;
    var all := marks + [|es|];
    forall r | 0 < r < |all| ensures RoundAt(judge, es, all[r - 1], all[r]) {
      if r < |marks| { RoundStays(judge, es0, es, marks[r - 1], marks[r]); }
    }
  }

  /**
   * Rounds until re-judging opens no pair that was not attempted. judge is what re-judging opens after the entries so
   * far, and universe the pairs there are: the loop ends because every round attempts a new one.
   */
  method AskRounds(w: World, judge: seq<Entry> -> seq<Pair>, universe: set<string>, roots: nat)
      returns (es: seq<Entry>, m: Memory, ghost marks: seq<nat>)
    requires Fits(judge, universe, roots)
    ensures Trace(w, es) && Remembers(m, es) && Progress(judge, es, universe, roots)
    ensures InRounds(judge, es, marks)
    ensures forall p :: p in judge(es) ==> p.Key() in Keys(es)
  {
    hide Trace, Progress, Sorted, StopOf, SentOf, Refused, Stopped, InRounds, RoundAt, Appended, Keys, Fits, Fresh, Pair.Key, DistinctKeys;
    es, m, marks := [], Memory(0, "", {}, {}, map[]), [0];
    Nothing(w, judge, universe, roots);
    while true
      invariant Trace(w, es) && Remembers(m, es) && Progress(judge, es, universe, roots) && Keys(es) <= universe
      invariant InRounds(judge, es, marks)
      decreases universe - Keys(es)
    {
      var round := OpenRound(judge(es), m.attempted);
      RoundFresh(judge(es), m.attempted, round);
      if |round| == 0 {
        assert forall p :: p in judge(es) ==> p.Key() in Keys(es);
        break;
      }
      ghost var before := es;
      es, m := RunRound(w, round, es, m);
      RoundProgress(judge, before, round, es, universe, roots);
      RoundDone(judge, before, round, es);
      RoundAdded(judge, before, es, marks);
      marks := marks + [|es|];
    }
  }

  lemma Nothing(w: World, judge: seq<Entry> -> seq<Pair>, universe: set<string>, roots: nat)
    ensures Trace(w, []) && Remembers(Memory(0, "", {}, {}, map[]), []) && Progress(judge, [], universe, roots)
    ensures InRounds(judge, [], [0]) && Keys([]) == {}
  {
  }

  /** followPermissions: the rounds, then the roots a refusal or a limit touched; the maps give them in any order. */
  method FollowPermissions(book: Book, w: World, judge: seq<Entry> -> seq<Pair>, universe: set<string>)
      returns (es: seq<Entry>, ghost marks: seq<nat>)
    requires book.Valid()
    requires Fits(judge, universe, |book.assets|)
    modifies book
    ensures Trace(w, es) && Progress(judge, es, universe, |old(book.assets)|) && InRounds(judge, es, marks)
    ensures forall p :: p in judge(es) ==> p.Key() in Keys(es)
    ensures book.Valid() && |book.assets| == |old(book.assets)|
    ensures forall i :: 0 <= i < |book.assets| ==> Settles(old(book.assets[i]), book.assets[i], i in Refused(es), i in Stopped(es))
  {
    var m;
    es, m, marks := AskRounds(w, judge, universe, |book.assets|);
    RootsInRange(judge, es, universe, |book.assets|);
    hide Trace, InRounds, Progress, Keys, StopOf, SentOf, Refused, Stopped, Sound;
    RefuseRoots(book, m.refused);
    StopRoots(book, m.stopped, m.refused.Keys, m.stop);
  }

  method RefuseRoots(book: Book, refused: map<nat, Asked>)
    requires book.Valid() && forall i :: i in refused ==> i < |book.assets|
    modifies book
    ensures book.Valid() && |book.assets| == |old(book.assets)|
    ensures forall i :: 0 <= i < |book.assets| ==> Settles(old(book.assets[i]), book.assets[i], i in refused, false)
  {
    hide Sound;
    var todo := refused.Keys;
    while todo != {}
      invariant todo <= refused.Keys && book.Valid() && |book.assets| == |old(book.assets)|
      invariant forall i :: 0 <= i < |book.assets| ==> Settles(old(book.assets[i]), book.assets[i], i in refused && i !in todo, false)
      decreases todo
    {
      var i :| i in todo;
      book.FollowUpRefused(i, refused[i].kind, refused[i].detail);
      todo := todo - {i};
    }
  }

  method StopRoots(book: Book, stopped: set<nat>, refused: set<nat>, stop: string)
    requires book.Valid() && forall i :: i in stopped ==> i < |book.assets|
    modifies book
    ensures book.Valid() && |book.assets| == |old(book.assets)|
    ensures forall i :: 0 <= i < |book.assets| ==> Settles(old(book.assets[i]), book.assets[i], false, i in stopped && i !in refused)
  {
    hide Sound;
    var todo := stopped;
    while todo != {}
      invariant todo <= stopped && book.Valid() && |book.assets| == |old(book.assets)|
      invariant forall i :: 0 <= i < |book.assets| ==>
        Settles(old(book.assets[i]), book.assets[i], false, i in stopped && i !in refused && i !in todo)
      decreases todo
    {
      var i :| i in todo;
      if i !in refused { book.FollowUpStopped(i, stop); }
      todo := todo - {i};
    }
  }

  /** A root after the follow-up: refused, short, or as it was; never better. */
  predicate Settles(was: Asset, now: Asset, refused: bool, stopped: bool) {
    now.id == was.id && Level(was.verdict.status) <= Level(now.verdict.status) &&
    (if refused then now.verdict.status == Status.Refused
     else if stopped && was.verdict.status == Collected then now.verdict.status == Incomplete
     else now == was)
  }

  lemma RootsInRange(judge: seq<Entry> -> seq<Pair>, es: seq<Entry>, universe: set<string>, roots: nat)
    requires Progress(judge, es, universe, roots)
    ensures forall i :: i in Refused(es) || i in Stopped(es) ==> i < roots
  {
    forall i | 0 <= i < |es| ensures es[i].pair.root < roots { assert EntryFits(judge, es, i, universe, roots); }
  }
}
