/** The tool-calling loop under its budgets, against any provider and any checks (agent.go, tools.go). */
module AgentLoop {
  import opened Options
  import FS = FindingStore
  import Grading

  datatype Budgets = Budgets(maxIterations: int, agentChecks: int, wallClock: int, modelInput: int)

  /** A check and its params. */
  datatype Request = Request(check: string, params: map<string, string>)

  /** A tool call's input is None when it does not decode, and a check id or path may be empty. */
  datatype Tool =
    | RunCheck(request: Option<Request>)
    | ReadFile(path: Option<string>)
    | ReportFinding(input: Option<(Verdict, FS.Candidate)>)
    | Unknown(name: string)
  datatype Verdict = OpenVerdict | RuledOutVerdict | OtherVerdict

  datatype ToolCall = ToolCall(id: string, tool: Tool)

  /** output is the check output the model is handed, if any. */
  datatype ToolResult = ToolResult(callID: string, output: Option<string>, isError: bool)

  datatype Message = UserText | Assistant(text: string, calls: seq<ToolCall>) | Results(results: seq<ToolResult>)

  datatype StopReason = Ended | MaxTokens | Refusal | ProviderError

  /** What a turn meets: a timeout or an overflow before anything is sent, a failed request, or a reply. */
  datatype Turn = TimedOut | TooLarge | Failed | Reply(stop: StopReason, text: string, calls: seq<ToolCall>)

  datatype CheckStatus = Ok | Denied | Unavailable(elevation: bool)
  datatype CheckResult = CheckResult(observation: string, check: string, status: CheckStatus, raw: string, duration: nat)

  datatype Outcome = Outcome(complete: bool, iterations: nat, checks: nat, reported: nat)

  predicate IsReport(c: ToolCall) { c.tool.ReportFinding? }

  predicate AllReports(calls: seq<ToolCall>) { forall i :: 0 <= i < |calls| ==> IsReport(calls[i]) }

  // ----- what a call does -----

  const CAT := "text.cat"

  /** The check a call asks for: the one it names, or for a file the one that prints it. */
  function Asks(t: Tool): Option<Request> {
    match t
    case RunCheck(Some(q)) => if q.check != "" then Some(q) else None
    case ReadFile(Some(p)) => if p != "" then Some(Request(CAT, map["path" := p])) else None
    case _ => None
  }

  /** A call that was executed: the check it ran, if it ran one, and its answer. */
  datatype Done = Done(call: ToolCall, ran: Option<CheckResult>, result: ToolResult)

  function Ran(log: seq<Done>): nat { if log == [] then 0 else Ran(log[..|log| - 1]) + (if log[|log| - 1].ran.Some? then 1 else 0) }

  function Wall(log: seq<Done>): nat {
    if log == [] then 0 else Wall(log[..|log| - 1]) + (if log[|log| - 1].ran.Some? then log[|log| - 1].ran.value.duration else 0)
  }

  /** The output a call's check printed, counted whether or not it is handed over. */
  function Printed(d: Done): nat { if d.ran.Some? && d.ran.value.status.Ok? then |d.ran.value.raw| else 0 }

  function Bytes(log: seq<Done>): nat { if log == [] then 0 else Bytes(log[..|log| - 1]) + Printed(log[|log| - 1]) }

  predicate Files(d: Done) { d.call.tool.ReportFinding? && d.call.tool.input.Some? && d.call.tool.input.value.0 == OpenVerdict && !d.result.isError }

  function Filed(log: seq<Done>): nat { if log == [] then 0 else Filed(log[..|log| - 1]) + (if Files(log[|log| - 1]) then 1 else 0) }

  /** What a call puts the store through: an open report is reported, a ruled out one ruled out, a check observed. */
  function StoreCall(d: Done): seq<FS.Call> {
    match d.call.tool
    case ReportFinding(Some((OpenVerdict, c))) => [FS.ReportCall(c)]
    case ReportFinding(Some((RuledOutVerdict, c))) => [FS.RuleOutCall(c)]
    case ReportFinding(_) => []
    case _ => match d.ran
      case None => []
      case Some(res) => [FS.Observed(res.observation, FS.Output(res.check, res.status.Ok?, res.raw))]
  }

  function StoreCalls(log: seq<Done>): seq<FS.Call> { if log == [] then [] else StoreCalls(log[..|log| - 1]) + StoreCall(log[|log| - 1]) }

  /** What a run is given: its budgets, the checks, the store it starts from and the bytes of its fact sheet. */
  datatype Setting = Setting(budgets: Budgets, runner: (nat, Request) -> CheckResult, run: FS.Run, seeds: seq<Grading.Finding>, began: seq<FS.Call>, facts: nat)

  /** The store as the calls so far left it. */
  ghost function StoreAfter(w: Setting, log: seq<Done>): FS.State
    requires FS.Seeds(w.seeds)
  {
    FS.Final(w.run, w.seeds, w.began + StoreCalls(log))
  }

  /** The check runs exactly while both its budgets last. */
  ghost predicate RightCheck(w: Setting, before: seq<Done>, d: Done) {
    d.ran ==
      if Asks(d.call.tool).Some? && Ran(before) < w.budgets.agentChecks && Wall(before) < w.budgets.wallClock
      then Some(w.runner(Ran(before), Asks(d.call.tool).value)) else None
  }

  /** Output is handed over exactly when the check succeeded and it fits. */
  ghost predicate RightOutput(w: Setting, before: seq<Done>, d: Done) {
    d.result.output ==
      if d.ran.Some? && d.ran.value.status.Ok? && w.facts + Bytes(before) + |d.ran.value.raw| <= w.budgets.modelInput
      then Some(d.ran.value.raw) else None
  }

  predicate GaveNothing(status: CheckStatus, output: Option<string>) {
    status.Denied? || status == Unavailable(true) || (status.Ok? && output.None?)
  }

  /** An error exactly when the store refused, nothing ran, or what ran gave nothing. */
  ghost predicate RightError(w: Setting, before: seq<Done>, d: Done)
    requires FS.Seeds(w.seeds)
  {
    d.result.isError <==>
      match d.call.tool
      case ReportFinding(Some((OpenVerdict, c))) => FS.Validated(w.run, StoreAfter(w, before), c).None?
      case ReportFinding(Some((RuledOutVerdict, c))) => !FS.RuleOutFits(w.run, StoreAfter(w, before), c)
      case ReportFinding(_) => true
      case _ => d.ran.None? || GaveNothing(d.ran.value.status, d.result.output)
  }

  /** A budget ends the run with this call: there was none left for its check, or its output is over. */
  ghost predicate Latches(w: Setting, before: seq<Done>, d: Done) {
    (Asks(d.call.tool).Some? && d.ran.None?) ||
    (d.ran.Some? && d.ran.value.status.Ok? && w.facts + Bytes(before) + |d.ran.value.raw| > w.budgets.modelInput)
  }

  ghost predicate RightDone(w: Setting, before: seq<Done>, d: Done)
    requires FS.Seeds(w.seeds)
  {
    d.result.callID == d.call.id && RightCheck(w, before, d) && RightOutput(w, before, d) && RightError(w, before, d)
  }

  /** Every executed call did what it must, and none was executed after a budget latched. */
  ghost predicate RightLog(w: Setting, log: seq<Done>)
    requires FS.Seeds(w.seeds)
  {
    forall i :: 0 <= i < |log| ==> RightDone(w, log[..i], log[i]) && (i < |log| - 1 ==> !Latches(w, log[..i], log[i]))
  }

  ghost predicate Latched(w: Setting, log: seq<Done>) { log != [] && Latches(w, log[..|log| - 1], log[|log| - 1]) }

  lemma RightGrows(w: Setting, log: seq<Done>, d: Done)
    requires FS.Seeds(w.seeds) && RightLog(w, log) && !Latched(w, log) && RightDone(w, log, d)
    ensures RightLog(w, log + [d]) && (Latched(w, log + [d]) <==> Latches(w, log, d))
  {
    hide RightDone, Latches;
    var more := log + [d];
    assert more[..|log|] == log;
    forall i | 0 <= i < |more| ensures RightDone(w, more[..i], more[i]) && (i < |more| - 1 ==> !Latches(w, more[..i], more[i])) {
      if i < |log| { assert more[..i] == log[..i] && more[i] == log[i]; }
    }
  }

  lemma Logged(log: seq<Done>, d: Done)
    ensures Ran(log + [d]) == Ran(log) + (if d.ran.Some? then 1 else 0)
    ensures Wall(log + [d]) == Wall(log) + (if d.ran.Some? then d.ran.value.duration else 0)
    ensures Bytes(log + [d]) == Bytes(log) + Printed(d) && Filed(log + [d]) == Filed(log) + (if Files(d) then 1 else 0)
    ensures StoreCalls(log + [d]) == StoreCalls(log) + StoreCall(d)
  {
    assert (log + [d])[..|log|] == log;
  }

  /** So the checks that ran stay in their budget. */
  lemma {:induction false} RanBound(w: Setting, log: seq<Done>)
    requires FS.Seeds(w.seeds) && RightLog(w, log)
    ensures Ran(log) == 0 || Ran(log) <= w.budgets.agentChecks
  {
    hide RightOutput, RightError;
    if log != [] {
      var before, d := log[..|log| - 1], log[|log| - 1];
      RightBefore(w, log);
      RanBound(w, before);
      assert RightDone(w, before, d);
    }
  }

  /** And while none latched, what was printed stays in the input budget. */
  lemma {:induction false} BytesBound(w: Setting, log: seq<Done>)
    requires FS.Seeds(w.seeds) && RightLog(w, log) && !Latched(w, log) && w.facts <= w.budgets.modelInput
    ensures w.facts + Bytes(log) <= w.budgets.modelInput
  {
    hide RightCheck, RightOutput, RightError;
    if log != [] {
      var before, d := log[..|log| - 1], log[|log| - 1];
      RightBefore(w, log);
      assert before != [] ==> before[..|before| - 1] == log[..|before| - 1];
      BytesBound(w, before);
    }
  }

  /** A call hands over no more than its check printed. */
  lemma OutputPrinted(w: Setting, log: seq<Done>, k: nat)
    requires FS.Seeds(w.seeds) && RightLog(w, log) && k < |log|
    ensures log[k].result.callID == log[k].call.id
    ensures (if log[k].result.output.Some? then |log[k].result.output.value| else 0) <= Printed(log[k])
  {
    hide RightCheck, RightError;
    assert RightDone(w, log[..k], log[k]);
  }

  lemma RightBefore(w: Setting, log: seq<Done>)
    requires FS.Seeds(w.seeds) && RightLog(w, log) && log != []
    ensures RightLog(w, log[..|log| - 1])
  {
    hide RightDone, Latches;
    var before := log[..|log| - 1];
    assert forall i :: 0 <= i < |before| ==> before[..i] == log[..i] && before[i] == log[i];
  }

  // ----- conversations -----

  /** One result per call, in order, under the call's id. */
  predicate Answers(results: seq<ToolResult>, calls: seq<ToolCall>) {
    |results| == |calls| && forall i :: 0 <= i < |calls| ==> results[i].callID == calls[i].id
  }

  predicate AnsweredAt(ms: seq<Message>, i: nat)
    requires i < |ms|
  {
    ms[i].Assistant? ==> i + 1 < |ms| && ms[i + 1].Results? && Answers(ms[i + 1].results, ms[i].calls)
  }

  /** Every tool call of the conversation has been answered. */
  predicate Answered(ms: seq<Message>) { forall i :: 0 <= i < |ms| ==> AnsweredAt(ms, i) }

  function OutputBytes(rs: seq<ToolResult>): nat {
    if rs == [] then 0
    else OutputBytes(rs[..|rs| - 1]) + (if rs[|rs| - 1].output.Some? then |rs[|rs| - 1].output.value| else 0)
  }

  function MessageBytes(m: Message): nat { if m.Results? then OutputBytes(m.results) else 0 }

  /** The check output a conversation hands the model. */
  function Handed(ms: seq<Message>): nat {
    if ms == [] then 0 else Handed(ms[..|ms| - 1]) + MessageBytes(ms[|ms| - 1])
  }

  function Zipped(calls: seq<ToolCall>, results: seq<ToolResult>): seq<(ToolCall, ToolResult)>
    requires |calls| == |results|
  {
    seq(|calls|, i requires 0 <= i < |calls| => (calls[i], results[i]))
  }

  /** Every answered call of the conversation with its answer, in order. */
  function Exchanges(ms: seq<Message>): seq<(ToolCall, ToolResult)> {
    if |ms| < 2 then []
    else
      var a, r := ms[|ms| - 2], ms[|ms| - 1];
      if a.Assistant? && r.Results? && |a.calls| == |r.results| then Exchanges(ms[..|ms| - 2]) + Zipped(a.calls, r.results)
      else Exchanges(ms[..|ms| - 1])
  }

  lemma AnsweredGrows(ms: seq<Message>, text: string, calls: seq<ToolCall>, results: seq<ToolResult>)
    requires Answered(ms) && Answers(results, calls)
    ensures Answered(ms + [Assistant(text, calls)] + [Results(results)])
    ensures Handed(ms + [Assistant(text, calls)] + [Results(results)]) == Handed(ms) + OutputBytes(results)
    ensures Exchanges(ms + [Assistant(text, calls)] + [Results(results)]) == Exchanges(ms) + Zipped(calls, results)
  {
    var a := ms + [Assistant(text, calls)];
    var b := a + [Results(results)];
    assert b[..|b| - 1] == a && a[..|a| - 1] == ms && b[..|b| - 2] == ms;
    forall i | 0 <= i < |b| ensures AnsweredAt(b, i) {
      if i < |ms| { assert AnsweredAt(ms, i); }
    }
  }

  lemma Unanswered(ms: seq<Message>, text: string, calls: seq<ToolCall>)
    ensures Exchanges(ms + [Assistant(text, calls)]) == Exchanges(ms)
  {
    assert (ms + [Assistant(text, calls)])[..|ms|] == ms;
  }

  /** The calls of the conversation that were executed are the log; the others got an error. */
  ghost predicate Follows(log: seq<Done>, ex: seq<(ToolCall, ToolResult)>) {
    |log| <= |ex| && (forall i :: 0 <= i < |log| ==> ex[i] == (log[i].call, log[i].result)) &&
    forall i :: |log| <= i < |ex| ==> ex[i].1.isError && ex[i].1.output.None?
  }

  lemma FollowsGrows(log: seq<Done>, ex: seq<(ToolCall, ToolResult)>, dones: seq<Done>, calls: seq<ToolCall>, results: seq<ToolResult>)
    requires Follows(log, ex) && |log| == |ex| && |calls| == |results| && Follows(dones, Zipped(calls, results))
    ensures Follows(log + dones, ex + Zipped(calls, results))
  {
  }

  lemma FirstMessage()
    ensures Answered([UserText]) && Handed([UserText]) == 0 && Exchanges([UserText]) == []
  {
    assert [UserText][..0] == [];
  }

  lemma NoBytes()
    ensures OutputBytes([]) == 0
  {
  }

  lemma BytesGrow(rs: seq<ToolResult>, r: ToolResult)
    ensures OutputBytes(rs + [r]) == OutputBytes(rs) + (if r.output.Some? then |r.output.value| else 0)
  {
    assert (rs + [r])[..|rs|] == rs;
  }

  /** Each request is the one before it with the reply to it and the answers to that reply's calls. */
  ghost predicate Grown(provider: seq<Message> -> Turn, requests: seq<seq<Message>>) {
    (requests != [] ==> requests[0] == [UserText]) &&
    forall i :: 0 <= i < |requests| - 1 ==> GrownBy(provider, requests[i], requests[i + 1])
  }

  ghost predicate GrownBy(provider: seq<Message> -> Turn, ms: seq<Message>, ms': seq<Message>) {
    provider(ms).Reply? && provider(ms).stop == Ended && provider(ms).calls != [] &&
    |ms'| == |ms| + 2 && ms'[..|ms|] == ms && ms'[|ms|] == Assistant(provider(ms).text, provider(ms).calls) && ms'[|ms| + 1].Results?
  }

  /** What the conversation is after a turn: the reply, and the answers to its calls when it ended with calls. */
  ghost predicate Heard(ms: seq<Message>, turn: Turn, ms': seq<Message>) {
    if turn.Reply? then
      ms + [Assistant(turn.text, turn.calls)] <= ms' &&
      if turn.stop == Ended && turn.calls != [] then |ms'| == |ms| + 2 && ms'[|ms| + 1].Results? else |ms'| == |ms| + 1
    else ms' == ms
  }

  lemma GrownMore(provider: seq<Message> -> Turn, requests: seq<seq<Message>>, ms: seq<Message>)
    requires requests != [] && Grown(provider, requests) && GrownBy(provider, requests[|requests| - 1], ms)
    ensures Grown(provider, requests + [ms])
  {
    hide GrownBy;
    var more := requests + [ms];
    forall i | 0 <= i < |more| - 1 ensures GrownBy(provider, more[i], more[i + 1]) {
      if i < |requests| - 1 { assert more[i] == requests[i] && more[i + 1] == requests[i + 1]; }
    }
  }

  /** last is the reply to the last request, and the conversation ends with it. */
  ghost predicate Spoken(provider: seq<Message> -> Turn, requests: seq<seq<Message>>, last: Option<Turn>, messages: seq<Message>) {
    if requests == [] then last == None && messages == [UserText]
    else last == Some(provider(requests[|requests| - 1])) && Heard(requests[|requests| - 1], last.value, messages)
  }

  /** The calls left when a budget latched: answered, not executed. */
  method Unexecuted(calls: seq<ToolCall>, done: seq<ToolResult>) returns (results: seq<ToolResult>)
    requires |done| <= |calls| && forall k :: 0 <= k < |done| ==> done[k].callID == calls[k].id
    ensures Answers(results, calls) && done <= results && OutputBytes(results) == OutputBytes(done)
    ensures forall k :: |done| <= k < |calls| ==> results[k].isError && results[k].output.None?
  {
    results := done;
    for i := |done| to |calls|
      invariant |results| == i && done <= results && OutputBytes(results) == OutputBytes(done)
      invariant forall k :: 0 <= k < i ==> results[k].callID == calls[k].id
      invariant forall k :: |done| <= k < i ==> results[k].isError && results[k].output.None?
    {
      BytesGrow(results, ToolResult(calls[i].id, None, true));
      results := results + [ToolResult(calls[i].id, None, true)];
    }
  }

  class Session {
    const budgets: Budgets
    const store: FS.Store
    /** What the nth check that runs gives. */
    const runner: (nat, Request) -> CheckResult
    var checks: nat
    var reported: nat
    var wall: nat
    var input: nat
    var stop: bool
    /** The store's calls and the bytes of the fact sheet when the loop began, and whether those alone were over. */
    ghost const began: seq<FS.Call>
    ghost var facts: nat
    ghost var over: bool
    /** Every call executed. */
    ghost var log: seq<Done>
    /** Every request sent. */
    ghost var requests: seq<seq<Message>>

    ghost function World(): Setting
      reads this
    {
      Setting(budgets, runner, store.run, store.seeds, began, facts)
    }

    ghost predicate Counted()
      reads this, store
    {
      checks == Ran(log) && wall == Wall(log) && input == facts + Bytes(log) && reported == Filed(log) && store.calls == began + StoreCalls(log)
    }

    ghost predicate Valid()
      reads this, store
    {
      store.Valid() && FS.Seeds(store.seeds) && Counted() && RightLog(World(), log) && (stop <==> over || Latched(World(), log))
    }

    constructor (budgets: Budgets, store: FS.Store, runner: (nat, Request) -> CheckResult)
      requires store.Valid()
      ensures Valid() && this.budgets == budgets && this.store == store && this.runner == runner
      ensures checks == 0 && reported == 0 && wall == 0 && input == 0 && !stop && log == [] && requests == [] && facts == 0 && !over
      ensures began == store.calls
    {
      this.budgets, this.store, this.runner, checks, reported, wall, input, stop := budgets, store, runner, 0, 0, 0, 0, false;
      began, facts, over, log, requests := store.calls, 0, false, [], [];
    }

    /** exhaust: the first exhausted budget latches. */
    method Exhaust()
      modifies this`stop
      ensures stop
    {
      if !stop { stop := true; }
    }

    method Account(n: nat) returns (ok: bool)
      modifies this`input, this`stop
      ensures input == old(input) + n && (ok <==> input <= budgets.modelInput)
      ensures stop <==> old(stop) || !ok
    {
      input := input + n;
      if input > budgets.modelInput {
        Exhaust();
        return false;
      }
      return true;
    }

    /** The log with one more call, which a body that ran it brings about. */
    ghost method Note(d: Done)
      requires store.Valid() && FS.Seeds(store.seeds) && RightLog(World(), log) && !Latched(World(), log) && !over
      requires RightDone(World(), log, d) && (stop <==> Latches(World(), log, d))
      requires checks == Ran(log) + (if d.ran.Some? then 1 else 0)
      requires wall == Wall(log) + (if d.ran.Some? then d.ran.value.duration else 0)
      requires input == facts + Bytes(log) + Printed(d) && reported == Filed(log) + (if Files(d) then 1 else 0)
      requires store.calls == began + StoreCalls(log) + StoreCall(d)
      modifies this`log
      ensures Valid() && log == old(log) + [d]
    {
      hide RightDone, Latches, RightLog, Latched, Ran, Wall, Bytes, Printed, Filed, Files, StoreCalls, StoreCall;
      RightGrows(World(), log, d);
      Logged(log, d);
      assert began + (StoreCalls(log) + StoreCall(d)) == began + StoreCalls(log) + StoreCall(d);
      log := log + [d];
    }

    /** Runs one check under the budgets. */
    method Execute(c: ToolCall, q: Request) returns (r: ToolResult)
      requires Valid() && !stop && Asks(c.tool) == Some(q)
      modifies this`checks, this`wall, this`input, this`stop, this`log, store
      ensures Valid() && |log| == |old(log)| + 1 && log[..|old(log)|] == old(log)
      ensures log[|old(log)|].call == c && log[|old(log)|].result == r
      ensures log[|old(log)|].ran ==
        if old(checks) < budgets.agentChecks && old(wall) < budgets.wallClock then Some(runner(old(checks), q)) else None
      ensures var ran := log[|old(log)|].ran;
        r.output == if ran.Some? && ran.value.status.Ok? && old(input) + |ran.value.raw| <= budgets.modelInput then Some(ran.value.raw) else None
      ensures stop <==> log[|old(log)|].ran.None? || (log[|old(log)|].ran.value.status.Ok? && r.output.None?)
    {
      hide RightLog, Ran, Wall, Bytes, Filed, StoreCalls, StoreAfter, FS.Final, FS.Seeds, FS.Inv, FS.Validated, FS.RuleOutFits;
      if checks >= budgets.agentChecks || wall >= budgets.wallClock {
        Exhaust();
        r := ToolResult(c.id, None, true);
        Note(Done(c, None, r));
        return;
      }
      var res := runner(checks, q);
      checks := checks + 1;
      wall := wall + res.duration;
      store.Observe(res.observation, FS.Output(res.check, res.status.Ok?, res.raw));
      match res.status {
        case Denied => r := ToolResult(c.id, None, true);
        case Unavailable(elevation) => r := ToolResult(c.id, None, elevation);
        case Ok =>
          var fits := Account(|res.raw|);
          r := if fits then ToolResult(c.id, Some(res.raw), false) else ToolResult(c.id, None, true);
      }
      Note(Done(c, Some(res), r));
    }

    method Report(c: ToolCall) returns (r: ToolResult)
      requires Valid() && !stop && IsReport(c)
      modifies this`reported, this`log, store
      ensures Valid() && log == old(log) + [Done(c, None, r)]
      ensures r.callID == c.id && r.output.None? && (r.isError ==> old(store.Contents()) == store.Contents())
      ensures c.tool.input.Some? && c.tool.input.value.0 == OpenVerdict ==>
        store.calls == old(store.calls) + [FS.ReportCall(c.tool.input.value.1)] && (!r.isError ==> c.tool.input.value.1.id in store.byID)
      ensures c.tool.input.Some? && c.tool.input.value.0 == RuledOutVerdict ==>
        store.calls == old(store.calls) + [FS.RuleOutCall(c.tool.input.value.1)] && store.findings == old(store.findings) &&
        (!r.isError ==> exists k :: 0 <= k < |store.ruledOut| && store.ruledOut[k].id == c.tool.input.value.1.id)
      ensures c.tool.input.None? || c.tool.input.value.0 == OtherVerdict ==> r.isError && store.calls == old(store.calls)
      ensures reported == old(reported) + (if c.tool.input.Some? && c.tool.input.value.0 == OpenVerdict && !r.isError then 1 else 0)
    {
      hide RightLog, Ran, Wall, Bytes, Filed, StoreCalls, FS.Final, FS.Seeds, FS.Inv, FS.Validated, FS.RuleOutFits;
      var input := c.tool.input;
      if input == None || input.value.0 == OtherVerdict {
        r := ToolResult(c.id, None, true);
      } else if input.value.0 == RuledOutVerdict {
        var ruled := store.RuleOut(input.value.1);
        r := ToolResult(c.id, None, ruled.None?);
      } else {
        var filed := store.Report(input.value.1);
        if filed == None {
          r := ToolResult(c.id, None, true);
        } else {
          reported := reported + 1;
          r := ToolResult(c.id, None, false);
        }
      }
      Note(Done(c, None, r));
    }

    method Call(c: ToolCall) returns (r: ToolResult)
      requires Valid() && !stop
      modifies this`checks, this`reported, this`wall, this`input, this`stop, this`log, store
      ensures Valid() && |log| == |old(log)| + 1 && log[..|old(log)|] == old(log)
      ensures log[|old(log)|].call == c && log[|old(log)|].result == r
      ensures IsReport(c) ==> !stop
    {
      hide RightLog, Ran, Wall, Bytes, Filed, StoreCalls, StoreAfter, FS.Final, FS.Seeds, FS.Inv, FS.Validated, FS.RuleOutFits;
      match c.tool {
        case RunCheck(request) =>
          if request == None || request.value.check == "" {
            r := Refuse(c);
          } else {
            r := Execute(c, request.value);
          }
        case ReadFile(path) =>
          if path == None || path.value == "" {
            r := Refuse(c);
          } else {
            r := Execute(c, Request("text.cat", map["path" := path.value]));
          }
        case ReportFinding(_) => r := Report(c);
        case Unknown(_) => r := Refuse(c);
      }
    }

    /** A call that names no check, no file and no report is answered with an error. */
    method Refuse(c: ToolCall) returns (r: ToolResult)
      requires Valid() && !stop && !IsReport(c) && Asks(c.tool).None?
      modifies this`log
      ensures Valid() && log == old(log) + [Done(c, None, r)]
      ensures r == ToolResult(c.id, None, true)
    {
      hide RightLog, Ran, Wall, Bytes, Filed, StoreCalls, StoreAfter, FS.Final, FS.Seeds, FS.Inv, FS.Validated, FS.RuleOutFits;
      r := ToolResult(c.id, None, true);
      Note(Done(c, None, r));
    }

    /** The calls of one reply: executed in order until a budget latches, the rest answered as not executed. */
    method AnswerCalls(calls: seq<ToolCall>) returns (results: seq<ToolResult>, investigating: nat)
      requires Valid() && !stop
      modifies this`checks, this`reported, this`wall, this`input, this`stop, this`log, store
      ensures Valid() && Answers(results, calls)
      ensures old(log) <= log && Follows(log[|old(log)|..], Zipped(calls, results)) && (!stop ==> |log| == |old(log)| + |calls|)
      ensures Bytes(old(log)) + OutputBytes(results) <= Bytes(log)
      ensures !stop ==> (investigating == 0 <==> AllReports(calls))
      ensures AllReports(calls) ==> !stop
    {
      hide Counted, RightLog, Latched, Ran, Wall, Bytes, Filed, StoreCalls, StoreAfter, OutputBytes, FS.Final, FS.Seeds, FS.Inv;
      results, investigating := [], 0;
      NoBytes();
      var i := 0;
      while i < |calls| && !stop
        invariant 0 <= i <= |calls| && |results| == i && Valid()
        invariant |log| == |old(log)| + i && log[..|old(log)|] == old(log)
        invariant forall k :: 0 <= k < i ==> log[|old(log)| + k].call == calls[k] && log[|old(log)| + k].result == results[k]
        invariant forall k :: 0 <= k < i ==> results[k].callID == calls[k].id
        invariant Bytes(old(log)) + OutputBytes(results) <= Bytes(log)
        invariant investigating == 0 <==> forall k :: 0 <= k < i ==> IsReport(calls[k])
        invariant stop ==> investigating > 0
        decreases |calls| - i
      {
        ghost var before := log;
        if !calls[i].tool.ReportFinding? { investigating := investigating + 1; }
        var r := Call(calls[i]);
        assert log == before + [log[|before|]];
        Logged(before, log[|before|]);
        OutputPrinted(World(), log, |before|);
        BytesGrow(results, r);
        results := results + [r];
        i := i + 1;
      }
      ghost var executed := results;
      results := Unexecuted(calls, results);
      assert forall k :: 0 <= k < i ==> results[k] == executed[k];
    }

    /** Why the loop ended: nothing to send, a turn that is not a reply to go on from, or a budget. */
    ghost predicate Ends(provider: seq<Message> -> Turn, messages: seq<Message>, last: Option<Turn>)
      reads this
    {
      over || stop || |requests| >= budgets.maxIterations || provider(messages) == TimedOut || provider(messages) == TooLarge ||
      (last.Some? && (last.value == Failed || (last.value.Reply? && (last.value.stop != Ended || last.value.calls == []))))
    }

    /** One turn that asks for something: its calls are answered and the conversation grows by both. */
    method Turned(turn: Turn, messages: seq<Message>) returns (messages': seq<Message>, investigating: nat)
      requires Valid() && !stop && turn.Reply? && turn.stop == Ended && turn.calls != []
      requires Answered(messages) && Handed(messages) <= Bytes(log) && Follows(log, Exchanges(messages)) && |log| == |Exchanges(messages)|
      modifies this`checks, this`reported, this`wall, this`input, this`stop, this`log, store
      ensures Valid() && Heard(messages, turn, messages')
      ensures Answered(messages') && Handed(messages') <= Bytes(log)
      ensures Follows(log, Exchanges(messages')) && (!stop ==> |log| == |Exchanges(messages')|)
      ensures !stop ==> (investigating == 0 <==> AllReports(turn.calls))
      ensures AllReports(turn.calls) ==> !stop
    {
      hide Answers, FS.Final, FS.Seeds, FS.Inv, Handed, Answered, Exchanges, Counted, RightLog, Latched, Ran, Wall, Bytes, Filed, StoreCalls, Follows, OutputBytes;
      ghost var before := log;
      var results;
      results, investigating := AnswerCalls(turn.calls);
      AnswersLength(results, turn.calls);
      AnsweredGrows(messages, turn.text, turn.calls, results);
      FollowsGrows(before, Exchanges(messages), log[|before|..], turn.calls, results);
      assert before + log[|before|..] == log;
      messages' := messages + [Assistant(turn.text, turn.calls)] + [Results(results)];
    }

    /** What holds whenever a turn is over: the requests, the replies and the executed calls fit together, inside the budgets. */
    ghost predicate Told(provider: seq<Message> -> Turn, messages: seq<Message>, last: Option<Turn>, out: Outcome)
      reads this, store
    {
      Valid() && (over <==> facts > budgets.modelInput) && (|requests| == 0 || |requests| <= budgets.maxIterations) &&
      (forall i :: 0 <= i < |requests| ==> Answered(requests[i]) && facts + Handed(requests[i]) <= budgets.modelInput) &&
      Grown(provider, requests) && Spoken(provider, requests, last, messages) &&
      Follows(log, Exchanges(messages)) && (!stop ==> |log| == |Exchanges(messages)|) &&
      out.iterations == |requests| - (if last == Some(Failed) then 1 else 0) && out.checks == checks && out.reported == reported
    }

    /** The loop goes on: everything asked was answered, and the conversation is the next request. */
    ghost predicate Going(provider: seq<Message> -> Turn, messages: seq<Message>, last: Option<Turn>, out: Outcome)
      reads this, store
    {
      Told(provider, messages, last, out) && !stop && !out.complete && Answered(messages) && Handed(messages) <= Bytes(log) &&
      Grown(provider, requests + [messages]) && last != Some(Failed)
    }

    ghost predicate Completes(last: Option<Turn>)
      reads this
    {
      last.Some? && last.value.Reply? && last.value.stop == Ended &&
      (last.value.calls == [] || (|requests| == budgets.maxIterations && AllReports(last.value.calls)))
    }

    /** One iteration of the loop. */
    method Iterate(provider: seq<Message> -> Turn, sofar: Outcome, conversation: seq<Message>, ghost heard: Option<Turn>)
        returns (again: bool, out: Outcome, messages: seq<Message>, ghost last: Option<Turn>)
      requires Going(provider, conversation, heard, sofar) && |requests| < budgets.maxIterations && !Completes(heard)
      modifies this, store
      ensures facts == old(facts) && over == old(over)
      ensures Told(provider, messages, last, out) && |requests| <= |old(requests)| + 1
      ensures again ==> Going(provider, messages, last, out) && |old(requests)| < |requests| < budgets.maxIterations && !Completes(last)
      ensures !again ==> (out.complete <==> Completes(last)) && Ends(provider, messages, last)
    {
      hide Answers, FS.Final, FS.Seeds, FS.Inv, Handed, Answered, Exchanges, Grown, Heard, AllReports, RightLog, Latched, Ran, Wall, Bytes, Filed, StoreCalls, Follows;
      again, out, messages, last := false, sofar, conversation, heard;
      var turn := provider(messages);
      if turn == TimedOut || turn == TooLarge { return; }
      BytesBound(World(), log);
      hide Counted;
      requests, last := requests + [messages], Some(turn);
      if turn == Failed {
        HeardNothing(messages, turn);
        return;
      }
      out := out.(iterations := out.iterations + 1);
      HeardReply(messages, turn);
      if turn.stop != Ended {
        messages := messages + [Assistant(turn.text, turn.calls)];
        return;
      }
      if |turn.calls| == 0 {
        messages := messages + [Assistant(turn.text, turn.calls)];
        out := out.(complete := true, checks := checks, reported := reported);
        return;
      }
      var investigating;
      messages, investigating := Turned(turn, messages);
      HeardGrows(provider, conversation, messages);
      GrownMore(provider, requests, messages);
      out := out.(checks := checks, reported := reported);
      if stop { return; }
      if out.iterations == budgets.maxIterations {
        out := out.(complete := investigating == 0);
        return;
      }
      again := true;
    }

    /** The loop over any provider, which answers the conversation so far. last is the reply to the request sent last. */
    method Run(sheet: string, provider: seq<Message> -> Turn) returns (out: Outcome, messages: seq<Message>, ghost last: Option<Turn>)
      requires Valid() && !stop && log == [] && requests == [] && facts == 0 && !over
      modifies this, store
      ensures facts == |sheet| && Told(provider, messages, last, out)
      ensures checks == 0 || checks <= budgets.agentChecks
      ensures out.complete <==> Completes(last)
      ensures Ends(provider, messages, last)
    {
      hide FS.Final, FS.Seeds, FS.Inv, Handed, Answered, Exchanges, Grown, AllReports;
      out, messages, last := Outcome(false, 0, 0, 0), [UserText], None;
      FirstMessage();
      GrownStarts(provider);
      var fits := Account(|sheet|);
      facts, over := |sheet|, !fits;
      assert requests + [messages] == [[UserText]];
      assert Told(provider, messages, last, out) && (!over ==> Going(provider, messages, last, out));
      if !fits { return; }
      hide Told, Going;
      var again := 0 < budgets.maxIterations;
      while again
        invariant facts == |sheet| && Told(provider, messages, last, out)
        invariant again ==> Going(provider, messages, last, out) && |requests| < budgets.maxIterations && !Completes(last)
        invariant !again ==> (out.complete <==> Completes(last)) && Ends(provider, messages, last)
        decreases again, budgets.maxIterations - |requests|
      {
        again, out, messages, last := Iterate(provider, out, messages, last);
      }
      RanWithin(provider, messages, last, out);
    }

    lemma RanWithin(provider: seq<Message> -> Turn, messages: seq<Message>, last: Option<Turn>, out: Outcome)
      requires Told(provider, messages, last, out)
      ensures checks == 0 || checks <= budgets.agentChecks
    {
      hide RightLog, Latched;
      RanBound(World(), log);
    }
  }

  lemma AnswersLength(results: seq<ToolResult>, calls: seq<ToolCall>)
    requires Answers(results, calls)
    ensures |results| == |calls|
  {
  }

  lemma GrownStarts(provider: seq<Message> -> Turn)
    ensures Grown(provider, []) && Grown(provider, [[UserText]])
  {
  }

  lemma HeardNothing(ms: seq<Message>, turn: Turn)
    requires !turn.Reply?
    ensures Heard(ms, turn, ms)
  {
  }

  lemma HeardReply(ms: seq<Message>, turn: Turn)
    requires turn.Reply?
    ensures var ms' := ms + [Assistant(turn.text, turn.calls)];
      (turn.stop != Ended || turn.calls == [] ==> Heard(ms, turn, ms')) && Exchanges(ms') == Exchanges(ms)
  {
    Unanswered(ms, turn.text, turn.calls);
    hide Exchanges;
  }

  lemma HeardGrows(provider: seq<Message> -> Turn, ms: seq<Message>, ms': seq<Message>)
    requires provider(ms).Reply? && provider(ms).stop == Ended && provider(ms).calls != [] && Heard(ms, provider(ms), ms')
    ensures GrownBy(provider, ms, ms')
  {
  }
}
