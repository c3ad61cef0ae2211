/** One recordHost call in a run of sessions: cut short it keeps nothing, completed it is kept (resume.go). */
module ResumeCalls {
  import opened Options
  import opened Resume
  import opened HostFiles

  /** How far recordHost is after n effects: what is on disk, what run.json says, and what the memory says. */
  ghost predicate Stage(st0: State, call: Call, st: State, n: nat) {
    st.session.Some? && st.session.value.task == Host(call) && st.session.value.pc == n && n <= 6 &&
    st.calls == st0.calls + [call] &&
    (RUN_JSON in st.files ==> st.files[RUN_JSON].ManJson?) && (n >= 3 ==> RUN_JSON in st.files) &&
    (n >= 1 ==> EnvFile(call.asset.name) in st.files && st.files[EnvFile(call.asset.name)] == EnvJson(call.env)) &&
    (n >= 2 ==> Find(st.session.value.manifest.files, EnvFile(call.asset.name)) == Some(Sha(EnvJson(call.env)))) &&
    (n <= 4 ==> ManifestOk(st0.calls, st.session.value.manifest)) &&
    (n >= 4 ==> RecFile(call.asset.name) in st.files && st.files[RecFile(call.asset.name)] == RecJson(RecordOf(call))) &&
    (n >= 5 ==> Find(st.session.value.manifest.files, RecFile(call.asset.name)) == Some(Sha(RecJson(RecordOf(call))))) &&
    (n <= 5 && RUN_JSON in st.files ==> ManifestOk(st0.calls, st.files[RUN_JSON].manifest)) &&
    (n == 6 ==> st.files[RUN_JSON].manifest == st.session.value.manifest)
  }

  lemma StageBegins(st0: State, call: Call)
    requires Inv(st0) && Enabled(st0, Begin(Host(call)))
    ensures Stage(st0, call, Next(st0, Begin(Host(call))), 0)
  {
    hide Vouched, EnvFile, RecFile;
  }

  lemma StageAdvances(st0: State, call: Call, st: State, n: nat)
    requires Stage(st0, call, st, n) && n < 6
    ensures Enabled(st, Advance) && Stage(st0, call, Advanced(st), n + 1)
  {
    hide Vouched, EnvFile, RecFile;
    FilesApart(call.asset.name);
    PlainVouched(st0.calls);
  }

  // ----- what touches a call's files -----

  /** The event writes or changes the file, or starts to. */
  predicate Touches(e: Event, name: string) {
    match e
    case Tamper(n, _) => n == name
    case Begin(Plain(n, _)) => n == name
    case Begin(Host(c)) => EnvFile(c.asset.name) == name || RecFile(c.asset.name) == name
    case _ => false
  }

  predicate Spares(e: Event, call: Call) { !Touches(e, EnvFile(call.asset.name)) && !Touches(e, RecFile(call.asset.name)) }

  /** Recording another host spares it. */
  lemma OtherHostSpares(n: LocatorSyntax.Netip, other: Call, call: Call)
    requires LocatorSyntax.Lawful(n) && HostName(n, other.asset.name) && HostName(n, call.asset.name)
    requires other.asset.name != call.asset.name
    ensures Spares(Begin(Host(other)), call)
  {
    hide EnvFile, RecFile, HostName;
    HostFilesApart(n, other.asset.name, call.asset.name);
    HostFilesApart(n, call.asset.name, other.asset.name);
  }

  /** So does every file a stage writes: none is directly in the evidence directory. */
  lemma StageFileSpares(name: string, content: Content, call: Call)
    requires !("evidence/" <= name) || '/' in name[9..]
    ensures Spares(Begin(Plain(name, content)), call)
  {
    var env, rec := EnvFile(call.asset.name), RecFile(call.asset.name);
    assert env[9..] == FileName(call.asset.name) + ".json" && rec[9..] == FileName(call.asset.name) + ".collection.json";
    assert '/' !in FileName(call.asset.name);
    assert "evidence/" <= env && "evidence/" <= rec;
  }

  // ----- a call inside a run -----

  /** The call begun at event b, with nothing but its own effects and changes to other files up to state c. */
  ghost predicate Records(trace: seq<State>, events: seq<Event>, b: nat, c: nat, call: Call)
    requires |trace| == |events| + 1
  {
    b < c < |trace| && events[b] == Begin(Host(call)) &&
    forall i :: b < i < c ==> events[i] == Advance || (events[i].Tamper? && Spares(events[i], call))
  }

  function Pc(st: State): nat { if st.session.Some? then st.session.value.pc else 0 }

  lemma {:induction false} StageInRun(trace: seq<State>, events: seq<Event>, b: nat, c: nat, call: Call)
    requires Run(trace, events) && Records(trace, events, b, c, call)
    ensures Stage(trace[b], call, trace[c], Pc(trace[c]))
  {
    hide Stage, Inv, Next, Touches, Spares, Advanced;
    if c == b + 1 {
      RunKeeps(trace, events);
      assert Step(trace[b], events[b], trace[c]);
      StageBegins(trace[b], call);
      StagePc(trace[b], call, trace[c], 0);
    } else {
      StageInRun(trace, events, b, c - 1, call);
      assert Step(trace[c - 1], events[c - 1], trace[c]);
      StageStep(trace[b], call, trace[c - 1], events[c - 1], trace[c]);
    }
  }

  lemma StagePc(st0: State, call: Call, st: State, n: nat)
    requires Stage(st0, call, st, n)
    ensures Pc(st) == n
  {
  }

  lemma StageStep(st0: State, call: Call, st: State, e: Event, st': State)
    requires Stage(st0, call, st, Pc(st)) && Step(st, e, st')
    requires e == Advance || (e.Tamper? && Spares(e, call))
    ensures Stage(st0, call, st', Pc(st'))
  {
    hide EnvFile, RecFile, Vouched;
    if e == Advance {
      StageAdvances(st0, call, st, Pc(st));
    }
  }

  // ----- completed -----

  /** The manifest holds the hashes of both files as the call wrote them. */
  predicate Recorded(m: Manifest, call: Call) {
    Find(m.files, EnvFile(call.asset.name)) == Some(Sha(EnvJson(call.env))) &&
    Find(m.files, RecFile(call.asset.name)) == Some(Sha(RecJson(RecordOf(call))))
  }

  /** The task a session is at leaves the call's files alone. */
  predicate TaskSpares(s: Session, call: Call) { Idle(s) || (TaskFits(s.task) && Spares(Begin(s.task), call)) }

  /** Both files and run.json are as the call left them, in memory too; loaded says every live session started from that. */
  predicate Holding(st: State, call: Call, loaded: bool) {
    EnvFile(call.asset.name) in st.files && st.files[EnvFile(call.asset.name)] == EnvJson(call.env) &&
    RecFile(call.asset.name) in st.files && st.files[RecFile(call.asset.name)] == RecJson(RecordOf(call)) &&
    RUN_JSON in st.files && st.files[RUN_JSON].ManJson? && Recorded(st.files[RUN_JSON].manifest, call) &&
    (st.session.Some? ==>
      Recorded(st.session.value.manifest, call) && TaskSpares(st.session.value, call) &&
      (loaded ==> st.session.value.prior.Some? && Recorded(st.session.value.prior.value, call)))
  }

  lemma CompletedHolds(st0: State, call: Call, st: State)
    requires Stage(st0, call, st, 6)
    ensures Holding(st, call, false)
  {
    hide EnvFile, RecFile, Vouched;
  }

  lemma RecordedStays(m: Manifest, call: Call, name: string, content: Content)
    requires Recorded(m, call) && name != EnvFile(call.asset.name) && name != RecFile(call.asset.name)
    ensures Recorded(Remembered(m, name, content), call)
  {
    hide EnvFile, RecFile;
  }

  lemma HoldingAdvances(st: State, call: Call, loaded: bool)
    requires Holding(st, call, loaded) && Enabled(st, Advance)
    ensures Holding(Advanced(st), call, loaded)
  {
    hide EnvFile, RecFile, Recorded;
    FilesApart(call.asset.name);
    var s := st.session.value;
    assert Spares(Begin(s.task), call);
    if s.task.Host? { FilesApart(s.task.call.asset.name); }
    match Effects(s.task)[s.pc]
    case WriteFile(n, c) =>
    case Remember(n, c) => RecordedStays(s.manifest, call, n, c);
    case WriteRecord =>
    case RememberRecord =>
      RecordedStays(s.manifest, call, RecFile(s.task.call.asset.name), RecJson(RecordNow(s.task.call, s.manifest)));
    case Save =>
  }

  lemma HoldingStep(st: State, e: Event, st': State, call: Call, loaded: bool)
    requires Holding(st, call, loaded) && Step(st, e, st') && Spares(e, call)
    ensures Holding(st', call, loaded || e.OpenResume?)
  {
    if e == Advance {
      HoldingAdvances(st, call, loaded);
    } else {
      hide EnvFile, RecFile;
      FilesApart(call.asset.name);
    }
  }

  ghost predicate ResumedBetween(events: seq<Event>, c: nat, j: nat)
    requires c <= j <= |events|
  {
    exists r :: c <= r < j && events[r].OpenResume?
  }

  lemma {:induction false} HoldingInRun(trace: seq<State>, events: seq<Event>, c: nat, j: nat, call: Call)
    requires Run(trace, events) && c <= j < |trace| && Holding(trace[c], call, false)
    requires forall i :: c <= i < j ==> Spares(events[i], call)
    ensures Holding(trace[j], call, ResumedBetween(events, c, j))
  {
    hide Holding, Spares, Next;
    if c < j {
      HoldingInRun(trace, events, c, j - 1, call);
      assert Step(trace[j - 1], events[j - 1], trace[j]);
      var before := ResumedBetween(events, c, j - 1);
      HoldingStep(trace[j - 1], events[j - 1], trace[j], call, before);
      assert ResumedBetween(events, c, j) <==> before || events[j - 1].OpenResume?;
    }
  }

  /**
   * A completed call is kept: in every run, by every session resumed after it within the window, however many sessions,
   * hosts and stage files came in between, as long as nobody touched the two files.
   */
  lemma CompletedIsKept(trace: seq<State>, events: seq<Event>, b: nat, c: nat, j: nat, call: Call)
    requires Run(trace, events) && Records(trace, events, b, c, call) && Pc(trace[c]) == 6
    requires c <= j < |trace| && (forall i :: c <= i < j ==> Spares(events[i], call)) && ResumedBetween(events, c, j)
    requires trace[j].session.Some? && KeptFresh(call.env.started, trace[j].session.value.start)
    requires call.inputs != "" && call.status == Collected
    ensures Kept(trace[j], call.asset, call.inputs) == Some((RecordOf(call), call.env))
  {
    hide Stage, Run, Holding, Kept, Spares, KeptFresh;
    StageInRun(trace, events, b, c, call);
    CompletedHolds(trace[b], call, trace[c]);
    HoldingInRun(trace, events, c, j, call);
    HoldingKept(trace[j], call);
  }

  lemma HoldingKept(st: State, call: Call)
    requires Holding(st, call, true) && st.session.Some? && KeptFresh(call.env.started, st.session.value.start)
    requires call.inputs != "" && call.status == Collected
    ensures Kept(st, call.asset, call.inputs) == Some((RecordOf(call), call.env))
  {
    hide EnvFile, RecFile, KeptFresh;
  }

  // ----- cut short -----

  /** Any record hash under the call's record file is of an earlier call's record. */
  ghost predicate OldRecord(calls: seq<Call>, m: Manifest, call: Call) {
    RecFile(call.asset.name) in m.files ==> Vouched(calls, m.files[RecFile(call.asset.name)])
  }

  /** The call's envelope is on disk, and no manifest vouches for its record: not run.json, nor any live session's. */
  ghost predicate Orphaned(calls: seq<Call>, st: State, call: Call) {
    EnvFile(call.asset.name) in st.files && st.files[EnvFile(call.asset.name)] == EnvJson(call.env) &&
    (RUN_JSON in st.files ==> st.files[RUN_JSON].ManJson? && OldRecord(calls, st.files[RUN_JSON].manifest, call)) &&
    (st.session.Some? ==>
      OldRecord(calls, st.session.value.manifest, call) && TaskSpares(st.session.value, call) &&
      (st.session.value.prior.Some? ==> OldRecord(calls, st.session.value.prior.value, call)))
  }

  lemma DeadOrphaned(st0: State, call: Call, st: State, n: nat)
    requires Stage(st0, call, st, n) && 1 <= n <= 5
    ensures Orphaned(st0.calls, Next(st, Die), call)
  {
    hide EnvFile, RecFile, Vouched;
  }

  lemma OrphanedAdvances(calls: seq<Call>, st: State, call: Call)
    requires Orphaned(calls, st, call) && Enabled(st, Advance)
    ensures Orphaned(calls, Advanced(st), call)
  {
    hide EnvFile, RecFile, Vouched;
    FilesApart(call.asset.name);
    var s := st.session.value;
    assert Spares(Begin(s.task), call);
    if s.task.Host? { FilesApart(s.task.call.asset.name); }
  }

  lemma OrphanedStep(calls: seq<Call>, st: State, e: Event, st': State, call: Call)
    requires Orphaned(calls, st, call) && Step(st, e, st') && Spares(e, call)
    ensures Orphaned(calls, st', call)
  {
    if e == Advance {
      OrphanedAdvances(calls, st, call);
    } else {
      hide EnvFile, RecFile, Vouched;
      FilesApart(call.asset.name);
    }
  }

  lemma {:induction false} OrphanedInRun(trace: seq<State>, events: seq<Event>, calls: seq<Call>, c: nat, j: nat, call: Call)
    requires Run(trace, events) && c <= j < |trace| && Orphaned(calls, trace[c], call)
    requires forall i :: c <= i < j ==> Spares(events[i], call)
    ensures Orphaned(calls, trace[j], call)
  {
    hide Orphaned, Spares, Next;
    if c < j {
      OrphanedInRun(trace, events, calls, c, j - 1, call);
      assert Step(trace[j - 1], events[j - 1], trace[j]);
      OrphanedStep(calls, trace[j - 1], events[j - 1], trace[j], call);
    }
  }

  /**
   * A session that dies anywhere inside recordHost, after its first effect and before its last, leaves nothing of that call
   * to keep: in every later state of the run, as long as nobody touches the two files, a kept pair of that host is one an
   * earlier call had already written in full, with the very same envelope. If no earlier call wrote that envelope, nothing
   * of the host is kept.
   */
  lemma CutKeepsNothing(trace: seq<State>, events: seq<Event>, b: nat, c: nat, j: nat, call: Call, inputs: string)
    requires Run(trace, events) && Records(trace, events, b, c, call) && 1 <= Pc(trace[c]) <= 5
    requires c < j < |trace| && events[c] == Die && forall i :: c < i < j ==> Spares(events[i], call)
    ensures Kept(trace[j], call.asset, inputs).Some? ==>
      (var (rec, env) := Kept(trace[j], call.asset, inputs).value;
       env == call.env && exists k :: 0 <= k < |trace[b].calls| && FromCall(trace[b].calls[k], call.asset, inputs, rec, env))
    ensures (forall k :: 0 <= k < |trace[b].calls| ==> trace[b].calls[k].env != call.env) ==> Kept(trace[j], call.asset, inputs) == None
  {
    hide Stage, Kept, Spares, Orphaned, FromCall;
    StageInRun(trace, events, b, c, call);
    DeadOrphaned(trace[b], call, trace[c], Pc(trace[c]));
    assert Step(trace[c], events[c], trace[c + 1]);
    OrphanedInRun(trace, events, trace[b].calls, c + 1, j, call);
    if Kept(trace[j], call.asset, inputs).Some? { OrphanedKept(trace[b].calls, trace[j], call, inputs); }
  }

  lemma OrphanedKept(calls: seq<Call>, st: State, call: Call, inputs: string)
    requires Orphaned(calls, st, call) && Kept(st, call.asset, inputs).Some?
    ensures var (rec, env) := Kept(st, call.asset, inputs).value;
      env == call.env && exists k :: 0 <= k < |calls| && calls[k].env == call.env && FromCall(calls[k], call.asset, inputs, rec, env)
  {
    hide EnvFile, RecFile, KeptFresh;
    var files := st.session.value.prior.value.files;
    var recFile := RecFile(call.asset.name);
    var (rec, env) := Kept(st, call.asset, inputs).value;
    assert st.files[recFile].RecJson?;
    assert Vouched(calls, files[recFile]);
    var k :| 0 <= k < |calls| && files[recFile].content.rec == RecordOf(calls[k]);
    assert rec == RecordOf(calls[k]);
    assert FromCall(calls[k], call.asset, inputs, rec, env);
  }
}
