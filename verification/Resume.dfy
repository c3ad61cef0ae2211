/**
 * Stop and resume: evidence files and a hash manifest written one after another by sessions that may die between any two
 * writes, and what a later session may keep (resume.go, stages.go).
 */
module Resume {
  import opened Options

  // ----- what is on disk -----

  datatype Asset = Asset(name: string, id: string, kind: string)
  datatype Status = Collected | NotCollected

  /** A host's evidence; started is when its collection began. */
  datatype Envelope = Envelope(started: int, body: string)

  datatype HostRecord = HostRecord(inputs: string, graded: int, envelope: Option<Hash>, asset: Asset, status: Status, planned: seq<string>)

  datatype Manifest = Manifest(sessions: seq<int>, files: map<string, Hash>)

  /** The bytes of a file, by what scheck encodes in it; Text is anything else. */
  datatype Content = EnvJson(env: Envelope) | RecJson(rec: HostRecord) | ManJson(manifest: Manifest) | Text(bytes: string)

  /** The sha256 of a file's bytes, taken as injective. */
  datatype Hash = Sha(content: Content)

  const RUN_JSON := "run.json"

  function FileChar(c: char): char {
    if 'a' <= c <= 'z' || '0' <= c <= '9' || c == '-' || c == '.' then c else '_'
  }

  /** An asset name, which may be an id, as a file name. */
  function FileName(name: string): (s: string)
    ensures |s| == |name|
  {
    seq(|name|, i requires 0 <= i < |name| => FileChar(name[i]))
  }

  function EnvFile(name: string): string { "evidence/" + FileName(name) + ".json" }
  function RecFile(name: string): string { "evidence/" + FileName(name) + ".collection.json" }

  lemma FilesApart(name: string)
    ensures EnvFile(name) != RecFile(name) && EnvFile(name) != RUN_JSON && RecFile(name) != RUN_JSON
  {
    assert |EnvFile(name)| + 11 == |RecFile(name)|;
    assert EnvFile(name)[0] == 'e' && RecFile(name)[0] == 'e' && RUN_JSON[0] == 'r';
  }

  // ----- age -----

  const MAX_KEPT := 7 * 24 * 3600 * 1_000_000_000
  const MAX_DURATION := 0x7fff_ffff_ffff_ffff

  /** time.Time.Sub in nanoseconds, which saturates. */
  function Sub(a: int, b: int): int {
    if a - b > MAX_DURATION then MAX_DURATION else if a - b < -MAX_DURATION - 1 then -MAX_DURATION - 1 else a - b
  }

  /** Instant 0 is the zero time: no recorded collection time. */
  predicate KeptFresh(t: int, session: int) { t != 0 && 0 <= Sub(session, t) < MAX_KEPT }

  /** The saturation never makes an old observation look young. */
  lemma KeptFreshExactly(t: int, session: int)
    ensures KeptFresh(t, session) <==> t != 0 && t <= session < t + 7 * 86_400_000_000_000
  {
  }

  // ----- sessions -----

  /** One call of recordHost. */
  datatype Call = Call(asset: Asset, env: Envelope, inputs: string, graded: int, status: Status, planned: seq<string>)

  datatype Task = Plain(name: string, content: Content) | Host(call: Call) | SaveOnly

  datatype Effect = WriteFile(name: string, content: Content) | Remember(name: string, content: Content) | WriteRecord | RememberRecord | Save

  /** What the code does for a task, one atomic effect after another. */
  function Effects(t: Task): seq<Effect> {
    match t
    case Plain(n, c) => [WriteFile(n, c), Remember(n, c), Save]
    case Host(call) =>
      [WriteFile(EnvFile(call.asset.name), EnvJson(call.env)), Remember(EnvFile(call.asset.name), EnvJson(call.env)), Save,
       WriteRecord, RememberRecord, Save]
    case SaveOnly => [Save]
  }

  /** A live session: what it loaded, its manifest in memory, and how far its current task is. */
  datatype Session = Session(start: int, prior: Option<Manifest>, manifest: Manifest, task: Task, pc: nat)

  /** calls are all the recordHost calls ever begun. */
  datatype State = State(files: map<string, Content>, session: Option<Session>, calls: seq<Call>)

  datatype Event =
    | OpenNew(start: int)
    | OpenResume(start: int)
    | Begin(task: Task)
    | Advance
    | Abort
    | Die
    | Tamper(name: string, content: Option<Content>)

  predicate Idle(s: Session) { s.pc >= |Effects(s.task)| }

  /** Only recordHost writes records, and only saveManifest writes run.json. */
  predicate TaskFits(t: Task) { t.Plain? ==> t.name != RUN_JSON && !t.content.RecJson? }

  predicate Enabled(s: State, e: Event) {
    match e
    case OpenNew(_) => s.session.None? && RUN_JSON !in s.files
    case OpenResume(_) => s.session.None? && RUN_JSON in s.files && s.files[RUN_JSON].ManJson?
    case Begin(t) => s.session.Some? && Idle(s.session.value) && TaskFits(t)
    case Advance => s.session.Some? && !Idle(s.session.value)
    case Abort => s.session.Some?
    case Die => true
    case Tamper(name, _) => name != RUN_JSON
  }

  function Find(files: map<string, Hash>, name: string): Option<Hash> { if name in files then Some(files[name]) else None }

  /** The record as the code builds it: it names the envelope's hash the manifest in memory holds. */
  function RecordNow(call: Call, m: Manifest): HostRecord {
    HostRecord(call.inputs, call.graded, Find(m.files, EnvFile(call.asset.name)), call.asset, call.status, call.planned)
  }

  function Remembered(m: Manifest, name: string, c: Content): Manifest { m.(files := m.files[name := Sha(c)]) }

  function Advanced(st: State): State
    requires Enabled(st, Advance)
  {
    var s := st.session.value;
    var s' := s.(pc := s.pc + 1);
    match Effects(s.task)[s.pc]
    case WriteFile(n, c) => st.(files := st.files[n := c], session := Some(s'))
    case Remember(n, c) => st.(session := Some(s'.(manifest := Remembered(s.manifest, n, c))))
    case WriteRecord =>
      if !s.task.Host? then st
      else st.(files := st.files[RecFile(s.task.call.asset.name) := RecJson(RecordNow(s.task.call, s.manifest))], session := Some(s'))
    case RememberRecord =>
      if !s.task.Host? then st
      else st.(session := Some(s'.(manifest := Remembered(s.manifest, RecFile(s.task.call.asset.name), RecJson(RecordNow(s.task.call, s.manifest))))))
    case Save => st.(files := st.files[RUN_JSON := ManJson(s.manifest)], session := Some(s'))
  }

  function Opened(m: Manifest, start: int): Manifest { m.(sessions := m.sessions + [start]) }

  function Next(s: State, e: Event): State
    requires Enabled(s, e)
  {
    match e
    case OpenNew(t) => s.(session := Some(Session(t, None, Opened(Manifest([], map[]), t), SaveOnly, 0)))
    case OpenResume(t) =>
      var m := s.files[RUN_JSON].manifest;
      s.(session := Some(Session(t, Some(m), Opened(m, t), SaveOnly, 0)))
    case Begin(t) =>
      s.(session := Some(s.session.value.(task := t, pc := 0)), calls := if t.Host? then s.calls + [t.call] else s.calls)
    case Advance => Advanced(s)
    case Abort => s.(session := Some(s.session.value.(task := SaveOnly, pc := 1)))
    case Die => s.(session := None)
    case Tamper(name, content) => s.(files := if content.Some? then s.files[name := content.value] else s.files - {name})
  }

  const Start := State(map[], None, [])

  predicate Step(s: State, e: Event, s': State) { Enabled(s, e) && s' == Next(s, e) }

  /** A run of any number of sessions: states from an empty directory, each an event after the last. */
  ghost predicate Run(trace: seq<State>, events: seq<Event>) {
    |trace| == |events| + 1 && trace[0] == Start && forall i :: 0 <= i < |events| ==> Step(trace[i], events[i], trace[i + 1])
  }

  // ----- what every run keeps -----

  /** The record of a call that named its own envelope. */
  function RecordOf(call: Call): HostRecord {
    HostRecord(call.inputs, call.graded, Some(Sha(EnvJson(call.env))), call.asset, call.status, call.planned)
  }

  /** A hash of a record in a manifest is of the record one call wrote, which names the envelope that same call wrote. */
  ghost predicate Vouched(calls: seq<Call>, h: Hash) {
    h.content.RecJson? ==> exists k :: 0 <= k < |calls| && h.content.rec == RecordOf(calls[k])
  }

  ghost predicate ManifestOk(calls: seq<Call>, m: Manifest) { forall f :: f in m.files ==> Vouched(calls, m.files[f]) }

  /** Between the envelope's hash and the record's, the manifest in memory holds this call's envelope. */
  ghost predicate TaskOk(calls: seq<Call>, s: Session) {
    TaskFits(s.task) &&
    (s.task.Host? ==>
      s.task.call in calls &&
      (2 <= s.pc <= 4 ==> Find(s.manifest.files, EnvFile(s.task.call.asset.name)) == Some(Sha(EnvJson(s.task.call.env)))))
  }

  ghost predicate SessionOk(calls: seq<Call>, s: Session) {
    ManifestOk(calls, s.manifest) && (s.prior.Some? ==> ManifestOk(calls, s.prior.value)) && TaskOk(calls, s)
  }

  ghost predicate Inv(s: State) {
    (RUN_JSON in s.files ==> s.files[RUN_JSON].ManJson? && ManifestOk(s.calls, s.files[RUN_JSON].manifest)) &&
    (s.session.Some? ==> SessionOk(s.calls, s.session.value))
  }

  lemma VouchedMore(calls: seq<Call>, more: seq<Call>, h: Hash)
    requires Vouched(calls, h)
    ensures Vouched(calls + more, h)
  {
    if h.content.RecJson? {
      var k :| 0 <= k < |calls| && h.content.rec == RecordOf(calls[k]);
      assert (calls + more)[k] == calls[k];
    }
  }

  lemma ManifestMore(calls: seq<Call>, more: seq<Call>, m: Manifest)
    requires ManifestOk(calls, m)
    ensures ManifestOk(calls + more, m)
  {
    forall f | f in m.files ensures Vouched(calls + more, m.files[f]) { VouchedMore(calls, more, m.files[f]); }
  }

  lemma RecordVouched(calls: seq<Call>, s: Session)
    requires TaskOk(calls, s) && s.task.Host? && s.pc == 4
    ensures RecordNow(s.task.call, s.manifest) == RecordOf(s.task.call)
    ensures Vouched(calls, Sha(RecJson(RecordNow(s.task.call, s.manifest))))
  {
    hide EnvFile;
    var k :| 0 <= k < |calls| && calls[k] == s.task.call;
  }

  lemma AdvanceKeeps(st: State)
    requires Inv(st) && Enabled(st, Advance)
    ensures Inv(Advanced(st))
  {
    hide Vouched, EnvFile, RecFile;
    var s := st.session.value;
    if s.task.Host? {
      FilesApart(s.task.call.asset.name);
      if s.pc == 4 { RecordVouched(st.calls, s); }
    }
    PlainVouched(st.calls);
  }

  lemma PlainVouched(calls: seq<Call>)
    ensures forall c: Content :: !c.RecJson? ==> Vouched(calls, Sha(c))
  {
  }

  lemma BeginKeeps(st: State, t: Task)
    requires Inv(st) && Enabled(st, Begin(t))
    ensures Inv(Next(st, Begin(t)))
  {
    hide Vouched, Effects;
    var more := if t.Host? then [t.call] else [];
    var s := st.session.value;
    assert Next(st, Begin(t)).calls == st.calls + more;
    ManifestMore(st.calls, more, s.manifest);
    if s.prior.Some? { ManifestMore(st.calls, more, s.prior.value); }
    if RUN_JSON in st.files { ManifestMore(st.calls, more, st.files[RUN_JSON].manifest); }
    if t.Host? { assert (st.calls + more)[|st.calls|] == t.call; }
  }

  lemma StepKeeps(s: State, e: Event, s': State)
    requires Inv(s) && Step(s, e, s')
    ensures Inv(s') && s.calls <= s'.calls
  {
    match e
    case Advance => AdvanceKeeps(s);
    case Begin(t) => BeginKeeps(s, t);
    case _ => hide Vouched, Effects;
  }

  /** Whatever sessions do, wherever they die, and whatever happens to the other files. */
  lemma {:induction false} RunKeeps(trace: seq<State>, events: seq<Event>)
    requires Run(trace, events)
    ensures forall i :: 0 <= i < |trace| ==> Inv(trace[i])
  {
    hide Inv, Next, Enabled;
    if events == [] {
      StartOk();
    } else {
      var n := |events| - 1;
      RunKeeps(trace[..n + 1], events[..n]);
      assert trace[..n + 1][n] == trace[n];
      StepKeeps(trace[n], events[n], trace[n + 1]);
      forall i | 0 <= i < |trace| ensures Inv(trace[i]) {
        if i <= n { assert trace[..n + 1][i] == trace[i]; }
      }
    }
  }

  lemma StartOk()
    ensures Inv(Start)
  {
  }

  // ----- what may be kept -----

  const ZERO_RECORD := HostRecord("", 0, None, Asset("", "", ""), NotCollected, [])

  /** Unmarshalling ignores what it does not know: another document reads as an empty record, other bytes as none. */
  function RecordIn(c: Content): Option<HostRecord> { match c case RecJson(r) => Some(r) case Text(_) => None case _ => Some(ZERO_RECORD) }

  function EnvelopeIn(c: Content): Option<Envelope> { match c case EnvJson(e) => Some(e) case Text(_) => None case _ => Some(Envelope(0, "")) }

  /** keptHost: the pair it keeps, if any. */
  function Kept(st: State, a: Asset, inputs: string): Option<(HostRecord, Envelope)> {
    var envFile, recFile := EnvFile(a.name), RecFile(a.name);
    if st.session.None? || st.session.value.prior.None? || inputs == "" || envFile !in st.files || recFile !in st.files then None
    else
      var files, raw, recRaw := st.session.value.prior.value.files, st.files[envFile], st.files[recFile];
      if RecordIn(recRaw).None? || EnvelopeIn(raw).None? then None
      else
        var rec, env := RecordIn(recRaw).value, EnvelopeIn(raw).value;
        if Find(files, recFile) == Some(Sha(recRaw)) &&
           rec.inputs == inputs && rec.status == Collected && rec.asset == a &&
           rec.envelope.Some? && rec.envelope == Find(files, envFile) && rec.envelope == Some(Sha(raw)) &&
           KeptFresh(env.started, st.session.value.start)
        then Some((rec, env)) else None
  }

  /** The pair is what one call wrote, in full: its record and its envelope, for this asset, complete, under these inputs. */
  predicate FromCall(call: Call, a: Asset, inputs: string, rec: HostRecord, env: Envelope) {
    rec == RecordOf(call) && env == call.env && call.asset == a && call.inputs == inputs && call.status == Collected
  }

  /**
   * The crash-consistency theorem. In every run of sessions, a pair a session keeps was written by one single recordHost
   * call under the same inputs, of a complete collection that began less than seven days before this session.
   */
  lemma KeptSound(trace: seq<State>, events: seq<Event>, i: nat, a: Asset, inputs: string)
    requires Run(trace, events) && i < |trace| && Kept(trace[i], a, inputs).Some?
    ensures var (rec, env) := Kept(trace[i], a, inputs).value;
      (exists k :: 0 <= k < |trace[i].calls| && FromCall(trace[i].calls[k], a, inputs, rec, env)) &&
      trace[i].files[EnvFile(a.name)] == EnvJson(env) && trace[i].files[RecFile(a.name)] == RecJson(rec) &&
      env.started != 0 && env.started <= trace[i].session.value.start < env.started + MAX_KEPT
  {
    RunKeeps(trace, events);
    KeptFromOne(trace[i], a, inputs);
  }

  lemma KeptFromOne(st: State, a: Asset, inputs: string)
    requires Inv(st) && Kept(st, a, inputs).Some?
    ensures var (rec, env) := Kept(st, a, inputs).value;
      (exists k :: 0 <= k < |st.calls| && FromCall(st.calls[k], a, inputs, rec, env)) &&
      st.files[EnvFile(a.name)] == EnvJson(env) && st.files[RecFile(a.name)] == RecJson(rec) &&
      env.started != 0 && env.started <= st.session.value.start < env.started + MAX_KEPT
  {
    hide EnvFile, RecFile;
    var files := st.session.value.prior.value.files;
    var recFile := RecFile(a.name);
    assert st.files[recFile].RecJson?;
    assert Vouched(st.calls, files[recFile]);
    var k :| 0 <= k < |st.calls| && files[recFile].content.rec == RecordOf(st.calls[k]);
    var (rec, env) := Kept(st, a, inputs).value;
    assert rec == RecordOf(st.calls[k]);
    assert FromCall(st.calls[k], a, inputs, rec, env);
    KeptFreshExactly(env.started, st.session.value.start);
  }

  /** Calls are never taken back or rewritten. */
  lemma {:induction false} CallsOnlyGrow(trace: seq<State>, events: seq<Event>, i: nat, j: nat)
    requires Run(trace, events) && i <= j < |trace|
    ensures trace[i].calls <= trace[j].calls
  {
    hide Next, Enabled;
    if i < j {
      CallsOnlyGrow(trace, events, i, j - 1);
      RunKeeps(trace, events);
      StepKeeps(trace[j - 1], events[j - 1], trace[j]);
    }
  }

  /**
   * Resuming again and again never stretches the age: a call whose pair a session kept can still be kept later only
   * within seven days of its own collection, however many sessions kept it in between.
   */
  lemma AgeNeverStretches(trace: seq<State>, events: seq<Event>, i: nat, j: nat, a: Asset, inputs: string)
    requires Run(trace, events) && i <= j < |trace| && Kept(trace[i], a, inputs).Some? && Kept(trace[j], a, inputs) == Kept(trace[i], a, inputs)
    ensures trace[j].session.value.start - trace[i].session.value.start < MAX_KEPT
    ensures trace[i].calls <= trace[j].calls
    ensures var (rec, env) := Kept(trace[j], a, inputs).value;
      exists k :: 0 <= k < |trace[i].calls| && FromCall(trace[i].calls[k], a, inputs, rec, env) &&
                  trace[j].session.value.start < trace[i].calls[k].env.started + MAX_KEPT
  {
    hide Kept, Run;
    KeptSound(trace, events, i, a, inputs);
    KeptSound(trace, events, j, a, inputs);
    CallsOnlyGrow(trace, events, i, j);
  }

  // ----- the code -----

  lemma RunLength(trace: seq<State>, events: seq<Event>)
    requires Run(trace, events)
    ensures |trace| == |events| + 1
  {
  }

  lemma RunGrows(trace: seq<State>, events: seq<Event>, e: Event, s: State)
    requires Run(trace, events) && Step(trace[|events|], e, s)
    ensures Run(trace + [s], events + [e])
  {
    hide Step;
    var t, es := trace + [s], events + [e];
    forall i | 0 <= i < |es| ensures Step(t[i], es[i], t[i + 1]) {
      if i < |events| { assert t[i] == trace[i] && t[i + 1] == trace[i + 1] && es[i] == events[i]; }
    }
  }

  /** Any point of a run may be its last: the session dies there, and the run goes on from what is on disk. */
  lemma MayDieAnywhere(trace: seq<State>, events: seq<Event>, i: nat)
    requires Run(trace, events) && i < |trace|
    ensures Run(trace[..i + 1] + [Next(trace[i], Die)], events[..i] + [Die])
  {
    hide Next;
    assert Step(trace[i], Die, Next(trace[i], Die));
    hide Step;
    forall k | 0 <= k < i ensures Step(trace[..i + 1][k], events[..i][k], trace[..i + 1][k + 1]) {
      assert Step(trace[k], events[k], trace[k + 1]);
    }
    RunGrows(trace[..i + 1], events[..i], Die, Next(trace[i], Die));
  }

  /**
   * The run directory and the session working in it. Every atomic effect of the methods is a state of the trace, so a
   * session that dies inside one of them leaves a state of the trace.
   */
  class RunDir {
    var files: map<string, Content>
    var open: bool
    var start: int
    var prior: Option<Manifest>
    var manifest: Manifest
    ghost var task: Task
    ghost var pc: nat
    ghost var calls: seq<Call>
    ghost var trace: seq<State>
    ghost var events: seq<Event>

    ghost function Now(): State
      reads this
    {
      State(files, if open then Some(Session(start, prior, manifest, task, pc)) else None, calls)
    }

    ghost predicate Valid() reads this { Run(trace, events) && trace[|events|] == Now() }

    ghost predicate Ready() reads this { Valid() && open && pc >= |Effects(task)| }

    constructor ()
      ensures Valid() && !open && files == map[] && calls == []
    {
      files, open, start, prior, manifest := map[], false, 0, None, Manifest([], map[]);
      task, pc, calls, trace, events := SaveOnly, 0, [], [Start], [];
    }

    /** The state after an effect joins the trace. */
    ghost method Note(e: Event)
      requires Run(trace, events) && Step(trace[|events|], e, Now())
      modifies this`trace, this`events
      ensures Valid() && events == old(events) + [e] && old(trace) <= trace
    {
      RunGrows(trace, events, e, Now());
      trace, events := trace + [Now()], events + [e];
    }

    /** openManifest: a new run's first session, or the next one of a run whose manifest can be read. */
    method OpenManifest(at: int, resume: bool) returns (ok: bool)
      requires Valid() && !open && (!resume ==> RUN_JSON !in files)
      modifies this
      ensures ok <==> !resume || (RUN_JSON in old(files) && old(files)[RUN_JSON].ManJson?)
      ensures if ok then Ready() else Valid() && Now() == old(Now())
      ensures ok ==> start == at && calls == old(calls)
      ensures ok ==> prior == if resume then Some(old(files)[RUN_JSON].manifest) else None
      ensures ok ==> files == old(files)[RUN_JSON := ManJson(manifest)] && old(trace) <= trace
    {
      hide Run;
      if resume {
        if RUN_JSON !in files { return false; }
        match files[RUN_JSON] {
          case ManJson(m) => prior, manifest := Some(m), m;
          case _ => return false;
        }
      } else {
        prior, manifest := None, Manifest([], map[]);
      }
      manifest := manifest.(sessions := manifest.sessions + [at]);
      start, open := at, true;
      task, pc := SaveOnly, 0;
      Note(if resume then OpenResume(at) else OpenNew(at));
      SaveManifest();
      ok := true;
    }

    /** saveManifest: one atomic replace of run.json. */
    method SaveManifest()
      requires Valid() && open && pc < |Effects(task)| && Effects(task)[pc] == Save
      modifies this`files, this`pc, this`trace, this`events
      ensures Valid() && pc == old(pc) + 1 && files == old(files)[RUN_JSON := ManJson(manifest)] && old(trace) <= trace
    {
      hide Run;
      files := files[RUN_JSON := ManJson(manifest)];
      pc := pc + 1;
      Note(Advance);
    }

    /** The task writes this content to this file next, and remembers it after that. */
    ghost predicate Due(name: string, content: Content)
      reads this
    {
      pc + 2 < |Effects(task)| && Effects(task)[pc + 2] == Save &&
      ((Effects(task)[pc] == WriteFile(name, content) && Effects(task)[pc + 1] == Remember(name, content)) ||
       (Effects(task)[pc] == WriteRecord && Effects(task)[pc + 1] == RememberRecord && task.Host? &&
        name == RecFile(task.call.asset.name) && content == RecJson(RecordNow(task.call, manifest))))
    }

    /** write: the file, then its hash in memory, then run.json. */
    method Write(name: string, content: Content)
      requires Valid() && open && Due(name, content)
      modifies this`files, this`manifest, this`pc, this`trace, this`events
      ensures Valid() && pc == old(pc) + 3 && old(trace) <= trace
      ensures manifest == Remembered(old(manifest), name, content)
      ensures files == old(files)[name := content][RUN_JSON := ManJson(manifest)]
    {
      hide Run, Effects, EnvFile, RecFile;
      Replace(name, content);
      manifest := manifest.(files := manifest.files[name := Sha(content)]);
      pc := pc + 1;
      Note(Advance);
      SaveManifest();
    }

    /** One atomic replace of a file. */
    method Replace(name: string, content: Content)
      requires Valid() && open && Due(name, content)
      modifies this`files, this`pc, this`trace, this`events
      ensures Valid() && pc == old(pc) + 1 && old(trace) <= trace && files == old(files)[name := content]
    {
      hide Run, Effects, EnvFile, RecFile, RecordNow;
      files := files[name := content];
      pc := pc + 1;
      Note(Advance);
    }

    /** A stage's own file. */
    method WriteStage(name: string, content: Content)
      requires Ready() && name != RUN_JSON && !content.RecJson?
      modifies this
      ensures Ready() && old(trace) <= trace && calls == old(calls) && start == old(start) && prior == old(prior)
      ensures manifest == Remembered(old(manifest), name, content)
      ensures files == old(files)[name := content][RUN_JSON := ManJson(manifest)]
    {
      hide Run;
      task, pc := Plain(name, content), 0;
      Note(Begin(task));
      Write(name, content);
    }

    /** recordHost: the envelope, then the record, which names the hash the manifest holds for the envelope. */
    method RecordHost(call: Call)
      requires Ready()
      modifies this
      ensures Ready() && old(trace) <= trace && calls == old(calls) + [call] && start == old(start) && prior == old(prior)
      ensures EnvFile(call.asset.name) in files && files[EnvFile(call.asset.name)] == EnvJson(call.env)
      ensures RecFile(call.asset.name) in files && files[RecFile(call.asset.name)] == RecJson(RecordOf(call))
      ensures RUN_JSON in files && files[RUN_JSON] == ManJson(manifest)
      ensures manifest == Remembered(Remembered(old(manifest), EnvFile(call.asset.name), EnvJson(call.env)),
                                     RecFile(call.asset.name), RecJson(RecordOf(call)))
    {
      hide Run, EnvFile, RecFile;
      FilesApart(call.asset.name);
      var envFile, recFile := EnvFile(call.asset.name), RecFile(call.asset.name);
      WriteEnvelope(call);
      var rec := HostRecord(call.inputs, call.graded, Find(manifest.files, envFile), call.asset, call.status, call.planned);
      assert rec == RecordNow(call, manifest) == RecordOf(call);
      hide RecordNow, RecordOf;
      Write(recFile, RecJson(rec));
    }

    /** The first half of recordHost. */
    method WriteEnvelope(call: Call)
      requires Ready()
      modifies this
      ensures Valid() && open && task == Host(call) && pc == 3
      ensures old(trace) <= trace && calls == old(calls) + [call] && start == old(start) && prior == old(prior)
      ensures manifest == Remembered(old(manifest), EnvFile(call.asset.name), EnvJson(call.env))
      ensures files == old(files)[EnvFile(call.asset.name) := EnvJson(call.env)][RUN_JSON := ManJson(manifest)]
    {
      hide Run, EnvFile, RecFile;
      task, pc, calls := Host(call), 0, calls + [call];
      Note(Begin(task));
      Write(EnvFile(call.asset.name), EnvJson(call.env));
    }

    /** keptHost: reads only, and what it keeps is one call's pair, young enough for this session. */
    method KeptHost(a: Asset, inputs: string) returns (r: Option<(HostRecord, Envelope)>)
      requires Valid() && open
      ensures r == Kept(Now(), a, inputs)
      ensures r.Some? ==> exists k :: 0 <= k < |calls| && FromCall(calls[k], a, inputs, r.value.0, r.value.1)
      ensures r.Some? ==> r.value.1.started <= start < r.value.1.started + MAX_KEPT
    {
      hide Run, EnvFile, RecFile, KeptFresh;
      if prior == None || inputs == "" { return None; }
      var envFile, recFile := EnvFile(a.name), RecFile(a.name);
      if envFile !in files || recFile !in files { return None; }
      var raw, recRaw := files[envFile], files[recFile];
      var rec, env := RecordIn(recRaw), EnvelopeIn(raw);
      if rec == None || env == None { return None; }
      if Find(prior.value.files, recFile) != Some(Sha(recRaw)) ||
         rec.value.inputs != inputs || rec.value.status != Collected || rec.value.asset != a ||
         rec.value.envelope == None || rec.value.envelope != Find(prior.value.files, envFile) ||
         rec.value.envelope != Some(Sha(raw))
      {
        return None;
      }
      if !KeptFresh(env.value.started, start) { return None; }
      r := Some((rec.value, env.value));
      RunLength(trace, events);
      KeptSound(trace, events, |events|, a, inputs);
    }
  }

  // ----- kept requests -----

  /** Every earlier success falls in one class: kept, without a time, from the future, or too old. */
  datatype Age = Young | Untimed | Future | Old

  function AgeOf(t: int, session: int): (a: Age)
    ensures a == Young <==> KeptFresh(t, session)
    ensures a == Old <==> t != 0 && t + MAX_KEPT <= session
    ensures a == Untimed <==> t == 0
    ensures a == Future <==> t != 0 && t > session
  {
    if KeptFresh(t, session) then Young else if t == 0 then Untimed else if t > session then Future else Old
  }

  /** The keys of a class; an entry without a value is in none. */
  ghost function OfAge(prior: map<string, Option<int>>, keys: set<string>, session: int, a: Age): set<string> {
    set k | k in keys && k in prior && prior[k].Some? && AgeOf(prior[k].value, session) == a
  }

  lemma OfAgeNone(prior: map<string, Option<int>>, session: int, a: Age)
    ensures OfAge(prior, {}, session, a) == {}
  {
  }

  predicate IsAge(prior: map<string, Option<int>>, session: int, a: Age, k: string) {
    k in prior && prior[k].Some? && AgeOf(prior[k].value, session) == a
  }

  lemma OfAgeGrows(prior: map<string, Option<int>>, keys: set<string>, session: int, a: Age, k: string)
    ensures OfAge(prior, keys + {k}, session, a) == OfAge(prior, keys, session, a) + (if IsAge(prior, session, a, k) then {k} else {})
  {
    hide AgeOf;
  }

  lemma OfAgeCount(prior: map<string, Option<int>>, keys: set<string>, session: int, a: Age, k: string)
    requires k !in keys
    ensures |OfAge(prior, keys + {k}, session, a)| == |OfAge(prior, keys, session, a)| + (if IsAge(prior, session, a, k) then 1 else 0)
  {
    hide AgeOf, IsAge;
    OfAgeGrows(prior, keys, session, a, k);
  }

  datatype Tally = Tally(kept: map<string, Option<int>>, tooOld: nat, untimed: nat, later: nat)

  /** Exactly the young successes among keys are kept, as they were, and every other one is counted once, by its reason. */
  ghost predicate Tallied(prior: map<string, Option<int>>, keys: set<string>, session: int, t: Tally) {
    t.kept.Keys == OfAge(prior, keys, session, Young) && (forall k :: k in t.kept ==> k in prior && t.kept[k] == prior[k]) &&
    t.tooOld == |OfAge(prior, keys, session, Old)| &&
    t.untimed == |OfAge(prior, keys, session, Untimed)| &&
    t.later == |OfAge(prior, keys, session, Future)|
  }

  function Counted(prior: map<string, Option<int>>, session: int, t: Tally, k: string): Tally
    requires k in prior
  {
    if prior[k].None? then t
    else match AgeOf(prior[k].value, session)
      case Young => t.(kept := t.kept[k := prior[k]])
      case Untimed => t.(untimed := t.untimed + 1)
      case Future => t.(later := t.later + 1)
      case Old => t.(tooOld := t.tooOld + 1)
  }

  lemma TallyGrows(prior: map<string, Option<int>>, keys: set<string>, session: int, t: Tally, k: string)
    requires Tallied(prior, keys, session, t) && k in prior && k !in keys
    ensures Tallied(prior, keys + {k}, session, Counted(prior, session, t, k))
  {
    hide AgeOf, OfAge;
    OfAgeCount(prior, keys, session, Old, k);
    OfAgeCount(prior, keys, session, Untimed, k);
    OfAgeCount(prior, keys, session, Future, k);
    KeptGrows(prior, keys, session, t, k);
  }

  lemma KeptGrows(prior: map<string, Option<int>>, keys: set<string>, session: int, t: Tally, k: string)
    requires t.kept.Keys == OfAge(prior, keys, session, Young) && k in prior
    ensures Counted(prior, session, t, k).kept.Keys == OfAge(prior, keys + {k}, session, Young)
  {
    hide AgeOf, OfAge;
    OfAgeGrows(prior, keys, session, Young, k);
  }

  lemma TallyStarts(prior: map<string, Option<int>>, session: int)
    ensures Tallied(prior, {}, session, Tally(map[], 0, 0, 0))
  {
    hide OfAge;
    OfAgeNone(prior, session, Young);
    OfAgeNone(prior, session, Old);
    OfAgeNone(prior, session, Untimed);
    OfAgeNone(prior, session, Future);
  }

  /** freshRequests, over the earlier successes in any order. */
  method FreshRequests(prior: map<string, Option<int>>, session: int) returns (t: Tally)
    ensures Tallied(prior, prior.Keys, session, t)
  {
    hide Tallied, AgeOf;
    t := Tally(map[], 0, 0, 0);
    TallyStarts(prior, session);
    var todo := prior.Keys;
    ghost var done: set<string> := {};
    while todo != {}
      invariant todo + done == prior.Keys && todo !! done
      invariant Tallied(prior, done, session, t)
      decreases todo
    {
      var k :| k in todo;
      TallyGrows(prior, done, session, t, k);
      if prior[k].Some? {
        match AgeOf(prior[k].value, session) {
          case Young => t := t.(kept := t.kept[k := prior[k]]);
          case Untimed => t := t.(untimed := t.untimed + 1);
          case Future => t := t.(later := t.later + 1);
          case Old => t := t.(tooOld := t.tooOld + 1);
        }
      }
      todo, done := todo - {k}, done + {k};
    }
    assert done == prior.Keys;
  }
}
