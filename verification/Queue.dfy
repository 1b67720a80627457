/** The findings queue: what a recorded run, a person and a notifier each do to a task
    (hotelcontrols/store/sqlite.py, hotelcontrols/actions/records.py). A task is identified by its
    natural key; its id is a digest of that key. */
module Queue {
  import opened Basics
  import opened Runs

  datatype State = Pending | Finished | Dismissed

  datatype Key = Key(tenant: string, control: string, version: int, record: string)

  /** What a task says about its failure, copied when it is raised and never changed. */
  datatype About = About(
    controlName: string,
    policyDigest: string,
    severity: string,
    audience: Option<string>,
    kind: string,
    reason: string,
    asOf: string,
    provider: string,
    evidenceLabel: string)

  datatype Finding = Finding(key: Key, about: About, run: RunId, at: int)

  datatype Clearance = Clearance(run: RunId, at: int, asOf: string)

  datatype Move = Move(at: int, actor: string)

  datatype Notice = Notice(at: int, via: string)

  datatype Task = Task(
    key: Key,
    about: About,
    raisedBy: RunId,
    raisedAt: int,
    state: State,
    moved: Option<Move>,
    lastFailingRun: RunId,
    lastFailingAt: int,
    cleared: Option<Clearance>,
    notice: Option<Notice>,
    note: Option<string>)

  type Tasks = map<Key, Task>

  /** What one run says to the queue. */
  datatype Batch = Batch(run: RunId, tenant: string, control: string, version: int, at: int, asOf: string,
                         failing: seq<Finding>, passing: seq<string>)

  function BatchKey(b: Batch, record: string): Key
  {
    Key(b.tenant, b.control, b.version, record)
  }

  // ------------------------------------------------------------------ from a run to its findings
  datatype Refusal = WrongControl | WrongVersion | WrongDigest | Unsaved | FailWithoutRecord

  /** The rule that judged a run, as far as its findings need it. */
  datatype RuleInfo = RuleInfo(control: string, version: int, digest: string, severity: string,
                               audience: Option<string>, kind: string)

  function FindingOf(run: Run, rule: RuleInfo, id: RunId, v: Verdict): Finding
  {
    Finding(Key(run.tenant, run.control, rule.version, if v.record.Some? then v.record.value else ""),
            About(run.controlName, rule.digest, rule.severity, rule.audience, rule.kind, v.reason, run.asOf,
              run.provider, run.evidenceLabel),
            id, run.createdAt)
  }

  /** A finding, part by part: whose it is from the run, under what from the rule, about which record
      and why from the verdict. */
  predicate FindingSays(run: Run, rule: RuleInfo, id: RunId, v: Verdict, f: Finding)
  {
    && f.key.tenant == run.tenant && f.key.control == run.control && f.key.version == rule.version
    && (v.record.Some? ==> f.key.record == v.record.value) && (v.record.None? ==> f.key.record == "")
    && f.about.controlName == run.controlName && f.about.policyDigest == rule.digest
    && f.about.severity == rule.severity && f.about.audience == rule.audience && f.about.kind == rule.kind
    && f.about.reason == v.reason
    && f.about.asOf == run.asOf && f.about.provider == run.provider && f.about.evidenceLabel == run.evidenceLabel
    && f.run == id && f.at == run.createdAt
  }

  lemma FindingMeans(run: Run, rule: RuleInfo, id: RunId, v: Verdict, f: Finding)
    ensures f == FindingOf(run, rule, id, v) <==> FindingSays(run, rule, id, v, f)
  {
  }

  /** What a batch says of a run's verdicts: a finding for each FAIL and no other, a pass for each named
      PASS and no other. */
  ghost predicate BatchSays(run: Run, rule: RuleInfo, id: RunId, failing: seq<Finding>, passing: seq<string>)
  {
    && (forall f :: f in failing <==>
          exists i :: 0 <= i < |run.verdicts| && run.verdicts[i].outcome.FAIL?
            && FindingSays(run, rule, id, run.verdicts[i], f))
    && (forall r :: r in passing <==>
          exists i :: 0 <= i < |run.verdicts| && run.verdicts[i].outcome.PASS?
            && r != "" && run.verdicts[i].record == Some(r))
  }

  lemma BatchMeans(run: Run, rule: RuleInfo, id: RunId)
    ensures BatchSays(run, rule, id, Failing(run, rule, id, run.verdicts), Passing(run.verdicts))
  {
    hide FindingOf, FindingSays;
    FindingsSay(run, rule, id, run.verdicts);
    forall f, i | 0 <= i < |run.verdicts|
      ensures f == FindingOf(run, rule, id, run.verdicts[i]) <==> FindingSays(run, rule, id, run.verdicts[i], f)
    {
      FindingMeans(run, rule, id, run.verdicts[i], f);
    }
  }

  predicate Nameless(record: Option<string>)
  {
    record.None? || record.value == ""
  }

  function Failing(run: Run, rule: RuleInfo, id: RunId, vs: seq<Verdict>): seq<Finding>
  {
    if vs == [] then []
    else
      var v := vs[|vs| - 1];
      Failing(run, rule, id, vs[..|vs| - 1]) + if v.outcome.FAIL? then [FindingOf(run, rule, id, v)] else []
  }

  function Passing(vs: seq<Verdict>): seq<string>
  {
    if vs == [] then []
    else
      var v := vs[|vs| - 1];
      Passing(vs[..|vs| - 1]) + if v.outcome.PASS? && !Nameless(v.record) then [v.record.value] else []
  }

  predicate NamelessFail(vs: seq<Verdict>)
  {
    exists i :: 0 <= i < |vs| && vs[i].outcome.FAIL? && Nameless(vs[i].record)
  }

  /** A FAIL of no record that can be named. */
  predicate FailsNobody(v: Verdict)
  {
    v.outcome.FAIL? && (v.record == None || v.record == Some(""))
  }

  lemma NamelessMeans(vs: seq<Verdict>)
    ensures NamelessFail(vs) <==> exists v :: v in vs && FailsNobody(v)
  {
    if v :| v in vs && FailsNobody(v) {
      var i :| 0 <= i < |vs| && vs[i] == v;
    }
    if i :| 0 <= i < |vs| && vs[i].outcome.FAIL? && Nameless(vs[i].record) {
      assert vs[i] in vs && FailsNobody(vs[i]);
    }
  }

  predicate HasId(run: Run)
  {
    run.id.Some? && run.id.value != Given("")
  }

  /** A batch as one run makes it: every finding in it is that run's. */
  predicate Uniform(b: Batch)
  {
    forall f :: f in b.failing ==> f.key == BatchKey(b, f.key.record) && f.run == b.run && f.at == b.at
  }

  /** `findings_from`: a FAIL makes a finding, a PASS is passed on, nothing else says anything. */
  method FindingsFrom(run: Run, rule: RuleInfo) returns (r: Result<Batch, Refusal>)
    ensures var other := run.control != rule.control;
            var outdated := run.version != Some(rule.version);
            var edited := run.digest != Some(rule.digest);
            var unsaved := run.id.None? || run.id.value == Given("");
            var nameless := exists v :: v in run.verdicts && FailsNobody(v);
            && (r == Err(WrongControl) <==> other)
            && (r == Err(WrongVersion) <==> !other && outdated)
            && (r == Err(WrongDigest) <==> !other && !outdated && edited)
            && (r == Err(Unsaved) <==> !other && !outdated && !edited && unsaved)
            && (r == Err(FailWithoutRecord) <==>
                  !other && !outdated && !edited && !unsaved && run.blocked.None? && nameless)
    ensures r.Ok? ==> Uniform(r.value) && r.value.run == run.id.value && r.value.at == run.createdAt
    ensures r.Ok? ==> (r.value.tenant, r.value.control, r.value.version, r.value.asOf)
                      == (run.tenant, run.control, rule.version, run.asOf)
    ensures r.Ok? && run.blocked.Some? ==> r.value.failing == [] && r.value.passing == []
    ensures r.Ok? && run.blocked.None? ==>
              r.value.failing == Failing(run, rule, run.id.value, run.verdicts)
                && r.value.passing == Passing(run.verdicts)
                && BatchSays(run, rule, run.id.value, r.value.failing, r.value.passing)
  {
    hide BatchSays, FailsNobody;
    NamelessMeans(run.verdicts);
    if run.control != rule.control { return Err(WrongControl); }
    if run.version != Some(rule.version) { return Err(WrongVersion); }
    if run.digest != Some(rule.digest) { return Err(WrongDigest); }
    if !HasId(run) { return Err(Unsaved); }
    var id := run.id.value;
    BatchMeans(run, rule, id);
    var none := Batch(id, run.tenant, run.control, rule.version, run.createdAt, run.asOf, [], []);
    if run.blocked.Some? || !Concluded(run) {
      if !Concluded(run) {
        NothingConcluded(run, rule, id, run.verdicts);
      }
      return Ok(none);
    }
    var failing, passing := [], [];
    for i := 0 to |run.verdicts|
      invariant failing == Failing(run, rule, id, run.verdicts[..i]) && passing == Passing(run.verdicts[..i])
      invariant !NamelessFail(run.verdicts[..i])
    {
      var v := run.verdicts[i];
      assert run.verdicts[..i + 1][..i] == run.verdicts[..i];
      if v.outcome.FAIL? {
        if Nameless(v.record) {
          return Err(FailWithoutRecord);
        }
        failing := failing + [FindingOf(run, rule, id, v)];
      } else if v.outcome.PASS? && !Nameless(v.record) {
        passing := passing + [v.record.value];
      }
    }
    assert run.verdicts[..|run.verdicts|] == run.verdicts;
    FailingIsUniform(run, rule, id, run.verdicts);
    r := Ok(none.(failing := failing, passing := passing));
  }

  /** The findings are the FAILs, each once and in order; the passes are the named PASSes. UNKNOWN
      and EXCLUDED say nothing. */
  lemma {:induction false} FindingsSay(run: Run, rule: RuleInfo, id: RunId, vs: seq<Verdict>)
    ensures forall f :: f in Failing(run, rule, id, vs) <==>
              exists i :: 0 <= i < |vs| && vs[i].outcome.FAIL? && f == FindingOf(run, rule, id, vs[i])
    ensures forall r :: r in Passing(vs) <==>
              exists i :: 0 <= i < |vs| && vs[i].outcome.PASS? && r != "" && vs[i].record == Some(r)
    ensures |Failing(run, rule, id, vs)| + |Passing(vs)| <= |vs|
  {
    hide FindingOf;
    if vs != [] {
      var n := |vs| - 1;
      FindingsSay(run, rule, id, vs[..n]);
      forall f
        ensures f in Failing(run, rule, id, vs) <==>
                  exists i :: 0 <= i < |vs| && vs[i].outcome.FAIL? && f == FindingOf(run, rule, id, vs[i])
      {
        if i :| 0 <= i < n && vs[i].outcome.FAIL? && f == FindingOf(run, rule, id, vs[i]) {
          assert vs[..n][i] == vs[i];
        }
      }
      forall r
        ensures r in Passing(vs) <==>
                  exists i :: 0 <= i < |vs| && vs[i].outcome.PASS? && r != "" && vs[i].record == Some(r)
      {
        if i :| 0 <= i < n && vs[i].outcome.PASS? && r != "" && vs[i].record == Some(r) {
          assert vs[..n][i] == vs[i];
        }
      }
    }
  }

  lemma {:induction false} NothingConcluded(run: Run, rule: RuleInfo, id: RunId, vs: seq<Verdict>)
    requires forall i :: 0 <= i < |vs| ==> !vs[i].outcome.PASS? && !vs[i].outcome.FAIL?
    ensures Failing(run, rule, id, vs) == [] && Passing(vs) == []
  {
    if vs != [] {
      NothingConcluded(run, rule, id, vs[..|vs| - 1]);
    }
  }

  lemma {:induction false} FailingIsUniform(run: Run, rule: RuleInfo, id: RunId, vs: seq<Verdict>)
    ensures forall f :: f in Failing(run, rule, id, vs) ==>
              f.key == Key(run.tenant, run.control, rule.version, f.key.record) && f.run == id && f.at == run.createdAt
  {
    if vs != [] {
      FailingIsUniform(run, rule, id, vs[..|vs| - 1]);
    }
  }

  // ------------------------------------------------------------------ what happens to one task
  function Raised(f: Finding): Task
  {
    Task(f.key, f.about, f.run, f.at, Pending, None, f.run, f.at, None, None, None)
  }

  /** A failure of a task that exists: its receipt, and an annotation it outdates. */
  function FailedAgain(t: Task, f: Finding): Task
  {
    var t1 := if f.at >= t.lastFailingAt then t.(lastFailingRun := f.run, lastFailingAt := f.at) else t;
    if t.cleared.Some? && f.at >= t.cleared.value.at then t1.(cleared := None) else t1
  }

  /** A pass annotates a task it is strictly later than, and never closes it. */
  function PassedSince(t: Task, c: Clearance): Task
  {
    if t.cleared.Some? || c.at <= t.lastFailingAt then t else t.(cleared := Some(c))
  }

  predicate MayMove(from: State, to: State)
  {
    from == Pending && to != Pending
  }

  // ------------------------------------------------------------------ what happens to the queue
  function FailOne(q: Tasks, b: Batch, f: Finding): Option<Tasks>
  {
    if f.key !in q then Some(q[f.key := Raised(f)])
    else
      var k := BatchKey(b, f.key.record);
      if k in q then Some(q[k := FailedAgain(q[k], f)]) else None
  }

  function FailAll(q: Tasks, b: Batch, fs: seq<Finding>): Option<Tasks>
  {
    if fs == [] then Some(q)
    else
      var before := FailAll(q, b, fs[..|fs| - 1]);
      if before.None? then None else FailOne(before.value, b, fs[|fs| - 1])
  }

  function PassOne(q: Tasks, b: Batch, record: string): Tasks
  {
    var k := BatchKey(b, record);
    if k in q then q[k := PassedSince(q[k], Clearance(b.run, b.at, b.asOf))] else q
  }

  function PassAll(q: Tasks, b: Batch, records: seq<string>): Tasks
  {
    if records == [] then q else PassOne(PassAll(q, b, records[..|records| - 1]), b, records[|records| - 1])
  }

  datatype Recording = Kept(tasks: Tasks, created: int) | RefusedBatch | Crashed

  predicate Foreign(b: Batch)
  {
    exists f :: f in b.failing && f.key.tenant != b.tenant
  }

  /** `record_findings`. A finding of another property refuses the whole batch; a finding of another
      rule that meets a task of its own is an error, and the transaction undoes it. */
  function Record(q: Tasks, b: Batch): Recording
  {
    if Foreign(b) then RefusedBatch
    else match FailAll(q, b, b.failing)
      case None => Crashed
      case Some(failed) => Kept(PassAll(failed, b, b.passing), |failed| - |q|)
  }

  datatype Op =
    | Recorded(batch: Batch)
    | Decided(task: Finding)
    | Moved(key: Key, state: State, move: Move)
    | Claimed(key: Key, notice: Notice)
    | Released(key: Key, why: Option<string>)
    | Noted(key: Key, text: string)

  function OnTask(q: Tasks, k: Key, e: Event): Tasks
  {
    if k in q then q[k := Happens(q[k], e)] else q
  }

  /** One write to the queue. */
  function Apply(q: Tasks, op: Op): Tasks
  {
    match op
    case Recorded(b) => if Record(q, b).Kept? then Record(q, b).tasks else q
    case Decided(f) => if f.key in q then q else q[f.key := Raised(f)]
    case Moved(k, state, move) => OnTask(q, k, Transition(state, move))
    case Claimed(k, notice) => OnTask(q, k, Claim(notice))
    case Released(k, why) => OnTask(q, k, Release(why))
    case Noted(k, text) => OnTask(q, k, Remark(text))
  }

  /** What one write does to one task. */
  datatype Event =
    | Fail(f: Finding)
    | Pass(c: Clearance)
    | Raise(f: Finding)
    | Transition(state: State, move: Move)
    | Claim(notice: Notice)
    | Release(why: Option<string>)
    | Remark(text: string)

  function Happens(t: Task, e: Event): Task
  {
    match e
    case Fail(f) => FailedAgain(t, f)
    case Pass(c) => PassedSince(t, c)
    case Raise(_) => t
    case Transition(state, move) => if MayMove(t.state, state) then t.(state := state, moved := Some(move)) else t
    case Claim(notice) => if t.notice.None? then t.(notice := Some(notice), note := None) else t
    case Release(why) => t.(notice := None, note := why)
    case Remark(text) => if t.notice.None? then t.(note := Some(text)) else t
  }

  /** A task, or where it will be, after one event: a failure raises it, nothing else does. */
  function Step(t: Option<Task>, e: Event): Option<Task>
  {
    match t
    case Some(task) => Some(Happens(task, e))
    case None => if e.Fail? || e.Raise? then Some(Raised(e.f)) else None
  }

  function Steps(t: Option<Task>, es: seq<Event>): Option<Task>
  {
    if es == [] then t else Step(Steps(t, es[..|es| - 1]), es[|es| - 1])
  }

  function Get(q: Tasks, k: Key): Option<Task>
  {
    if k in q then Some(q[k]) else None
  }

  function FailsOf(fs: seq<Finding>, k: Key): seq<Event>
  {
    if fs == [] then []
    else FailsOf(fs[..|fs| - 1], k) + if fs[|fs| - 1].key == k then [Fail(fs[|fs| - 1])] else []
  }

  function PassesOf(b: Batch, records: seq<string>, k: Key): seq<Event>
  {
    if records == [] then []
    else
      PassesOf(b, records[..|records| - 1], k)
      + if BatchKey(b, records[|records| - 1]) == k then [Pass(Clearance(b.run, b.at, b.asOf))] else []
  }

  /** What a write means for the task with this key. */
  function EventsOf(op: Op, k: Key): seq<Event>
  {
    match op
    case Recorded(b) => FailsOf(b.failing, k) + PassesOf(b, b.passing, k)
    case Decided(f) => if f.key == k then [Raise(f)] else []
    case Moved(key, state, move) => if key == k then [Transition(state, move)] else []
    case Claimed(key, notice) => if key == k then [Claim(notice)] else []
    case Released(key, why) => if key == k then [Release(why)] else []
    case Noted(key, text) => if key == k then [Remark(text)] else []
  }

  lemma {:induction false} StepsAppend(t: Option<Task>, a: seq<Event>, b: seq<Event>)
    ensures Steps(t, a + b) == Steps(Steps(t, a), b)
  {
    hide Step;
    if b == [] {
      assert a + b == a;
    } else {
      assert (a + b)[..|a + b| - 1] == a + b[..|b| - 1];
      StepsAppend(t, a, b[..|b| - 1]);
    }
  }

  lemma StepsThen(t: Option<Task>, es: seq<Event>, e: Event)
    ensures Steps(t, es + [e]) == Step(Steps(t, es), e)
  {
    hide Step;
    assert (es + [e])[..|es|] == es;
  }

  lemma FailOneAt(q: Tasks, b: Batch, f: Finding, k: Key)
    requires f.key == BatchKey(b, f.key.record)
    ensures FailOne(q, b, f).Some?
    ensures Get(FailOne(q, b, f).value, k) == if f.key == k then Step(Get(q, k), Fail(f)) else Get(q, k)
  {
    hide FailedAgain, Raised;
  }

  lemma PassOneAt(q: Tasks, b: Batch, record: string, k: Key)
    ensures Get(PassOne(q, b, record), k)
            == if BatchKey(b, record) == k then Step(Get(q, k), Pass(Clearance(b.run, b.at, b.asOf))) else Get(q, k)
  {
    hide PassedSince;
  }

  /** Every write of a run's own batch is local: what it does to a task depends on that task and on
      what the batch says about its key. */
  lemma {:induction false} FailsAreLocal(q: Tasks, b: Batch, fs: seq<Finding>, k: Key)
    requires forall f :: f in fs ==> f.key == BatchKey(b, f.key.record)
    ensures FailAll(q, b, fs).Some? && Get(FailAll(q, b, fs).value, k) == Steps(Get(q, k), FailsOf(fs, k))
  {
    hide FailOne, Step, Get;
    if fs != [] {
      var n := |fs| - 1;
      FailsAreLocal(q, b, fs[..n], k);
      assert fs[n] in fs;
      FailOneAt(FailAll(q, b, fs[..n]).value, b, fs[n], k);
      StepsThen(Get(q, k), FailsOf(fs[..n], k), Fail(fs[n]));
      assert FailsOf(fs[..n], k) + [] == FailsOf(fs[..n], k);
    }
  }

  lemma {:induction false} PassesAreLocal(q: Tasks, b: Batch, records: seq<string>, k: Key)
    ensures Get(PassAll(q, b, records), k) == Steps(Get(q, k), PassesOf(b, records, k))
  {
    hide PassOne, Step, Get;
    if records != [] {
      var n := |records| - 1;
      PassesAreLocal(q, b, records[..n], k);
      PassOneAt(PassAll(q, b, records[..n]), b, records[n], k);
      StepsThen(Get(q, k), PassesOf(b, records[..n], k), Pass(Clearance(b.run, b.at, b.asOf)));
      assert PassesOf(b, records[..n], k) + [] == PassesOf(b, records[..n], k);
    }
  }

  predicate UniformOp(op: Op)
  {
    op.Recorded? ==> Uniform(op.batch)
  }

  lemma OnTaskAt(q: Tasks, key: Key, e: Event, k: Key)
    requires !e.Fail? && !e.Raise?
    ensures Get(OnTask(q, key, e), k) == if key == k then Step(Get(q, k), e) else Get(q, k)
  {
    hide Happens;
  }

  lemma RaisedAt(q: Tasks, f: Finding, k: Key)
    ensures Get(Apply(q, Decided(f)), k) == if f.key == k then Step(Get(q, k), Raise(f)) else Get(q, k)
  {
  }

  lemma StepsOnce(t: Option<Task>, e: Event)
    ensures Steps(t, []) == t && Steps(t, [e]) == Step(t, e)
  {
    hide Step;
    StepsThen(t, [], e);
    assert [] + [e] == [e];
  }

  lemma WritesAreLocal(q: Tasks, op: Op, k: Key)
    requires UniformOp(op)
    ensures Get(Apply(q, op), k) == Steps(Get(q, k), EventsOf(op, k))
    ensures op.Recorded? ==> Record(q, op.batch).Kept?
  {
    hide FailAll, PassAll, FailsOf, PassesOf, Happens, Steps, OnTask;
    match op {
      case Recorded(b) =>
        FailsAreLocal(q, b, b.failing, k);
        var failed := FailAll(q, b, b.failing).value;
        PassesAreLocal(failed, b, b.passing, k);
        StepsAppend(Get(q, k), FailsOf(b.failing, k), PassesOf(b, b.passing, k));
      case Decided(f) =>
        RaisedAt(q, f, k);
        StepsOnce(Get(q, k), Raise(f));
      case Moved(key, state, move) =>
        OnTaskAt(q, key, Transition(state, move), k);
        StepsOnce(Get(q, k), Transition(state, move));
      case Claimed(key, notice) =>
        OnTaskAt(q, key, Claim(notice), k);
        StepsOnce(Get(q, k), Claim(notice));
      case Released(key, why) =>
        OnTaskAt(q, key, Release(why), k);
        StepsOnce(Get(q, k), Release(why));
      case Noted(key, text) =>
        OnTaskAt(q, key, Remark(text), k);
        StepsOnce(Get(q, k), Remark(text));
    }
  }

  // ------------------------------------------------------------------ over whole histories
  function After(ops: seq<Op>): Tasks
  {
    if ops == [] then map[] else Apply(After(ops[..|ops| - 1]), ops[|ops| - 1])
  }

  function Told(ops: seq<Op>, k: Key): seq<Event>
  {
    if ops == [] then [] else Told(ops[..|ops| - 1], k) + EventsOf(ops[|ops| - 1], k)
  }

  predicate AllUniform(ops: seq<Op>)
  {
    forall op :: op in ops ==> UniformOp(op)
  }

  /** Tasks are independent: after any writes, a task is what its own events made of it. */
  lemma {:induction false} TasksAreIndependent(ops: seq<Op>, k: Key)
    requires AllUniform(ops)
    ensures Get(After(ops), k) == Steps(None, Told(ops, k))
  {
    hide Apply, EventsOf, Step;
    if ops != [] {
      var n := |ops| - 1;
      TasksAreIndependent(ops[..n], k);
      assert ops[n] in ops;
      WritesAreLocal(After(ops[..n]), ops[n], k);
      StepsAppend(None, Told(ops[..n], k), EventsOf(ops[n], k));
    }
  }
}
