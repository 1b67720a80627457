/** The run store: runs with their verdicts and evidence, the findings queue and the guest decisions
    of every property, in one set of tables (hotelcontrols/store/sqlite.py). Each write is one
    transaction. */
module Store {
  import opened Basics
  import opened Texts
  import opened Values
  import opened Codec
  import opened Runs
  import opened Queue

  // ------------------------------------------------------------------ the tables
  /** A run without its verdicts. */
  type RunRow = Run

  datatype VerdictRow = VerdictRow(run: RunId, position: nat, outcome: Said, reason: string, record: Option<string>)

  datatype EvidenceRow = EvidenceRow(
    run: RunId,
    position: nat,
    line: nat,
    field: string,
    isKnown: bool,
    payload: Option<Json>,
    unit: Option<string>,
    reason: string,
    risk: Option<string>,
    source: Option<string>)

  datatype Decision = Decision(id: string, tenant: string, body: string)

  /** Rows of one run stand in the order they were inserted, which is the order of their positions. */
  datatype Tables = Tables(
    runs: map<RunId, RunRow>,
    verdicts: seq<VerdictRow>,
    evidence: seq<EvidenceRow>,
    tasks: Tasks,
    decisions: map<string, Decision>)

  // ------------------------------------------------------------------ writing a run
  function IdOf(run: Run): RunId
  {
    if HasId(run) then run.id.value
    else Digest(run.control, run.tenant, run.provider, run.evidenceLabel, run.asOf, run.createdAt)
  }

  function RowOf(run: Run): RunRow
  {
    run.(verdicts := [], id := None)
  }

  predicate LineWritable(l: Line)
  {
    l.value.Known? ==> Encode(l.value.payload).Some?
  }

  predicate RunWritable(run: Run)
  {
    forall p, i :: 0 <= p < |run.verdicts| && 0 <= i < |run.verdicts[p].evidence| ==>
      LineWritable(run.verdicts[p].evidence[i])
  }

  function LineRow(id: RunId, position: nat, line: nat, l: Line): EvidenceRow
  {
    match l.value
    case Known(payload, unit) => EvidenceRow(id, position, line, l.field, true, Encode(payload), unit, "", None,
      l.source)
    case Unknown(reason, risk) => EvidenceRow(id, position, line, l.field, false, None, None, reason, risk, l.source)
  }

  function LineRows(id: RunId, position: nat, ls: seq<Line>): seq<EvidenceRow>
  {
    if ls == [] then [] else LineRows(id, position, ls[..|ls| - 1]) + [LineRow(id, position, |ls| - 1, ls[|ls| - 1])]
  }

  function EvidenceRows(id: RunId, vs: seq<Verdict>): seq<EvidenceRow>
  {
    if vs == [] then [] else EvidenceRows(id, vs[..|vs| - 1]) + LineRows(id, |vs| - 1, vs[|vs| - 1].evidence)
  }

  function VerdictRowOf(id: RunId, position: nat, v: Verdict): VerdictRow
  {
    VerdictRow(id, position, v.outcome, v.reason, v.record)
  }

  function VerdictRows(id: RunId, vs: seq<Verdict>): seq<VerdictRow>
  {
    if vs == [] then [] else VerdictRows(id, vs[..|vs| - 1]) + [VerdictRowOf(id, |vs| - 1, vs[|vs| - 1])]
  }

  function OtherVerdicts(rows: seq<VerdictRow>, id: RunId): seq<VerdictRow>
  {
    if rows == [] then []
    else OtherVerdicts(rows[..|rows| - 1], id) + if rows[|rows| - 1].run == id then [] else [rows[|rows| - 1]]
  }

  function OtherEvidence(rows: seq<EvidenceRow>, id: RunId): seq<EvidenceRow>
  {
    if rows == [] then []
    else OtherEvidence(rows[..|rows| - 1], id) + if rows[|rows| - 1].run == id then [] else [rows[|rows| - 1]]
  }

  datatype Saving = Saved(tables: Tables) | BelongsToAnother | Unwritable

  predicate TakenByAnother(t: Tables, run: Run)
  {
    IdOf(run) in t.runs && t.runs[IdOf(run)].tenant != run.tenant
  }

  /** `save`: the run's row and its verdicts and evidence replace what the property had under that
      id; another property's id is refused. */
  function Save(t: Tables, run: Run): Saving
  {
    var id := IdOf(run);
    if TakenByAnother(t, run) then BelongsToAnother
    else if !RunWritable(run) then Unwritable
    else
      Saved(t.(runs := t.runs[id := RowOf(run)],
               verdicts := OtherVerdicts(t.verdicts, id) + VerdictRows(id, run.verdicts),
               evidence := OtherEvidence(t.evidence, id) + EvidenceRows(id, run.verdicts)))
  }

  // ------------------------------------------------------------------ reading a run
  predicate RowReadable(row: EvidenceRow)
  {
    row.isKnown ==> row.payload.Some? && Decode(row.payload.value).Some?
  }

  function ValueOf(row: EvidenceRow): Value
  {
    if !row.isKnown then Unknown(row.reason, row.risk)
    else Known(if RowReadable(row) then Decode(row.payload.value).value else Null, row.unit)
  }

  function LineOf(row: EvidenceRow): Line
  {
    Line(row.field, ValueOf(row), row.source)
  }

  /** The evidence of one verdict of one run. */
  function LinesOf(rows: seq<EvidenceRow>, id: RunId, position: nat): seq<Line>
  {
    if rows == [] then []
    else
      var last := rows[|rows| - 1];
      LinesOf(rows[..|rows| - 1], id, position) + if last.run == id && last.position == position then [LineOf(last)]
        else []
  }

  function VerdictsOf(rows: seq<VerdictRow>, evidence: seq<EvidenceRow>, id: RunId, control: string): seq<Verdict>
  {
    if rows == [] then []
    else
      var last := rows[|rows| - 1];
      VerdictsOf(rows[..|rows| - 1], evidence, id, control)
      + if last.run == id
        then [Verdict(last.outcome, last.reason, LinesOf(evidence, id, last.position), Some(control), last.record)]
        else []
  }

  predicate AllReadable(rows: seq<EvidenceRow>, id: RunId)
  {
    forall i :: 0 <= i < |rows| && rows[i].run == id ==> RowReadable(rows[i])
  }

  datatype Loading = Loaded(run: Run) | NotFound | Unreadable

  /** `load`: a run, for its property; another property's run is a run that does not exist. */
  function Reload(t: Tables, id: RunId, tenant: string): Loading
  {
    if id !in t.runs || t.runs[id].tenant != tenant then NotFound
    else if !AllReadable(t.evidence, id) then Unreadable
    else
      var row := t.runs[id];
      Loaded(row.(verdicts := VerdictsOf(t.verdicts, t.evidence, id, row.control), id := Some(id)))
  }

  // ------------------------------------------------------------------ decisions
  datatype Deciding = Held(tables: Tables, stored: Decision, isNew: bool) | WrongTask | DecisionOfAnother

  predicate TaskFits(d: Decision, task: Option<Finding>)
  {
    task.Some? ==> task.value.key.tenant == d.tenant && task.value.key.record == d.id
  }

  /** `save_decision`: a decision and the task it raises, once. */
  function SaveDecision(t: Tables, d: Decision, task: Option<Finding>): Deciding
  {
    if !TaskFits(d, task) then WrongTask
    else if d.id in t.decisions then
      if t.decisions[d.id].tenant != d.tenant then DecisionOfAnother else Held(t, t.decisions[d.id], false)
    else
      var kept := t.(decisions := t.decisions[d.id := d]);
      Held(if task.Some? then kept.(tasks := Apply(t.tasks, Decided(task.value))) else kept, d, true)
  }

  // ------------------------------------------------------------------ every write
  datatype Write =
    | SaveRun(run: Run)
    | WriteQueue(tenant: string, op: Op)
    | KeepDecision(decision: Decision, task: Option<Finding>)

  /** The property a write is for. */
  function TenantOf(w: Write): string
  {
    match w
    case SaveRun(run) => run.tenant
    case WriteQueue(tenant, op) => if op.Recorded? then op.batch.tenant else tenant
    case KeepDecision(d, _) => d.tenant
  }

  /** A write to one task names its property, and finds no task of another. */
  predicate Scoped(tenant: string, op: Op)
  {
    match op
    case Recorded(_) => true
    case Decided(_) => false
    case Moved(k, _, _) => k.tenant == tenant
    case Claimed(k, _) => k.tenant == tenant
    case Released(k, _) => k.tenant == tenant
    case Noted(k, _) => k.tenant == tenant
  }

  function Written(t: Tables, w: Write): Tables
  {
    match w
    case SaveRun(run) => if Save(t, run).Saved? then Save(t, run).tables else t
    case WriteQueue(tenant, op) => if Scoped(tenant, op) then t.(tasks := Apply(t.tasks, op)) else t
    case KeepDecision(d, task) => if SaveDecision(t, d, task).Held? then SaveDecision(t, d, task).tables else t
  }

  const EMPTY := Tables(map[], [], [], map[], map[])

  function AllWritten(ws: seq<Write>): Tables
  {
    if ws == [] then EMPTY else Written(AllWritten(ws[..|ws| - 1]), ws[|ws| - 1])
  }

  // ------------------------------------------------------------------ the store as it runs
  class RunStore {
    var runs: map<RunId, RunRow>
    var verdicts: seq<VerdictRow>
    var evidence: seq<EvidenceRow>
    var actions: Tasks
    var decisions: map<string, Decision>

    function Contents(): Tables
      reads this
    {
      Tables(runs, verdicts, evidence, actions, decisions)
    }

    constructor ()
      ensures Contents() == EMPTY
    {
      runs, verdicts, evidence, actions, decisions := map[], [], [], map[], map[];
    }

    method DeleteVerdicts(id: RunId)
      modifies `verdicts
      ensures verdicts == OtherVerdicts(old(verdicts), id)
    {
      var kept := [];
      for i := 0 to |verdicts|
        invariant verdicts == old(verdicts) && kept == OtherVerdicts(verdicts[..i], id)
      {
        assert verdicts[..i + 1][..i] == verdicts[..i];
        if verdicts[i].run != id {
          kept := kept + [verdicts[i]];
        }
      }
      assert verdicts[..|verdicts|] == verdicts;
      verdicts := kept;
    }

    method DeleteEvidence(id: RunId)
      modifies `evidence
      ensures evidence == OtherEvidence(old(evidence), id)
    {
      var kept := [];
      for i := 0 to |evidence|
        invariant evidence == old(evidence) && kept == OtherEvidence(evidence[..i], id)
      {
        assert evidence[..i + 1][..i] == evidence[..i];
        if evidence[i].run != id {
          kept := kept + [evidence[i]];
        }
      }
      assert evidence[..|evidence|] == evidence;
      evidence := kept;
    }

    /** The evidence of one verdict, line by line; `ok` is false when a payload cannot be written. */
    method InsertLines(id: RunId, position: nat, ls: seq<Line>) returns (ok: bool)
      modifies `evidence
      ensures ok <==> forall i :: 0 <= i < |ls| ==> LineWritable(ls[i])
      ensures ok ==> evidence == old(evidence) + LineRows(id, position, ls)
    {
      hide Encode;
      for i := 0 to |ls|
        invariant forall j :: 0 <= j < i ==> LineWritable(ls[j])
        invariant evidence == old(evidence) + LineRows(id, position, ls[..i])
      {
        if !LineWritable(ls[i]) {
          return false;
        }
        assert ls[..i + 1][..i] == ls[..i];
        evidence := evidence + [LineRow(id, position, i, ls[i])];
      }
      assert ls[..|ls|] == ls;
      ok := true;
    }

    method InsertVerdicts(id: RunId, vs: seq<Verdict>) returns (ok: bool)
      modifies `verdicts, `evidence
      ensures ok <==> forall p, i :: 0 <= p < |vs| && 0 <= i < |vs[p].evidence| ==> LineWritable(vs[p].evidence[i])
      ensures ok ==> verdicts == old(verdicts) + VerdictRows(id, vs) && evidence == old(evidence) + EvidenceRows(id, vs)
    {
      hide LineWritable, LineRows;
      for p := 0 to |vs|
        invariant forall q, i :: 0 <= q < p && 0 <= i < |vs[q].evidence| ==> LineWritable(vs[q].evidence[i])
        invariant verdicts == old(verdicts) + VerdictRows(id, vs[..p])
        invariant evidence == old(evidence) + EvidenceRows(id, vs[..p])
      {
        verdicts := verdicts + [VerdictRowOf(id, p, vs[p])];
        var written := InsertLines(id, p, vs[p].evidence);
        if !written {
          return false;
        }
        assert vs[..p + 1][..p] == vs[..p];
      }
      assert vs[..|vs|] == vs;
      ok := true;
    }

    /** A save that fails part way is rolled back. */
    method SaveRun(run: Run) returns (r: Result<RunId, Saving>)
      modifies this
      ensures match Save(old(Contents()), run)
              case Saved(tables) => r == Ok(IdOf(run)) && Contents() == tables
              case refused => r == Err(refused) && Contents() == old(Contents())
      ensures var named := run.id.Some? && run.id.value != Given("");
              var id := if named then run.id.value
                        else Digest(run.control, run.tenant, run.provider, run.evidenceLabel, run.asOf, run.createdAt);
              && (r == Err(BelongsToAnother) <==> id in old(runs) && old(runs)[id].tenant != run.tenant)
              && (r.Ok? ==> r.value == id && runs == old(runs)[id := run.(verdicts := [], id := None)])
    {
      hide LineWritable, VerdictRows, EvidenceRows, OtherVerdicts, OtherEvidence;
      var id := IdOf(run);
      if id in runs && runs[id].tenant != run.tenant {
        return Err(BelongsToAnother);
      }
      var verdictsBefore, evidenceBefore := verdicts, evidence;
      DeleteVerdicts(id);
      DeleteEvidence(id);
      var ok := InsertVerdicts(id, run.verdicts);
      if !ok {
        verdicts, evidence := verdictsBefore, evidenceBefore;
        return Err(Unwritable);
      }
      runs := runs[id := RowOf(run)];
      r := Ok(id);
    }

    method LoadRun(id: RunId, tenant: string) returns (r: Loading)
      ensures r == Reload(Contents(), id, tenant)
      ensures r == NotFound <==> id !in runs || runs[id].tenant != tenant
    {
      hide RowReadable, ValueOf;
      if id !in runs || runs[id].tenant != tenant {
        return NotFound;
      }
      for i := 0 to |evidence|
        invariant forall j :: 0 <= j < i && evidence[j].run == id ==> RowReadable(evidence[j])
      {
        if evidence[i].run == id && !RowReadable(evidence[i]) {
          return Unreadable;
        }
      }
      var control, read := runs[id].control, [];
      for i := 0 to |verdicts|
        invariant read == VerdictsOf(verdicts[..i], evidence, id, control)
      {
        assert verdicts[..i + 1][..i] == verdicts[..i];
        var row := verdicts[i];
        if row.run == id {
          read := read + [Verdict(row.outcome, row.reason, LinesOf(evidence, id, row.position), Some(control),
            row.record)];
        }
      }
      assert verdicts[..|verdicts|] == verdicts;
      r := Loaded(runs[id].(verdicts := read, id := Some(id)));
    }

    // ---------------------------------------------------------------- the findings queue
    /** `record_findings`; an error part way undoes the whole batch. */
    method RecordFindings(b: Batch) returns (r: Recording)
      modifies `actions
      ensures r == Record(old(actions), b)
      ensures actions == Apply(old(actions), Recorded(b))
    {
      hide FailedAgain, PassedSince, Raised;
      for i := 0 to |b.failing|
        invariant forall j :: 0 <= j < i ==> b.failing[j].key.tenant == b.tenant
      {
        if b.failing[i].key.tenant != b.tenant {
          return RefusedBatch;
        }
      }
      var before, created := actions, 0;
      for i := 0 to |b.failing|
        invariant FailAll(before, b, b.failing[..i]) == Some(actions)
        invariant created == |actions| - |before|
      {
        var f := b.failing[i];
        assert b.failing[..i + 1][..i] == b.failing[..i];
        if f.key !in actions {
          OneMore(actions, f);
          actions := actions[f.key := Raised(f)];
          created := created + 1;
        } else {
          var k := BatchKey(b, f.key.record);
          if k !in actions {
            FailAllStops(before, b, i + 1);
            actions := before;
            return Crashed;
          }
          OnlyChanged(actions, k, FailedAgain(actions[k], f));
          actions := actions[k := FailedAgain(actions[k], f)];
        }
      }
      assert b.failing[..|b.failing|] == b.failing;
      ghost var failed := actions;
      for i := 0 to |b.passing|
        invariant actions == PassAll(failed, b, b.passing[..i])
      {
        assert b.passing[..i + 1][..i] == b.passing[..i];
        var k := BatchKey(b, b.passing[i]);
        if k in actions {
          actions := actions[k := PassedSince(actions[k], Clearance(b.run, b.at, b.asOf))];
        }
      }
      assert b.passing[..|b.passing|] == b.passing;
      r := Kept(actions, created);
    }

    /** A task, for its property. */
    method Action(k: Key, tenant: string) returns (r: Option<Task>)
      ensures r == if k.tenant == tenant then Get(actions, k) else None
    {
      r := if k in actions && k.tenant == tenant then Some(actions[k]) else None;
    }

    /** A person moves a task. An unnamed person is refused, a task of another property is missing,
        and only a pending task moves. */
    method TransitionTask(k: Key, state: State, tenant: string, at: int, actor: string)
      returns (r: Result<Option<Task>, ()>)
      modifies `actions
      ensures r.Ok? ==> Contents() == Written(old(Contents()), WriteQueue(tenant, Moved(k, state, Move(at, actor))))
      ensures r.Err? ==> actions == old(actions)
      ensures r.Err? <==>
                || Blank(actor)
                || (k in old(actions) && k.tenant == tenant && (old(actions)[k].state != Pending || state == Pending))
      ensures r.Ok? ==>
                actions == if k in old(actions) && k.tenant == tenant
                           then old(actions)[k := old(actions)[k].(state := state, moved := Some(Move(at, actor)))]
                           else old(actions)
      ensures r.Ok? ==> r.value == if k.tenant == tenant then Get(actions, k) else None
      ensures r.Ok? && r.value.Some? ==> r.value.value.state == state && r.value.value.moved == Some(Move(at, actor))
    {
      if Blank(actor) {
        return Err(());
      }
      var current := Action(k, tenant);
      if current.None? {
        return Ok(None);
      }
      if !MayMove(current.value.state, state) {
        return Err(());
      }
      actions := actions[k := actions[k].(state := state, moved := Some(Move(at, actor)))];
      r := Ok(Some(actions[k]));
    }

    /** Mark a task as being sent: true for exactly one caller. */
    method ClaimNotification(k: Key, tenant: string, channel: string, at: int) returns (claimed: bool)
      modifies `actions
      ensures Contents() == Written(old(Contents()), WriteQueue(tenant, Claimed(k, Notice(at, channel))))
      ensures claimed <==> k in old(actions) && k.tenant == tenant && old(actions)[k].notice.None?
      ensures actions == if claimed
                         then old(actions)[k := old(actions)[k].(notice := Some(Notice(at, channel)), note := None)]
                         else old(actions)
    {
      claimed := k in actions && k.tenant == tenant && actions[k].notice.None?;
      if claimed {
        actions := actions[k := actions[k].(notice := Some(Notice(at, channel)), note := None)];
      }
    }

    method ReleaseNotification(k: Key, tenant: string, why: Option<string>)
      modifies `actions
      ensures Contents() == Written(old(Contents()), WriteQueue(tenant, Released(k, why)))
      ensures actions == if k in old(actions) && k.tenant == tenant
                         then old(actions)[k := old(actions)[k].(notice := None, note := why)] else old(actions)
    {
      if k in actions && k.tenant == tenant {
        actions := actions[k := actions[k].(notice := None, note := why)];
      }
    }

    method NoteNotification(k: Key, tenant: string, text: string)
      modifies `actions
      ensures Contents() == Written(old(Contents()), WriteQueue(tenant, Noted(k, text)))
      ensures actions == if k in old(actions) && k.tenant == tenant && old(actions)[k].notice.None?
                         then old(actions)[k := old(actions)[k].(note := Some(text))] else old(actions)
    {
      if k in actions && k.tenant == tenant && actions[k].notice.None? {
        actions := actions[k := actions[k].(note := Some(text))];
      }
    }

    // ---------------------------------------------------------------- guest decisions
    method DecisionFor(id: string, tenant: string) returns (r: Option<Decision>)
      ensures r == if id in decisions && decisions[id].tenant == tenant then Some(decisions[id]) else None
    {
      r := if id in decisions && decisions[id].tenant == tenant then Some(decisions[id]) else None;
    }

    method KeepDecision(d: Decision, task: Option<Finding>) returns (r: Result<(Decision, bool), Deciding>)
      modifies `decisions, `actions
      ensures match SaveDecision(old(Contents()), d, task)
              case Held(tables, stored, isNew) => r == Ok((stored, isNew)) && Contents() == tables
              case refused => r == Err(refused) && Contents() == old(Contents())
      ensures var misfit := task.Some? && (task.value.key.tenant != d.tenant || task.value.key.record != d.id);
              && (r == Err(WrongTask) <==> misfit)
              && (r == Err(DecisionOfAnother) <==>
                    !misfit && d.id in old(decisions) && old(decisions)[d.id].tenant != d.tenant)
      ensures r.Ok? && d.id in old(decisions) ==>
                r.value == (old(decisions)[d.id], false) && decisions == old(decisions) && actions == old(actions)
      ensures r.Ok? && d.id !in old(decisions) ==>
                && r.value == (d, true) && decisions == old(decisions)[d.id := d]
                && if task.Some? && task.value.key !in old(actions)
                   then var f := task.value;
                     actions == old(actions)[f.key :=
                       Task(f.key, f.about, f.run, f.at, Pending, None, f.run, f.at, None, None, None)]
                   else actions == old(actions)
    {
      if task.Some? && (task.value.key.tenant != d.tenant || task.value.key.record != d.id) {
        return Err(WrongTask);
      }
      if d.id in decisions {
        var existing := DecisionFor(d.id, d.tenant);
        if existing.None? {
          return Err(DecisionOfAnother);
        }
        return Ok((existing.value, false));
      }
      decisions := decisions[d.id := d];
      if task.Some? && task.value.key !in actions {
        actions := actions[task.value.key := Raised(task.value)];
      }
      r := Ok((d, true));
    }
  }

  lemma OneMore(q: Tasks, f: Finding)
    requires f.key !in q
    ensures |q[f.key := Raised(f)]| == |q| + 1
  {
    hide Raised;
    assert q[f.key := Raised(f)].Keys == q.Keys + {f.key};
    assert |q| == |q.Keys| && |q[f.key := Raised(f)]| == |q[f.key := Raised(f)].Keys|;
  }

  lemma OnlyChanged(q: Tasks, k: Key, t: Task)
    requires k in q
    ensures |q[k := t]| == |q|
  {
    assert q[k := t].Keys == q.Keys;
    assert |q| == |q.Keys| && |q[k := t]| == |q[k := t].Keys|;
  }

  /** Once a finding cannot be recorded, neither can the batch. */
  lemma {:induction false} FailAllStops(q: Tasks, b: Batch, i: nat)
    requires i <= |b.failing| && FailAll(q, b, b.failing[..i]).None?
    ensures FailAll(q, b, b.failing).None?
    decreases |b.failing| - i
  {
    hide FailOne;
    if i < |b.failing| {
      assert b.failing[..i + 1][..i] == b.failing[..i];
      FailAllStops(q, b, i + 1);
    } else {
      assert b.failing[..i] == b.failing;
    }
  }
}
