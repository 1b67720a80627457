/** One store, many properties: what one property's writes do to another's reads
    (hotelcontrols/store/sqlite.py). */
module Tenancy {
  import opened Basics
  import opened Runs
  import opened Queue
  import opened Store
  import opened StoreTheorems

  // ------------------------------------------------------------------ whose rows
  /** Every read of one property: its runs, its tasks, its decisions. */
  ghost predicate SameFor(a: Tables, b: Tables, tenant: string)
  {
    && (forall id :: Reload(a, id, tenant) == Reload(b, id, tenant))
    && (forall k: Key :: k.tenant == tenant ==> Get(a.tasks, k) == Get(b.tasks, k))
    && (forall d :: DecisionOf(a, d, tenant) == DecisionOf(b, d, tenant))
  }

  function DecisionOf(t: Tables, id: string, tenant: string): Option<Decision>
  {
    if id in t.decisions && t.decisions[id].tenant == tenant then Some(t.decisions[id]) else None
  }

  predicate Owns(t: Tables, id: RunId, tenant: string)
  {
    id in t.runs && t.runs[id].tenant == tenant
  }

  /** Saving one run leaves the rows of every other as they were. */
  lemma OtherRunsStay(t: Tables, run: Run, id: RunId, tenant: string)
    requires Save(t, run).Saved? && id != IdOf(run)
    ensures Reload(Save(t, run).tables, id, tenant) == Reload(t, id, tenant)
  {
    hide LinesOf, VerdictsOf, AllReadable, EvidenceReadable, EvidenceRows, VerdictRows, OtherVerdicts, OtherEvidence,
      RunWritable;
    if Owns(t, id, tenant) {
      OtherRows(t, run, id);
      SameLinesSameVerdicts(t.verdicts, t.evidence, Save(t, run).tables.evidence, id, t.runs[id].control);
      OtherVerdictRows(t, run, id, t.runs[id].control);
    }
  }

  lemma OtherRows(t: Tables, run: Run, id: RunId)
    requires Save(t, run).Saved? && id != IdOf(run)
    ensures forall q: nat :: LinesOf(Save(t, run).tables.evidence, id, q) == LinesOf(t.evidence, id, q)
    ensures AllReadable(Save(t, run).tables.evidence, id) <==> AllReadable(t.evidence, id)
  {
    hide LinesOf, AllReadable, EvidenceReadable, EvidenceRows, OtherEvidence, RunWritable;
    var saved, kept, rows := IdOf(run), OtherEvidence(t.evidence, IdOf(run)), EvidenceRows(IdOf(run), run.verdicts);
    forall q: nat
      ensures LinesOf(kept + rows, id, q) == LinesOf(t.evidence, id, q)
    {
      LinesAppend(kept, rows, id, q);
      DeletedEvidence(t.evidence, saved, id, q);
      EvidenceWritten(saved, run.verdicts, id, q);
    }
    ReadableAppend(kept, rows, id);
    DeletedEvidence(t.evidence, saved, id, 0);
    EvidenceReads(saved, run.verdicts, id);
  }

  lemma {:induction false} SameLinesSameVerdicts(rows: seq<VerdictRow>, a: seq<EvidenceRow>, b: seq<EvidenceRow>,
                                                 id: RunId, control: string)
    requires forall q: nat :: LinesOf(a, id, q) == LinesOf(b, id, q)
    ensures VerdictsOf(rows, a, id, control) == VerdictsOf(rows, b, id, control)
  {
    hide LinesOf;
    if rows != [] {
      SameLinesSameVerdicts(rows[..|rows| - 1], a, b, id, control);
    }
  }

  lemma OtherVerdictRows(t: Tables, run: Run, id: RunId, control: string)
    requires Save(t, run).Saved? && id != IdOf(run)
    ensures var after := Save(t, run).tables;
            VerdictsOf(after.verdicts, after.evidence, id, control)
              == VerdictsOf(t.verdicts, after.evidence, id, control)
  {
    hide LinesOf, VerdictsOf, VerdictRows, OtherVerdicts, RunWritable, EvidenceRows, OtherEvidence;
    var after := Save(t, run).tables;
    VerdictsAppend(OtherVerdicts(t.verdicts, IdOf(run)), VerdictRows(IdOf(run), run.verdicts), after.evidence, id,
      control);
    DeletedVerdicts(t.verdicts, IdOf(run), id, after.evidence, control);
    NoVerdictsOfOthers(IdOf(run), run.verdicts, after.evidence, id, control);
  }

  lemma {:induction false} NoVerdictsOfOthers(saved: RunId, vs: seq<Verdict>, evidence: seq<EvidenceRow>, id: RunId,
                                              control: string)
    requires saved != id
    ensures VerdictsOf(VerdictRows(saved, vs), evidence, id, control) == []
  {
    hide LinesOf;
    if vs != [] {
      NoVerdictsOfOthers(saved, vs[..|vs| - 1], evidence, id, control);
    }
  }

  /** A batch touches no task of another property. */
  lemma {:induction false} FailsTouchOwn(q: Tasks, b: Batch, fs: seq<Finding>, k: Key)
    requires k.tenant != b.tenant && FailAll(q, b, fs).Some? && forall f :: f in fs ==> f.key.tenant == b.tenant
    ensures Get(FailAll(q, b, fs).value, k) == Get(q, k)
  {
    hide FailedAgain, Raised;
    if fs != [] {
      FailsTouchOwn(q, b, fs[..|fs| - 1], k);
      assert fs[|fs| - 1] in fs;
    }
  }

  lemma {:induction false} PassesTouchOwn(q: Tasks, b: Batch, records: seq<string>, k: Key)
    requires k.tenant != b.tenant
    ensures Get(PassAll(q, b, records), k) == Get(q, k)
  {
    hide PassedSince;
    if records != [] {
      PassesTouchOwn(q, b, records[..|records| - 1], k);
    }
  }

  lemma OpTouchesOwn(q: Tasks, tenant: string, op: Op, k: Key)
    requires Scoped(tenant, op) && k.tenant != TenantOf(WriteQueue(tenant, op))
    ensures Get(Apply(q, op), k) == Get(q, k)
  {
    hide Happens, FailAll, PassAll;
    match op {
      case Recorded(b) =>
        if Record(q, b).Kept? {
          FailsTouchOwn(q, b, b.failing, k);
          PassesTouchOwn(FailAll(q, b, b.failing).value, b, b.passing, k);
        }
      case _ =>
    }
  }

  /** A write for one property leaves every read of every other as it was, in every store. */
  lemma OthersSeeNothing(t: Tables, w: Write, tenant: string)
    requires TenantOf(w) != tenant
    ensures SameFor(Written(t, w), t, tenant)
  {
    hide Reload, Save, Apply, SaveDecision;
    match w {
      case SaveRun(run) =>
        SavingIsPrivate(t, run, tenant);
      case WriteQueue(scope, op) =>
        if Scoped(scope, op) {
          forall k: Key | k.tenant == tenant
            ensures Get(Apply(t.tasks, op), k) == Get(t.tasks, k)
          {
            OpTouchesOwn(t.tasks, scope, op, k);
          }
          SameRuns(t, t.(tasks := Apply(t.tasks, op)), tenant);
        }
      case KeepDecision(d, task) =>
        DecidingIsPrivate(t, d, task, tenant);
    }
  }

  lemma SameRuns(a: Tables, b: Tables, tenant: string)
    requires a.runs == b.runs && a.verdicts == b.verdicts && a.evidence == b.evidence
    ensures forall id :: Reload(a, id, tenant) == Reload(b, id, tenant)
  {
    hide LinesOf, VerdictsOf, AllReadable;
  }

  lemma SavingIsPrivate(t: Tables, run: Run, tenant: string)
    requires run.tenant != tenant
    ensures SameFor(Written(t, Write.SaveRun(run)), t, tenant)
  {
    hide LinesOf, VerdictsOf, AllReadable, EvidenceRows, VerdictRows, OtherVerdicts, OtherEvidence, RunWritable, Get;
    if Save(t, run).Saved? {
      forall id
        ensures Reload(Save(t, run).tables, id, tenant) == Reload(t, id, tenant)
      {
        if id != IdOf(run) {
          OtherRunsStay(t, run, id, tenant);
        }
      }
    }
  }

  lemma DecidingIsPrivate(t: Tables, d: Decision, task: Option<Finding>, tenant: string)
    requires d.tenant != tenant
    ensures SameFor(Written(t, Write.KeepDecision(d, task)), t, tenant)
  {
    hide LinesOf, VerdictsOf, AllReadable, Raised, Reload;
    SameRuns(t, Written(t, Write.KeepDecision(d, task)), tenant);
  }

  /** An id that is another property's is refused, and nothing changes. */
  lemma CollidingIdIsRefused(t: Tables, run: Run, d: Decision, task: Option<Finding>)
    ensures TakenByAnother(t, run) ==> Save(t, run) == BelongsToAnother && Written(t, Write.SaveRun(run)) == t
    ensures d.id in t.decisions && t.decisions[d.id].tenant != d.tenant ==> Written(t, Write.KeepDecision(d, task)) == t
    ensures !TaskFits(d, task) ==> Written(t, Write.KeepDecision(d, task)) == t
  {
  }

  /** The same request twice is answered with what was decided first, and raises no second task. */
  lemma DecidedOnce(t: Tables, d: Decision, task: Option<Finding>, again: Decision, second: Option<Finding>)
    requires SaveDecision(t, d, task).Held? && again.id == d.id && again.tenant == d.tenant && TaskFits(again, second)
    ensures var kept := SaveDecision(t, d, task);
            SaveDecision(kept.tables, again, second) == Held(kept.tables, kept.stored, false)
    ensures SaveDecision(t, d, task).isNew <==> d.id !in t.decisions
  {
    hide Apply;
  }

  // ------------------------------------------------------------------ as if alone
  /** What two stores hold for one property, row by row. */
  ghost predicate Agree(a: Tables, b: Tables, tenant: string)
  {
    && (forall id :: Owns(a, id, tenant) <==> Owns(b, id, tenant))
    && (forall id :: Owns(a, id, tenant) ==> a.runs[id] == b.runs[id])
    && SameFor(a, b, tenant)
  }

  /** No run or decision of this write has an id another property holds. */
  predicate OwnIds(t: Tables, w: Write)
  {
    match w
    case SaveRun(run) => !TakenByAnother(t, run)
    case WriteQueue(_, _) => true
    case KeepDecision(d, _) => d.id in t.decisions ==> t.decisions[d.id].tenant == d.tenant
  }

  lemma OthersKeepOwnership(t: Tables, w: Write, tenant: string)
    requires TenantOf(w) != tenant
    ensures forall id :: Owns(Written(t, w), id, tenant) <==> Owns(t, id, tenant)
    ensures forall id :: Owns(t, id, tenant) ==> Written(t, w).runs[id] == t.runs[id]
  {
    hide EvidenceRows, VerdictRows, OtherVerdicts, OtherEvidence, RunWritable, Apply;
  }

  lemma OwnershipAfterSave(t: Tables, run: Run, id: RunId)
    requires Save(t, run).Saved?
    ensures Owns(Save(t, run).tables, id, run.tenant) <==> id == IdOf(run) || Owns(t, id, run.tenant)
    ensures Owns(Save(t, run).tables, id, run.tenant) ==>
              Save(t, run).tables.runs[id] == if id == IdOf(run) then RowOf(run) else t.runs[id]
  {
    hide EvidenceRows, VerdictRows, OtherVerdicts, OtherEvidence, RunWritable;
  }

  lemma SavesAgree(a: Tables, b: Tables, run: Run)
    requires Agree(a, b, run.tenant) && !TakenByAnother(a, run) && !TakenByAnother(b, run)
    ensures Agree(Written(a, Write.SaveRun(run)), Written(b, Write.SaveRun(run)), run.tenant)
  {
    hide LinesOf, VerdictsOf, AllReadable, EvidenceReadable, EvidenceRows, VerdictRows, OtherVerdicts, OtherEvidence,
      RunWritable;
    hide Reload, Get, DecisionOf, Owns, RowOf, VerdictsBack;
    if RunWritable(run) {
      ReloadAfterSave(a, run);
      ReloadAfterSave(b, run);
      var a', b' := Save(a, run).tables, Save(b, run).tables;
      forall id
        ensures Reload(a', id, run.tenant) == Reload(b', id, run.tenant)
        ensures Owns(a', id, run.tenant) <==> Owns(b', id, run.tenant)
      {
        OwnershipAfterSave(a, run, id);
        OwnershipAfterSave(b, run, id);
        if id != IdOf(run) {
          OtherRunsStay(a, run, id, run.tenant);
          OtherRunsStay(b, run, id, run.tenant);
        }
      }
      AgreedRows(a, b, run.tenant);
      SameRows(a, b, run, a', b');
      SameTasks(a, a', b, b', run.tenant);
    }
  }

  lemma AgreedRows(a: Tables, b: Tables, tenant: string)
    requires Agree(a, b, tenant)
    ensures forall id :: Owns(a, id, tenant) ==> id in b.runs && a.runs[id] == b.runs[id]
  {
    hide SameFor;
  }

  lemma SameRows(a: Tables, b: Tables, run: Run, a': Tables, b': Tables)
    requires Save(a, run) == Saved(a') && Save(b, run) == Saved(b')
    requires forall id :: Owns(a, id, run.tenant) <==> Owns(b, id, run.tenant)
    requires forall id :: Owns(a, id, run.tenant) ==> id in b.runs && a.runs[id] == b.runs[id]
    ensures forall id :: Owns(a', id, run.tenant) ==> id in b'.runs && a'.runs[id] == b'.runs[id]
  {
    hide EvidenceRows, VerdictRows, OtherVerdicts, OtherEvidence, RunWritable;
    forall id | Owns(a', id, run.tenant)
      ensures id in b'.runs && a'.runs[id] == b'.runs[id]
    {
      OwnershipAfterSave(a, run, id);
      OwnershipAfterSave(b, run, id);
    }
  }

  lemma SameTasks(a: Tables, a': Tables, b: Tables, b': Tables, tenant: string)
    requires a'.tasks == a.tasks && b'.tasks == b.tasks && a'.decisions == a.decisions && b'.decisions == b.decisions
    requires SameFor(a, b, tenant)
    ensures forall k: Key :: k.tenant == tenant ==> Get(a'.tasks, k) == Get(b'.tasks, k)
    ensures forall d :: DecisionOf(a', d, tenant) == DecisionOf(b', d, tenant)
  {
    hide Reload;
    forall d ensures DecisionOf(a', d, tenant) == DecisionOf(b', d, tenant) {
      assert DecisionOf(a, d, tenant) == DecisionOf(b, d, tenant);
    }
  }

  ghost predicate SameQueue(a: Tasks, b: Tasks, tenant: string)
  {
    forall k: Key :: k.tenant == tenant ==> Get(a, k) == Get(b, k)
  }

  lemma {:induction false} FailsAgree(a: Tasks, b: Tasks, batch: Batch, fs: seq<Finding>)
    requires SameQueue(a, b, batch.tenant) && forall f :: f in fs ==> f.key.tenant == batch.tenant
    ensures FailAll(a, batch, fs).Some? <==> FailAll(b, batch, fs).Some?
    ensures FailAll(a, batch, fs).Some? ==>
              SameQueue(FailAll(a, batch, fs).value, FailAll(b, batch, fs).value, batch.tenant)
  {
    hide FailOne, SameQueue;
    if fs != [] {
      var front, f := fs[..|fs| - 1], fs[|fs| - 1];
      FailsAgree(a, b, batch, front);
      assert f in fs;
      if FailAll(a, batch, front).Some? {
        OneFailAgrees(FailAll(a, batch, front).value, FailAll(b, batch, front).value, batch, f);
      }
    }
  }

  lemma OneFailAgrees(a: Tasks, b: Tasks, batch: Batch, f: Finding)
    requires SameQueue(a, b, batch.tenant) && f.key.tenant == batch.tenant
    ensures FailOne(a, batch, f).Some? <==> FailOne(b, batch, f).Some?
    ensures FailOne(a, batch, f).Some? ==>
              SameQueue(FailOne(a, batch, f).value, FailOne(b, batch, f).value, batch.tenant)
  {
    hide FailedAgain, Raised;
    var k := BatchKey(batch, f.key.record);
    assert Get(a, f.key) == Get(b, f.key) && Get(a, k) == Get(b, k);
  }

  lemma {:induction false} PassesAgree(a: Tasks, b: Tasks, batch: Batch, records: seq<string>)
    requires SameQueue(a, b, batch.tenant)
    ensures SameQueue(PassAll(a, batch, records), PassAll(b, batch, records), batch.tenant)
  {
    hide PassedSince;
    if records != [] {
      PassesAgree(a, b, batch, records[..|records| - 1]);
      var k := BatchKey(batch, records[|records| - 1]);
      assert Get(PassAll(a, batch, records[..|records| - 1]), k) == Get(PassAll(b, batch, records[..|records| - 1]), k);
    }
  }

  lemma OpsAgree(a: Tasks, b: Tasks, tenant: string, op: Op)
    requires Scoped(tenant, op) && SameQueue(a, b, TenantOf(WriteQueue(tenant, op)))
    ensures SameQueue(Apply(a, op), Apply(b, op), TenantOf(WriteQueue(tenant, op)))
  {
    hide Happens, FailAll, PassAll;
    match op {
      case Recorded(batch) =>
        if !Foreign(batch) {
          FailsAgree(a, b, batch, batch.failing);
          if FailAll(a, batch, batch.failing).Some? {
            PassesAgree(FailAll(a, batch, batch.failing).value, FailAll(b, batch, batch.failing).value, batch,
              batch.passing);
          }
        }
      case Moved(k, _, _) => assert Get(a, k) == Get(b, k);
      case Claimed(k, _) => assert Get(a, k) == Get(b, k);
      case Released(k, _) => assert Get(a, k) == Get(b, k);
      case Noted(k, _) => assert Get(a, k) == Get(b, k);
    }
  }

  /** Stores that agree still do when only their tasks and decisions change, and alike. */
  lemma StillAgree(a: Tables, b: Tables, a': Tables, b': Tables, tenant: string)
    requires Agree(a, b, tenant) && a' == a.(tasks := a'.tasks, decisions := a'.decisions)
    requires b' == b.(tasks := b'.tasks, decisions := b'.decisions)
    requires SameQueue(a'.tasks, b'.tasks, tenant) && forall d :: DecisionOf(a', d, tenant) == DecisionOf(b', d, tenant)
    ensures Agree(a', b', tenant)
  {
    hide Reload, Get, DecisionOf;
    SameRuns(a, a', tenant);
    SameRuns(b, b', tenant);
    forall id
      ensures Reload(a', id, tenant) == Reload(b', id, tenant)
      ensures Owns(a', id, tenant) <==> Owns(b', id, tenant)
      ensures Owns(a', id, tenant) ==> a'.runs[id] == b'.runs[id]
    {
      assert Reload(a, id, tenant) == Reload(b, id, tenant);
      assert Owns(a, id, tenant) <==> Owns(b, id, tenant);
    }
  }

  lemma DecidedTasksAgree(a: Tasks, b: Tasks, f: Finding)
    requires SameQueue(a, b, f.key.tenant)
    ensures SameQueue(Apply(a, Decided(f)), Apply(b, Decided(f)), f.key.tenant)
  {
    hide Raised;
    assert Get(a, f.key) == Get(b, f.key);
  }

  lemma DecisionsAgree(a: Tables, b: Tables, d: Decision, task: Option<Finding>)
    requires Agree(a, b, d.tenant) && OwnIds(a, Write.KeepDecision(d, task)) && OwnIds(b, Write.KeepDecision(d, task))
    ensures Agree(Written(a, Write.KeepDecision(d, task)), Written(b, Write.KeepDecision(d, task)), d.tenant)
  {
    hide Reload, Get, Apply, Owns;
    var w := Write.KeepDecision(d, task);
    var a', b' := Written(a, w), Written(b, w);
    assert DecisionOf(a, d.id, d.tenant) == DecisionOf(b, d.id, d.tenant);
    if TaskFits(d, task) && task.Some? {
      DecidedTasksAgree(a.tasks, b.tasks, task.value);
    }
    forall id ensures DecisionOf(a', id, d.tenant) == DecisionOf(b', id, d.tenant) {
      assert DecisionOf(a, id, d.tenant) == DecisionOf(b, id, d.tenant);
    }
    StillAgree(a, b, a', b', d.tenant);
  }

  lemma QueueWritesAgree(a: Tables, b: Tables, scope: string, op: Op)
    requires Agree(a, b, TenantOf(WriteQueue(scope, op)))
    ensures Agree(Written(a, WriteQueue(scope, op)), Written(b, WriteQueue(scope, op)), TenantOf(WriteQueue(scope, op)))
  {
    hide Reload, Get, Apply, DecisionOf, Owns;
    var w, tenant := WriteQueue(scope, op), TenantOf(WriteQueue(scope, op));
    var a', b' := Written(a, w), Written(b, w);
    if Scoped(scope, op) {
      OpsAgree(a.tasks, b.tasks, scope, op);
      SameDecisions(a, a', tenant);
      SameDecisions(b, b', tenant);
      forall d ensures DecisionOf(a', d, tenant) == DecisionOf(b', d, tenant) {
        assert DecisionOf(a, d, tenant) == DecisionOf(b, d, tenant);
      }
      StillAgree(a, b, a', b', tenant);
    }
  }

  lemma SameDecisions(a: Tables, b: Tables, tenant: string)
    requires a.decisions == b.decisions
    ensures forall d :: DecisionOf(a, d, tenant) == DecisionOf(b, d, tenant)
  {
  }

  lemma WritesAgree(a: Tables, b: Tables, w: Write)
    requires Agree(a, b, TenantOf(w)) && OwnIds(a, w) && OwnIds(b, w)
    ensures Agree(Written(a, w), Written(b, w), TenantOf(w))
  {
    hide Agree, Written, OwnIds;
    match w {
      case SaveRun(run) => assert OwnIds(a, w) && OwnIds(b, w); OwnSave(a, run); OwnSave(b, run); SavesAgree(a, b, run);
      case WriteQueue(scope, op) => QueueWritesAgree(a, b, scope, op);
      case KeepDecision(d, task) => DecisionsAgree(a, b, d, task);
    }
  }

  lemma OwnSave(t: Tables, run: Run)
    requires OwnIds(t, Write.SaveRun(run))
    ensures !TakenByAnother(t, run)
  {
  }

  function OnlyOf(ws: seq<Write>, tenant: string): seq<Write>
  {
    if ws == [] then []
    else OnlyOf(ws[..|ws| - 1], tenant) + if TenantOf(ws[|ws| - 1]) == tenant then [ws[|ws| - 1]] else []
  }

  /** Two properties never use one id: true of ids that are digests of what includes the property. */
  predicate OwnId(a: Write, b: Write)
  {
    match (a, b)
    case (SaveRun(r), SaveRun(s)) => IdOf(r) == IdOf(s) ==> r.tenant == s.tenant
    case (KeepDecision(d, _), KeepDecision(e, _)) => d.id == e.id ==> d.tenant == e.tenant
    case _ => true
  }

  predicate NoSharedIds(ws: seq<Write>)
  {
    forall i, j :: 0 <= i < |ws| && 0 <= j < |ws| ==> OwnId(ws[i], ws[j])
  }

  /** Ids in the store are ids that were written. */
  predicate IdsFrom(t: Tables, ws: seq<Write>)
  {
    && (forall id :: id in t.runs ==> exists i :: 0 <= i < |ws| && IsSave(ws[i], id, t.runs[id].tenant))
    && (forall d :: d in t.decisions ==> exists i :: 0 <= i < |ws| && IsDecision(ws[i], d, t.decisions[d].tenant))
  }

  predicate IsSave(w: Write, id: RunId, tenant: string)
  {
    w.SaveRun? && IdOf(w.run) == id && w.run.tenant == tenant
  }

  predicate IsDecision(w: Write, id: string, tenant: string)
  {
    w.KeepDecision? && w.decision.id == id && w.decision.tenant == tenant
  }

  lemma WrittenNow(t: Tables, w: Write)
    ensures forall id | id in Written(t, w).runs ::
              var tenant := Written(t, w).runs[id].tenant;
              IsSave(w, id, tenant) || (id in t.runs && t.runs[id].tenant == tenant)
    ensures forall d | d in Written(t, w).decisions ::
              var tenant := Written(t, w).decisions[d].tenant;
              IsDecision(w, d, tenant) || (d in t.decisions && t.decisions[d].tenant == tenant)
  {
    hide Apply, RunWritable, OtherVerdicts, OtherEvidence, VerdictRows, EvidenceRows;
  }

  lemma IdsFromMore(t: Tables, ws: seq<Write>, w: Write)
    requires IdsFrom(t, ws)
    ensures IdsFrom(Written(t, w), ws + [w])
  {
    hide Written, IsSave, IsDecision;
    WrittenNow(t, w);
    var all, after := ws + [w], Written(t, w);
    assert all[|ws|] == w;
    forall id | id in after.runs
      ensures exists i :: 0 <= i < |all| && IsSave(all[i], id, after.runs[id].tenant)
    {
      if IsSave(w, id, after.runs[id].tenant) {
        assert IsSave(all[|ws|], id, after.runs[id].tenant);
      } else {
        var i :| 0 <= i < |ws| && IsSave(ws[i], id, t.runs[id].tenant);
        assert all[i] == ws[i];
      }
    }
    forall d | d in after.decisions
      ensures exists i :: 0 <= i < |all| && IsDecision(all[i], d, after.decisions[d].tenant)
    {
      if IsDecision(w, d, after.decisions[d].tenant) {
        assert IsDecision(all[|ws|], d, after.decisions[d].tenant);
      } else {
        var i :| 0 <= i < |ws| && IsDecision(ws[i], d, t.decisions[d].tenant);
        assert all[i] == ws[i];
      }
    }
  }

  lemma {:induction false} IdsAreWritten(ws: seq<Write>)
    ensures IdsFrom(AllWritten(ws), ws)
  {
    hide Written;
    if ws != [] {
      IdsAreWritten(ws[..|ws| - 1]);
      IdsFromMore(AllWritten(ws[..|ws| - 1]), ws[..|ws| - 1], ws[|ws| - 1]);
      assert ws == ws[..|ws| - 1] + [ws[|ws| - 1]];
    }
  }

  predicate Within(some: seq<Write>, ws: seq<Write>)
  {
    forall i :: 0 <= i < |some| ==> some[i] in ws
  }

  lemma SaveIsOwn(a: Write, run: Run, tenant: string)
    requires OwnId(a, Write.SaveRun(run)) && IsSave(a, IdOf(run), tenant)
    ensures tenant == run.tenant
  {
  }

  lemma DecisionIsOwn(a: Write, d: Decision, task: Option<Finding>, tenant: string)
    requires OwnId(a, Write.KeepDecision(d, task)) && IsDecision(a, d.id, tenant)
    ensures tenant == d.tenant
  {
  }

  lemma IdsAreOwn(t: Tables, some: seq<Write>, ws: seq<Write>, w: Write)
    requires IdsFrom(t, some) && Within(some, ws) && w in ws && NoSharedIds(ws)
    ensures OwnIds(t, w)
  {
    hide NoSharedIds, OwnId, IsSave, IsDecision;
    match w {
      case SaveRun(run) =>
        if IdOf(run) in t.runs {
          var i :| 0 <= i < |some| && IsSave(some[i], IdOf(run), t.runs[IdOf(run)].tenant);
          Unshared(some[i], w, ws);
          SaveIsOwn(some[i], run, t.runs[IdOf(run)].tenant);
        }
      case WriteQueue(_, _) =>
      case KeepDecision(d, task) =>
        if d.id in t.decisions {
          var i :| 0 <= i < |some| && IsDecision(some[i], d.id, t.decisions[d.id].tenant);
          Unshared(some[i], w, ws);
          DecisionIsOwn(some[i], d, task, t.decisions[d.id].tenant);
        }
    }
  }

  lemma Unshared(a: Write, b: Write, ws: seq<Write>)
    requires a in ws && b in ws && NoSharedIds(ws)
    ensures OwnId(a, b)
  {
    var i :| 0 <= i < |ws| && ws[i] == a;
    var j :| 0 <= j < |ws| && ws[j] == b;
    assert OwnId(ws[i], ws[j]);
  }

  lemma {:induction false} OnlyOfWithin(ws: seq<Write>, tenant: string)
    ensures Within(OnlyOf(ws, tenant), ws)
  {
    if ws != [] {
      OnlyOfWithin(ws[..|ws| - 1], tenant);
    }
  }

  lemma AgreeTransitive(a: Tables, b: Tables, c: Tables, tenant: string)
    requires Agree(a, b, tenant) && Agree(b, c, tenant)
    ensures Agree(a, c, tenant)
  {
    hide Reload, Get;
    forall d ensures DecisionOf(a, d, tenant) == DecisionOf(c, d, tenant) {
      assert DecisionOf(a, d, tenant) == DecisionOf(b, d, tenant);
    }
  }

  lemma {:induction false} AsIfAloneUpTo(ws: seq<Write>, n: nat, tenant: string)
    requires n <= |ws| && NoSharedIds(ws)
    ensures Agree(AllWritten(ws[..n]), AllWritten(OnlyOf(ws[..n], tenant)), tenant)
  {
    hide Written, Agree, NoSharedIds, OwnIds;
    if n == 0 {
      SameAgrees(EMPTY, tenant);
    } else {
      var before, w := ws[..n - 1], ws[n - 1];
      assert ws[..n][..n - 1] == before;
      AsIfAloneUpTo(ws, n - 1, tenant);
      var all, own := AllWritten(before), AllWritten(OnlyOf(before, tenant));
      if TenantOf(w) == tenant {
        IdsAreWritten(before);
        IdsAreWritten(OnlyOf(before, tenant));
        OnlyOfWithin(before, tenant);
        IdsAreOwn(all, before, ws, w);
        IdsAreOwn(own, OnlyOf(before, tenant), ws, w);
        WritesAgree(all, own, w);
        assert (OnlyOf(before, tenant) + [w])[..|OnlyOf(before, tenant)|] == OnlyOf(before, tenant);
      } else {
        assert OnlyOf(before, tenant) + [] == OnlyOf(before, tenant);
        OthersAgree(all, w, tenant);
        AgreeTransitive(Written(all, w), all, own, tenant);
      }
    }
  }

  lemma SameAgrees(t: Tables, tenant: string)
    ensures Agree(t, t, tenant)
  {
  }

  lemma OthersAgree(t: Tables, w: Write, tenant: string)
    requires TenantOf(w) != tenant
    ensures Agree(Written(t, w), t, tenant)
  {
    hide Written, SameFor;
    OthersSeeNothing(t, w, tenant);
    OthersKeepOwnership(t, w, tenant);
  }

  /** Over every sequence of writes in which no two properties use one id, a property reads exactly
      what it would read if it had the store to itself. */
  lemma AsIfAlone(ws: seq<Write>, tenant: string)
    requires NoSharedIds(ws)
    ensures SameFor(AllWritten(ws), AllWritten(OnlyOf(ws, tenant)), tenant)
  {
    hide Written, SameFor, NoSharedIds;
    AsIfAloneUpTo(ws, |ws|, tenant);
    assert ws[..|ws|] == ws;
  }
}
