/** What holds of a task over every history of runs, people and notifiers
    (hotelcontrols/store/sqlite.py, hotelcontrols/actions/records.py). */
module QueueHistory {
  import opened Basics
  import opened Runs
  import opened Queue

  // ------------------------------------------------------------------ one task at every moment
  /** An annotation is strictly later than the newest failure; a task is stamped with a person's
      move exactly when it is closed; the newest failure is not before the first. */
  predicate Sound(t: Task)
  {
    && (t.cleared.Some? ==> t.cleared.value.at > t.lastFailingAt)
    && (t.moved.Some? <==> t.state != Pending)
    && t.lastFailingAt >= t.raisedAt
  }

  lemma HappensKeepsSound(t: Task, e: Event)
    requires Sound(t)
    ensures Sound(Happens(t, e))
  {
  }

  /** A cleared task was cleared strictly after its newest failure, over every history. */
  lemma {:induction false} AlwaysSound(es: seq<Event>)
    ensures Steps(None, es).Some? ==> Sound(Steps(None, es).value)
  {
    hide Happens, Sound;
    if es != [] {
      AlwaysSound(es[..|es| - 1]);
      var before, e := Steps(None, es[..|es| - 1]), es[|es| - 1];
      if before.Some? {
        HappensKeepsSound(before.value, e);
      } else if e.Fail? || e.Raise? {
        RaisedIsSound(e.f);
      }
    }
  }

  lemma RaisedIsSound(f: Finding)
    ensures Sound(Raised(f))
  {
  }

  /** What a task is about, who raised it and when never change; only a person changes its state,
      and only from pending; a closed task keeps its state and its stamp. */
  predicate Follows(a: Task, b: Task)
  {
    && b.key == a.key && b.about == a.about && b.raisedBy == a.raisedBy && b.raisedAt == a.raisedAt
    && (a.state != Pending ==> b.state == a.state && b.moved == a.moved)
    && b.lastFailingAt >= a.lastFailingAt
  }

  lemma HappensFollows(t: Task, e: Event)
    ensures Follows(t, Happens(t, e))
    ensures !e.Transition? ==> Happens(t, e).state == t.state && Happens(t, e).moved == t.moved
    ensures e.Fail? || e.Pass? || e.Raise? ==> Happens(t, e).notice == t.notice && Happens(t, e).note == t.note
    ensures e.Transition? || e.Claim? || e.Release? || e.Remark? ==>
              Happens(t, e).cleared == t.cleared && Happens(t, e).lastFailingRun == t.lastFailingRun
              && Happens(t, e).lastFailingAt == t.lastFailingAt
  {
  }

  /** Over every history a task leaves pending at most once and never returns, and it never goes
      away. */
  lemma {:induction false} ClosedStaysClosed(t: Task, es: seq<Event>)
    ensures Steps(Some(t), es).Some? && Follows(t, Steps(Some(t), es).value)
  {
    hide Happens;
    if es != [] {
      ClosedStaysClosed(t, es[..|es| - 1]);
      HappensFollows(Steps(Some(t), es[..|es| - 1]).value, es[|es| - 1]);
    }
  }

  function Moves(t: Option<Task>, es: seq<Event>): nat
  {
    if es == [] then 0
    else
      var before, e := Steps(t, es[..|es| - 1]), es[|es| - 1];
      Moves(t, es[..|es| - 1])
      + if before.Some? && e.Transition? && MayMove(before.value.state, e.state) then 1 else 0
  }

  /** Of all the moves people make on a task, at most one is ever allowed, and one is exactly when
      the task has left pending. */
  lemma {:induction false} OneMoveAtMost(es: seq<Event>)
    ensures Moves(None, es) <= 1
    ensures Moves(None, es) == 1 <==> Steps(None, es).Some? && Steps(None, es).value.state != Pending
  {
    if es != [] {
      OneMoveAtMost(es[..|es| - 1]);
      var before, e := Steps(None, es[..|es| - 1]), es[|es| - 1];
      if before.Some? {
        HappensFollows(before.value, e);
      }
    }
  }

  // ------------------------------------------------------------------ the newest failure
  /** The instants at which the task was found failing: each recorded failure, and the one that
      raised it. */
  function FailInstants(es: seq<Event>): set<int>
  {
    if es == [] then {}
    else
      var before, e := es[..|es| - 1], es[|es| - 1];
      FailInstants(before)
      + if e.Fail? || (e.Raise? && Steps(None, before).None?) then {e.f.at} else {}
  }

  /** The newest failure is the latest of all failures told, in whatever order they were told. */
  lemma {:induction false} NewestFailureIsMaximum(es: seq<Event>)
    ensures Steps(None, es).None? <==> FailInstants(es) == {}
    ensures Steps(None, es).Some? ==>
              var last := Steps(None, es).value.lastFailingAt;
              last in FailInstants(es) && forall at :: at in FailInstants(es) ==> at <= last
  {
    if es != [] {
      NewestFailureIsMaximum(es[..|es| - 1]);
    }
  }

  // ------------------------------------------------------------------ the annotation
  /** Whether a pass later than every failure has been told. */
  predicate LaterPass(es: seq<Event>, last: int)
  {
    exists i :: 0 <= i < |es| && es[i].Pass? && es[i].c.at > last
  }

  predicate Annotated(t: Option<Task>)
  {
    t.Some? && t.value.cleared.Some?
  }

  /** Whether the annotation says exactly what was told. */
  predicate Exact(es: seq<Event>)
  {
    Steps(None, es).Some? ==> (Annotated(Steps(None, es)) <==> LaterPass(es, Steps(None, es).value.lastFailingAt))
  }

  /** The annotation is never invented: what it quotes is a pass that was told. */
  lemma {:induction false} AnnotationWasTold(es: seq<Event>)
    requires Annotated(Steps(None, es))
    ensures Pass(Steps(None, es).value.cleared.value) in es
    ensures LaterPass(es, Steps(None, es).value.lastFailingAt)
  {
    hide Sound;
    var before, e := es[..|es| - 1], es[|es| - 1];
    assert es == before + [e];
    var t, now := Steps(None, before), Steps(None, es).value;
    if t.Some? && t.value.cleared == now.cleared {
      AnnotationWasTold(before);
    } else {
      assert e == Pass(now.cleared.value);
    }
    AlwaysSound(es);
    var i :| 0 <= i < |es| && es[i] == Pass(now.cleared.value);
    assert Sound(now);
    LaterThanLast(now);
    assert es[i].Pass? && es[i].c.at > now.lastFailingAt;
  }

  lemma LaterThanLast(t: Task)
    requires Sound(t) && t.cleared.Some?
    ensures t.cleared.value.at > t.lastFailingAt
  {
  }

  /** One more failure keeps an exact annotation exact unless it removes the annotation - or finds
      none - while some later pass has been told: exactly then it does not. */
  lemma FailKeepsExactIff(es: seq<Event>, f: Finding)
    requires Steps(None, es).Some? && Exact(es)
    ensures var t := Steps(None, es).value;
            var last := if f.at >= t.lastFailingAt then f.at else t.lastFailingAt;
            Exact(es + [Fail(f)])
            <==> !(LaterPass(es, last) && (t.cleared.None? || t.cleared.value.at <= f.at))
  {
    StepsThen(None, es, Fail(f));
    var t := Steps(None, es).value;
    var last := if f.at >= t.lastFailingAt then f.at else t.lastFailingAt;
    var after := es + [Fail(f)];
    if LaterPass(es, last) {
      var i :| 0 <= i < |es| && es[i].Pass? && es[i].c.at > last;
      assert after[i] == es[i];
    }
    if LaterPass(after, last) {
      var i :| 0 <= i < |after| && after[i].Pass? && after[i].c.at > last;
      assert after[i] == es[i];
    }
    AlwaysSound(es);
    if t.cleared.Some? && f.at < t.cleared.value.at {
      AnnotationWasTold(es);
      var i :| 0 <= i < |es| && es[i] == Pass(t.cleared.value);
      assert es[i].c.at > last;
    }
  }

  /** A pass, a person and a notifier always keep an exact annotation exact. */
  lemma OthersKeepExact(es: seq<Event>, e: Event)
    requires Steps(None, es).Some? && Exact(es) && !e.Fail?
    ensures Exact(es + [e])
  {
    StepsThen(None, es, e);
    var t, after := Steps(None, es).value, es + [e];
    HappensFollows(t, e);
    if LaterPass(es, t.lastFailingAt) {
      var i :| 0 <= i < |es| && es[i].Pass? && es[i].c.at > t.lastFailingAt;
      assert after[i] == es[i];
    }
    if LaterPass(after, t.lastFailingAt) {
      var i :| 0 <= i < |after| && after[i].Pass? && after[i].c.at > t.lastFailingAt;
      if i < |es| {
        assert after[i] == es[i];
      }
    }
    if e.Pass? && e.c.at > t.lastFailingAt {
      assert after[|es|].Pass? && after[|es|].c.at > t.lastFailingAt;
    }
  }

  /** Whether telling this keeps an exact annotation exact: a failure that raises the entry must not
      come after a later pass was told; one that is told again must not find a later pass and leave
      the entry without an annotation; anything else always does. */
  predicate KeepsExact(es: seq<Event>, e: Event)
  {
    match Steps(None, es)
    case None => e.Fail? || e.Raise? ==> !LaterPass(es, e.f.at)
    case Some(t) =>
      e.Fail? ==>
        var last := if e.f.at >= t.lastFailingAt then e.f.at else t.lastFailingAt;
        !(LaterPass(es, last) && (t.cleared.None? || t.cleared.value.at <= e.f.at))
  }

  lemma RaisingKeepsExactIff(es: seq<Event>, e: Event)
    requires Steps(None, es).None? && (e.Fail? || e.Raise?)
    ensures Exact(es + [e]) <==> !LaterPass(es, e.f.at)
  {
    StepsThen(None, es, e);
    JustRaised(e);
    var after := es + [e];
    if LaterPass(es, e.f.at) {
      var i :| 0 <= i < |es| && es[i].Pass? && es[i].c.at > e.f.at;
      assert after[i] == es[i];
    }
    if LaterPass(after, e.f.at) {
      var i :| 0 <= i < |after| && after[i].Pass? && after[i].c.at > e.f.at;
      assert after[i] == es[i];
    }
  }

  /** Over every history whose annotation is exact, one more event keeps it exact exactly when it is
      not one of the two kinds of late failure. */
  lemma NextKeepsExactIff(es: seq<Event>, e: Event)
    requires Exact(es)
    ensures Exact(es + [e]) <==> KeepsExact(es, e)
  {
    hide Exact, Step, Raised, Happens;
    if Steps(None, es).None? {
      if e.Fail? || e.Raise? {
        RaisingKeepsExactIff(es, e);
      } else {
        StepsThen(None, es, e);
        StepOfNone(e);
        NoTaskIsExact(es + [e]);
      }
    } else if e.Fail? {
      FailKeepsExactIff(es, e.f);
    } else {
      OthersKeepExact(es, e);
    }
  }

  lemma NoTaskIsExact(es: seq<Event>)
    requires Steps(None, es).None?
    ensures Exact(es)
  {
  }

  predicate AllKeepExact(es: seq<Event>)
  {
    es == [] || (AllKeepExact(es[..|es| - 1]) && KeepsExact(es[..|es| - 1], es[|es| - 1]))
  }

  /** A history's annotation was exact at every moment exactly when every event kept it so. */
  lemma {:induction false} ExactThroughoutIff(es: seq<Event>)
    ensures AllKeepExact(es) <==> forall n :: 0 <= n <= |es| ==> Exact(es[..n])
  {
    hide Exact, KeepsExact;
    if es == [] {
      NoTaskIsExact([]);
      assert es[..0] == [];
    } else {
      var front, last := es[..|es| - 1], es[|es| - 1];
      ExactThroughoutIff(front);
      assert es == front + [last] && es[..|es|] == es;
      assert forall n :: 0 <= n <= |front| ==> es[..n] == front[..n];
      assert front[..|front|] == front;
      if Exact(front) {
        NextKeepsExactIff(front, last);
      }
    }
  }

  /** A pass told before the failure that raises the entry is lost too: passing at 10, then failing at
      7, and no annotation says so. */
  lemma EarlyPassIsLost(ten: Clearance, late: Finding)
    requires ten.at == 10 && late.at == 7
    ensures Exact([Pass(ten)]) && !Exact([Pass(ten), Fail(late)])
  {
    StepsOnce(None, Pass(ten));
    assert [Pass(ten)] + [Fail(late)] == [Pass(ten), Fail(late)];
    assert [Pass(ten)][0].Pass? && [Pass(ten)][0].c.at > 7;
    assert LaterPass([Pass(ten)], 7);
    RaisingKeepsExactIff([Pass(ten)], Fail(late));
  }

  // ------------------------------------------------------------------ told in order
  predicate IsTold(e: Event)
  {
    e.Fail? || e.Pass? || e.Raise?
  }

  function Instant(e: Event): int
    requires IsTold(e)
  {
    if e.Pass? then e.c.at else e.f.at
  }

  predicate NotAfter(es: seq<Event>, at: int)
  {
    forall i :: 0 <= i < |es| && IsTold(es[i]) ==> Instant(es[i]) <= at
  }

  /** What runs and decisions say, said in the order of its instants. */
  predicate Chronological(es: seq<Event>)
  {
    es == [] || (Chronological(es[..|es| - 1])
                 && (IsTold(es[|es| - 1]) ==> NotAfter(es[..|es| - 1], Instant(es[|es| - 1]))))
  }

  /** Told in order, a task is annotated exactly when a pass strictly later than its newest failure
      was told; a tie counts as still failing. */
  lemma {:induction false} ChronologicalIsExact(es: seq<Event>)
    requires Chronological(es)
    ensures Exact(es)
  {
    hide Happens, Step, Raised;
    if es != [] {
      var before, e := es[..|es| - 1], es[|es| - 1];
      assert es == before + [e];
      ChronologicalIsExact(before);
      if Steps(None, before).None? {
        if e.Fail? || e.Raise? {
          StepsThen(None, before, e);
          JustRaised(e);
          NothingLater(es, before, e);
        } else {
          StepsThen(None, before, e);
          StepOfNone(e);
        }
      } else if e.Fail? {
        NotLaterThan(before, e.f.at);
        FailKeepsExactIff(before, e.f);
        if LaterPass(before, e.f.at) {
          assert false;
        }
        LaterIsMonotone(before, e.f.at, Steps(None, before).value.lastFailingAt);
      } else {
        OthersKeepExact(before, e);
      }
    }
  }

  lemma StepOfNone(e: Event)
    requires !e.Fail? && !e.Raise?
    ensures Step(None, e) == None
  {
  }

  lemma JustRaised(e: Event)
    requires e.Fail? || e.Raise?
    ensures Step(None, e) == Some(Raised(e.f)) && Raised(e.f).cleared == None && Raised(e.f).lastFailingAt == e.f.at
  {
  }

  lemma NotLaterThan(es: seq<Event>, at: int)
    requires NotAfter(es, at)
    ensures !LaterPass(es, at)
  {
  }

  lemma LaterIsMonotone(es: seq<Event>, a: int, b: int)
    ensures a <= b && LaterPass(es, b) ==> LaterPass(es, a)
  {
  }

  lemma NothingLater(es: seq<Event>, before: seq<Event>, e: Event)
    requires es == before + [e] && (e.Fail? || e.Raise?) && NotAfter(before, e.f.at)
    ensures !LaterPass(es, e.f.at)
  {
    forall i | 0 <= i < |es| && es[i].Pass?
      ensures es[i].c.at <= e.f.at
    {
      assert es[i] == before[i];
    }
  }

  // ------------------------------------------------------------------ told again
  /** Nothing differs, except which of several failures of the same instant is quoted. */
  predicate SameButRun(a: Task, b: Task)
  {
    b == a.(lastFailingRun := b.lastFailingRun)
  }

  /** What was told already and changes nothing when told again. */
  predicate Settled(t: Task, e: Event)
  {
    match e
    case Fail(f) => f.at <= t.lastFailingAt && (t.cleared.Some? ==> f.at < t.cleared.value.at)
    case Pass(c) => t.cleared.Some? || c.at <= t.lastFailingAt
    case _ => false
  }

  lemma SettledStep(t: Task, e: Event)
    requires e.Fail? || e.Pass?
    ensures Settled(t, e) <==> SameButRun(t, Happens(t, e))
    ensures Settled(t, e) && e.Fail? && e.f.at < t.lastFailingAt ==> Happens(t, e) == t
    ensures Settled(t, e) && e.Pass? ==> Happens(t, e) == t
  {
  }

  lemma {:induction false} SettledSteps(t: Task, es: seq<Event>)
    requires forall e :: e in es ==> Settled(t, e)
    ensures Steps(Some(t), es).Some? && SameButRun(t, Steps(Some(t), es).value)
  {
    if es != [] {
      SettledSteps(t, es[..|es| - 1]);
      var now, e := Steps(Some(t), es[..|es| - 1]).value, es[|es| - 1];
      assert e in es;
      SettledStep(now, e);
    }
  }

  /** A failure told again is settled, over every history. */
  lemma OldFailureIsSettled(es: seq<Event>, i: nat)
    requires i < |es| && es[i].Fail?
    ensures Steps(None, es).Some? && Settled(Steps(None, es).value, es[i])
  {
    FailInstantsHas(es, i);
    NewestFailureIsMaximum(es);
    AlwaysSound(es);
  }

  lemma {:induction false} FailInstantsHas(es: seq<Event>, i: nat)
    requires i < |es| && es[i].Fail?
    ensures es[i].f.at in FailInstants(es)
  {
    if i < |es| - 1 {
      FailInstantsHas(es[..|es| - 1], i);
    }
  }

  /** Telling a history's failures and passes again changes nothing exactly when its annotation was
      exact. */
  lemma ReplayIsSafeIff(es: seq<Event>)
    requires Steps(None, es).Some?
    ensures (forall i :: 0 <= i < |es| && (es[i].Fail? || es[i].Pass?) ==>
               SameButRun(Steps(None, es).value, Happens(Steps(None, es).value, es[i])))
            <==> Exact(es)
  {
    var t := Steps(None, es).value;
    forall i | 0 <= i < |es| && (es[i].Fail? || es[i].Pass?)
      ensures SameButRun(t, Happens(t, es[i])) <==> Settled(t, es[i])
      ensures es[i].Fail? ==> Settled(t, es[i])
    {
      SettledStep(t, es[i]);
      if es[i].Fail? {
        OldFailureIsSettled(es, i);
      }
    }
    if Annotated(Some(t)) {
      AnnotationWasTold(es);
    }
    if LaterPass(es, t.lastFailingAt) {
      var i :| 0 <= i < |es| && es[i].Pass? && es[i].c.at > t.lastFailingAt;
      assert Settled(t, es[i]) <==> Annotated(Some(t));
    }
  }

  // ------------------------------------------------------------------ the queue
  ghost predicate ToldInOrder(ops: seq<Op>)
  {
    forall k :: Chronological(Told(ops, k))
  }

  lemma {:induction false} ToldHas(ops: seq<Op>, op: Op, k: Key, e: Event)
    requires op in ops && e in EventsOf(op, k)
    ensures e in Told(ops, k)
  {
    hide EventsOf;
    var n := |ops| - 1;
    if ops[n] != op {
      assert op in ops[..n];
      ToldHas(ops[..n], op, k, e);
    }
  }

  lemma {:induction false} FailsTold(fs: seq<Finding>, k: Key)
    ensures forall e :: e in FailsOf(fs, k) ==> e.Fail?
    ensures forall f :: f in fs && f.key == k ==> Fail(f) in FailsOf(fs, k)
  {
    if fs != [] {
      FailsTold(fs[..|fs| - 1], k);
      assert fs == fs[..|fs| - 1] + [fs[|fs| - 1]];
    }
  }

  lemma {:induction false} PassesTold(b: Batch, records: seq<string>, k: Key)
    ensures forall e :: e in PassesOf(b, records, k) ==> e.Pass?
  {
    if records != [] {
      PassesTold(b, records[..|records| - 1], k);
    }
  }

  /** Recording an earlier batch again, when runs have been told in order: no task is new, no task
      changes except in which failure of one instant it quotes. */
  lemma RecordingAgainIsSafe(ops: seq<Op>, b: Batch)
    requires AllUniform(ops) && ToldInOrder(ops) && Recorded(b) in ops
    ensures var q, again := After(ops), Record(After(ops), b);
            && again.Kept? && again.created == 0 && again.tasks.Keys == q.Keys
            && forall k :: k in q ==> SameButRun(q[k], again.tasks[k])
  {
    hide Happens, Step, SameButRun, Settled, Chronological, EventsOf, FailsOf, PassesOf, Apply;
    var q := After(ops);
    assert UniformOp(Recorded(b));
    WritesAreLocal(q, Recorded(b), Key("", "", 0, ""));
    var again := Record(q, b);
    assert again.tasks == Apply(q, Recorded(b)) by { AppliedRecording(q, b); }
    forall k: Key
      ensures k in q <==> k in again.tasks
      ensures k in q ==> SameButRun(q[k], again.tasks[k])
    {
      RecordingAgainAt(ops, b, k);
    }
    FailAllKeys(q, b, b.failing);
    PassAllKeys(FailAll(q, b, b.failing).value, b, b.passing);
    var failed := FailAll(q, b, b.failing).value;
    assert failed.Keys == q.Keys;
    assert |failed| == |failed.Keys| && |q| == |q.Keys|;
  }

  lemma AppliedRecording(q: Tasks, b: Batch)
    requires Record(q, b).Kept?
    ensures Apply(q, Recorded(b)) == Record(q, b).tasks
  {
    hide Record;
  }

  lemma RecordingAgainAt(ops: seq<Op>, b: Batch, k: Key)
    requires AllUniform(ops) && ToldInOrder(ops) && Recorded(b) in ops
    ensures var q, again := After(ops), Apply(After(ops), Recorded(b));
            (k in q <==> k in again) && (k in q ==> SameButRun(q[k], again[k]))
  {
    hide Happens, Step, SameButRun, Settled, Chronological, FailsOf, PassesOf, Apply, After, Told, Steps;
    assert UniformOp(Recorded(b));
    var q, es := After(ops), EventsOf(Recorded(b), k);
    WritesAreLocal(q, Recorded(b), k);
    TasksAreIndependent(ops, k);
    var told := Told(ops, k);
    ChronologicalIsExact(told);
    FailsTold(b.failing, k);
    PassesTold(b, b.passing, k);
    forall e | e in es
      ensures e in told && (e.Fail? || e.Pass?)
    {
      ToldHas(ops, Recorded(b), k, e);
    }
    if k in q {
      forall e | e in es
        ensures Settled(q[k], e)
      {
        ExactSettles(told, e);
      }
      SettledSteps(q[k], es);
    } else {
      NoTaskNoFailure(told, es);
    }
  }

  lemma ExactSettles(told: seq<Event>, e: Event)
    requires Steps(None, told).Some? && Exact(told) && e in told && (e.Fail? || e.Pass?)
    ensures Settled(Steps(None, told).value, e)
  {
    ReplayIsSafeIff(told);
    SettledStep(Steps(None, told).value, e);
  }

  lemma NoTaskNoFailure(told: seq<Event>, es: seq<Event>)
    requires Steps(None, told).None? && forall e :: e in es ==> e in told && (e.Fail? || e.Pass?)
    ensures Steps(None, es) == None
  {
    NewestFailureIsMaximum(told);
    forall e | e in es ensures e.Pass? {
      if e.Fail? {
        var i :| 0 <= i < |told| && told[i] == e;
        FailInstantsHas(told, i);
      }
    }
    OnlyPasses(es);
  }

  lemma {:induction false} OnlyPasses(es: seq<Event>)
    requires forall e :: e in es ==> e.Pass?
    ensures Steps(None, es) == None
  {
    if es != [] {
      OnlyPasses(es[..|es| - 1]);
      assert es[|es| - 1] in es;
    }
  }

  /** Recording counts as new exactly the keys it adds. */
  lemma {:induction false} FailAllKeys(q: Tasks, b: Batch, fs: seq<Finding>)
    requires forall f :: f in fs ==> f.key == BatchKey(b, f.key.record)
    ensures FailAll(q, b, fs).Some? && FailAll(q, b, fs).value.Keys == q.Keys + set f | f in fs :: f.key
  {
    hide FailedAgain, Raised;
    if fs != [] {
      var n := |fs| - 1;
      FailAllKeys(q, b, fs[..n]);
      assert fs == fs[..n] + [fs[n]];
      assert fs[n] in fs;
    }
  }

  lemma {:induction false} PassAllKeys(q: Tasks, b: Batch, records: seq<string>)
    ensures PassAll(q, b, records).Keys == q.Keys
  {
    hide PassedSince;
    if records != [] {
      PassAllKeys(q, b, records[..|records| - 1]);
    }
  }

  /** A control run five times raises one task: keys are unique, and a batch adds exactly the keys
      it fails that had none. */
  lemma CreatedAreNewKeys(q: Tasks, b: Batch)
    requires Uniform(b)
    ensures Record(q, b).Kept?
    ensures Record(q, b).tasks.Keys == q.Keys + set f | f in b.failing :: f.key
    ensures Record(q, b).created == |(set f | f in b.failing :: f.key) - q.Keys|
  {
    hide FailAll, PassAll;
    FailAllKeys(q, b, b.failing);
    var failed := FailAll(q, b, b.failing).value;
    PassAllKeys(failed, b, b.passing);
    MoreKeys(q, failed, set f | f in b.failing :: f.key);
  }

  lemma MoreKeys(q: Tasks, failed: Tasks, keys: set<Key>)
    requires failed.Keys == q.Keys + keys
    ensures |failed| - |q| == |keys - q.Keys|
  {
    assert failed.Keys == q.Keys + (keys - q.Keys) && q.Keys !! (keys - q.Keys);
    assert |failed| == |failed.Keys| && |q| == |q.Keys|;
  }

  // ------------------------------------------------------------------ out of order
  /** Out of order the annotation can be lost for good: failing at 1, passing at 5 and at 10, and
      then a failure of instant 7 told late. The pass at 10 is later than every failure, and yet the
      task is not annotated. */
  lemma LateFailureLosesPass(f: Finding, late: Finding, five: Clearance, ten: Clearance)
    requires f.at == 1 && late.at == 7 && five.at == 5 && ten.at == 10
    ensures var es := [Fail(f), Pass(five), Pass(ten), Fail(late)];
            && Steps(None, es).Some? && Steps(None, es).value.cleared == None
            && Steps(None, es).value.lastFailingAt == 7 && LaterPass(es, 7) && !Exact(es)
  {
    var e1, e2, e3 := [Fail(f)], [Fail(f), Pass(five)], [Fail(f), Pass(five), Pass(ten)];
    var es := [Fail(f), Pass(five), Pass(ten), Fail(late)];
    StepsOnce(None, Fail(f));
    assert e2 == e1 + [Pass(five)] && e3 == e2 + [Pass(ten)] && es == e3 + [Fail(late)];
    StepsThen(None, e1, Pass(five));
    StepsThen(None, e2, Pass(ten));
    StepsThen(None, e3, Fail(late));
    assert es[2].Pass? && es[2].c.at > 7;
  }
}
