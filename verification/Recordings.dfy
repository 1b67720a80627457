/** What recording one run's findings does to each entry of the queue, read off the entry and the run
    (hotelcontrols/actions/queue.py, hotelcontrols/store/postgres.py). */
module Recordings {
  import opened Basics
  import opened Runs
  import opened Queue

  predicate Fails(b: Batch, k: Key)
  {
    exists f :: f in b.failing && f.key == k
  }

  predicate Passes(b: Batch, k: Key)
  {
    k.tenant == b.tenant && k.control == b.control && k.version == b.version && k.record in b.passing
  }

  /** The first finding about a key is the one it is raised by. */
  ghost predicate FirstAbout(fs: seq<Finding>, k: Key, i: nat)
  {
    i < |fs| && fs[i].key == k && forall j: nat :: j < i ==> fs[j].key != k
  }

  /** A new entry is pending, unmarked and not cleared, and every receipt is this run's. */
  ghost predicate NewEntrySays(b: Batch, k: Key, now: Task)
  {
    && now.key == k && now.state == Pending && now.moved.None? && now.notice.None? && now.note.None?
    && now.cleared.None?
    && now.raisedBy == b.run && now.raisedAt == b.at && now.lastFailingRun == b.run && now.lastFailingAt == b.at
    && exists i: nat :: FirstAbout(b.failing, k, i) && now.about == b.failing[i].about
  }

  /** An entry there was keeps what it says, who moved it and its marker. A failure no older than the
      newest becomes the newest, with its run, and takes away a clearance no later than itself; a pass
      later than the newest failure clears an entry nothing clears yet. */
  predicate OldEntrySays(b: Batch, k: Key, was: Task, now: Task)
  {
    var newer := Fails(b, k) && b.at >= was.lastFailingAt;
    var kept := if Fails(b, k) && was.cleared.Some? && b.at >= was.cleared.value.at then None else was.cleared;
    && now.key == was.key && now.about == was.about && now.raisedBy == was.raisedBy && now.raisedAt == was.raisedAt
    && now.state == was.state && now.moved == was.moved && now.notice == was.notice && now.note == was.note
    && now.lastFailingAt == (if newer then b.at else was.lastFailingAt)
    && now.lastFailingRun == (if newer then b.run else was.lastFailingRun)
    && if Passes(b, k) && kept.None? && b.at > now.lastFailingAt
       then now.cleared == Some(Clearance(b.run, b.at, b.asOf))
       else now.cleared == kept
  }

  predicate AllFail(b: Batch, es: seq<Event>)
  {
    forall e :: e in es ==> e.Fail? && e.f.run == b.run && e.f.at == b.at
  }

  predicate AllPass(b: Batch, es: seq<Event>)
  {
    forall i :: 0 <= i < |es| ==> es[i] == Pass(Clearance(b.run, b.at, b.asOf))
  }

  lemma {:induction false} FailsAbout(b: Batch, fs: seq<Finding>, k: Key)
    requires forall f :: f in fs ==> f.run == b.run && f.at == b.at
    ensures AllFail(b, FailsOf(fs, k))
    ensures FailsOf(fs, k) != [] <==> exists f :: f in fs && f.key == k
  {
    if fs != [] {
      var n := |fs| - 1;
      assert fs == fs[..n] + [fs[n]];
      FailsAbout(b, fs[..n], k);
    }
  }

  lemma {:induction false} FirstIsTold(fs: seq<Finding>, k: Key) returns (i: nat)
    requires FailsOf(fs, k) != []
    ensures FirstAbout(fs, k, i) && FailsOf(fs, k)[0] == Fail(fs[i])
  {
    var n := |fs| - 1;
    if FailsOf(fs[..n], k) == [] {
      i := n;
      NoneTold(fs[..n], k);
      assert forall j: nat :: j < n ==> fs[..n][j] == fs[j];
    } else {
      i := FirstIsTold(fs[..n], k);
      assert forall j: nat :: j <= i ==> fs[..n][j] == fs[j];
    }
  }

  lemma {:induction false} NoneTold(fs: seq<Finding>, k: Key)
    requires FailsOf(fs, k) == []
    ensures forall j: nat :: j < |fs| ==> fs[j].key != k
  {
    if fs != [] {
      NoneTold(fs[..|fs| - 1], k);
      assert forall j: nat :: j < |fs| - 1 ==> fs[..|fs| - 1][j] == fs[j];
    }
  }

  lemma {:induction false} PassesAbout(b: Batch, records: seq<string>, k: Key)
    ensures AllPass(b, PassesOf(b, records, k))
    ensures PassesOf(b, records, k) != [] <==>
              k.tenant == b.tenant && k.control == b.control && k.version == b.version && k.record in records
  {
    if records != [] {
      PassesAbout(b, records[..|records| - 1], k);
      assert records == records[..|records| - 1] + [records[|records| - 1]];
    }
  }

  /** What failing, once or more, at one instant makes of an entry. */
  predicate FailedSays(b: Batch, was: Task, now: Task)
  {
    var newer := b.at >= was.lastFailingAt;
    now == was.(lastFailingAt := if newer then b.at else was.lastFailingAt,
                lastFailingRun := if newer then b.run else was.lastFailingRun,
                cleared := if was.cleared.Some? && b.at >= was.cleared.value.at then None else was.cleared)
  }

  lemma {:induction false} ManyFails(b: Batch, was: Task, es: seq<Event>)
    requires AllFail(b, es)
    ensures Steps(Some(was), es).Some?
    ensures if es == [] then Steps(Some(was), es) == Some(was) else FailedSays(b, was, Steps(Some(was), es).value)
  {
    if es != [] {
      var n := |es| - 1;
      assert es == es[..n] + [es[n]];
      ManyFails(b, was, es[..n]);
    }
  }

  predicate PassedSays(b: Batch, was: Task, now: Task)
  {
    now == was.(cleared := if was.cleared.None? && b.at > was.lastFailingAt then Some(Clearance(b.run, b.at, b.asOf))
                           else was.cleared)
  }

  lemma OneMorePass(b: Batch, was: Task, now: Task)
    requires now == was || PassedSays(b, was, now)
    ensures PassedSays(b, was, Happens(now, Pass(Clearance(b.run, b.at, b.asOf))))
  {
  }

  lemma LastStep(t: Option<Task>, es: seq<Event>)
    requires es != []
    ensures Steps(t, es) == Step(Steps(t, es[..|es| - 1]), es[|es| - 1])
  {
  }

  lemma {:induction false} ManyPasses(b: Batch, was: Option<Task>, es: seq<Event>)
    requires AllPass(b, es)
    ensures Steps(was, es).Some? <==> was.Some?
    ensures was.Some? ==> if es == [] then Steps(was, es) == was else PassedSays(b, was.value, Steps(was, es).value)
  {
    hide Happens, PassedSays;
    if es != [] {
      ManyPasses(b, was, es[..|es| - 1]);
      LastStep(was, es);
      if was.Some? {
        OneMorePass(b, was.value, Steps(was, es[..|es| - 1]).value);
      }
    }
  }

  /** One entry, before and after a run's findings are recorded. */
  ghost predicate EntrySays(q: Tasks, b: Batch, after: Tasks, k: Key)
  {
    && (k in after <==> k in q || Fails(b, k))
    && (k in q && k in after ==> OldEntrySays(b, k, q[k], after[k]))
    && (k !in q && k in after ==> NewEntrySays(b, k, after[k]))
  }

  lemma EntryMeans(q: Tasks, b: Batch, k: Key)
    requires Uniform(b) && Record(q, b).Kept?
    ensures EntrySays(q, b, Record(q, b).tasks, k)
  {
    hide Record, Apply, FailsOf, PassesOf, Steps, FirstAbout, AllFail, AllPass;
    var fails, passes := FailsOf(b.failing, k), PassesOf(b, b.passing, k);
    AppliedMeans(q, b);
    WritesAreLocal(q, Recorded(b), k);
    StepsAppend(Get(q, k), fails, passes);
    FailsAbout(b, b.failing, k);
    PassesAbout(b, b.passing, k);
    if k in q {
      ManyFails(b, q[k], fails);
    } else if fails != [] {
      RaisedByFirst(b, k, fails);
    } else {
      NothingHappens();
    }
    ManyPasses(b, Steps(Get(q, k), fails), passes);
  }

  lemma NothingHappens()
    ensures Steps(None, []) == None
  {
  }

  lemma AppliedMeans(q: Tasks, b: Batch)
    requires Record(q, b).Kept?
    ensures Apply(q, Recorded(b)) == Record(q, b).tasks
  {
  }

  /** A new entry is raised by the first failure, and the others change nothing. */
  lemma RaisedByFirst(b: Batch, k: Key, fails: seq<Event>)
    requires Uniform(b) && fails == FailsOf(b.failing, k) != []
    ensures Steps(None, fails).Some? && NewEntrySays(b, k, Steps(None, fails).value)
  {
    hide FailsOf, Steps, FirstAbout, AllFail;
    var i := FirstIsTold(b.failing, k);
    var first := Raised(b.failing[i]);
    FailsAbout(b, b.failing, k);
    FirstIsThere(b, k, i);
    StepsOfFirst(fails, b.failing[i]);
    RestFails(b, fails);
    ManyFails(b, first, fails[1..]);
  }

  lemma FirstIsThere(b: Batch, k: Key, i: nat)
    requires Uniform(b) && FirstAbout(b.failing, k, i)
    ensures i < |b.failing| && b.failing[i].key == k && b.failing[i].run == b.run && b.failing[i].at == b.at
  {
    assert b.failing[i] in b.failing;
  }

  lemma RestFails(b: Batch, es: seq<Event>)
    requires AllFail(b, es) && es != []
    ensures AllFail(b, es[1..])
  {
  }

  lemma StepsOfFirst(es: seq<Event>, f: Finding)
    requires es != [] && es[0] == Fail(f)
    ensures Steps(None, es) == Steps(Some(Raised(f)), es[1..])
  {
    assert es == [es[0]] + es[1..];
    StepsAppend(None, [es[0]], es[1..]);
    StepsOnce(None, es[0]);
  }

  /** Recording is refused exactly for a finding of another property, and otherwise leaves every entry
      as its own findings and passes say. */
  lemma RecordedMeans(q: Tasks, b: Batch)
    requires Uniform(b)
    ensures Record(q, b).Kept? && forall k :: EntrySays(q, b, Record(q, b).tasks, k)
  {
    hide EntrySays, Record;
    WritesAreLocal(q, Recorded(b), Key("", "", 0, ""));
    forall k ensures EntrySays(q, b, Record(q, b).tasks, k) {
      EntryMeans(q, b, k);
    }
  }

  lemma RefusedIff(q: Tasks, b: Batch)
    ensures Record(q, b).RefusedBatch? <==> exists f :: f in b.failing && f.key.tenant != b.tenant
  {
  }
}
