/** Telling a task's audience once: many dispatchers and people, interleaved at every call they make
    to the store (hotelcontrols/actions/notify.py, hotelcontrols/store/sqlite.py). */
module Dispatch {
  import opened Basics
  import opened Runs
  import opened Queue
  import opened QueueHistory
  import opened Store

  const NOTIFY := "notify"

  // ------------------------------------------------------------------ one delivery
  datatype Delivery = Sent | AlreadySent | NoRoute | NoAudience | NotNotify | ClosedTask | NotSent | Defective

  datatype Sending = Delivered | Undeliverable(why: string) | Defect

  /** A way of telling somebody: who an audience is, and what becomes of a message about a task. */
  datatype Notifier = Notifier(channel: string, routed: string -> bool, send: Key -> Sending)

  /** Why a task that was read is not claimed. */
  function Unclaimed(t: Task, routed: bool): Option<Delivery>
  {
    if t.notice.Some? then Some(AlreadySent)
    else if t.state != Pending then Some(ClosedTask)
    else if t.about.kind != NOTIFY then Some(NotNotify)
    else if t.about.audience.None? || t.about.audience.value == "" then Some(NoAudience)
    else if !routed then Some(NoRoute)
    else None
  }

  /** What is said on a task that is not claimed. */
  function Explanation(t: Task, why: Delivery): Option<string>
  {
    match why
    case NoAudience => Some("the rule names no audience, so there is nobody to email")
    case NoRoute => Some("no route configured for audience " + if t.about.audience.Some? then t.about.audience.value
      else "")
    case _ => None
  }

  function ReleaseNote(s: Sending): Option<string>
  {
    if s.Undeliverable? then Some("not sent: " + s.why) else None
  }

  predicate Routed(t: Task, n: Notifier)
  {
    t.about.audience.Some? && n.routed(t.about.audience.value)
  }

  /** The writes one undisturbed delivery makes. */
  function DeliveryWrites(q: Tasks, t: Task, n: Notifier, at: int): (Delivery, seq<Op>)
  {
    match Unclaimed(t, Routed(t, n))
    case Some(why) =>
      (why, if Explanation(t, why).Some? then [Noted(t.key, Explanation(t, why).value)] else [])
    case None =>
      var claim := Claimed(t.key, Notice(at, n.channel));
      if t.key !in q || q[t.key].notice.Some? then (AlreadySent, [])
      else
        match n.send(t.key)
        case Delivered => (Sent, [claim])
        case failed => (if failed.Defect? then Defective else NotSent, [claim, Released(t.key, ReleaseNote(failed))])
  }

  function ApplyAll(q: Tasks, ops: seq<Op>): Tasks
  {
    if ops == [] then q else Apply(ApplyAll(q, ops[..|ops| - 1]), ops[|ops| - 1])
  }

  lemma ApplyFew(q: Tasks, a: Op, b: Op)
    ensures ApplyAll(q, []) == q && ApplyAll(q, [a]) == Apply(q, a) && ApplyAll(q, [a, b]) == Apply(Apply(q, a), b)
  {
    hide Apply;
    assert [a, b][..1] == [a] && [a][..0] == [];
  }

  // ------------------------------------------------------------------ what a delivery comes to
  /** A task to tell somebody of: not marked as sent, open, of the kind that is mailed, with a name to
      send it to. */
  predicate Mailable(t: Task)
  {
    && t.notice.None? && t.state == Pending && t.about.kind == "notify"
    && t.about.audience.Some? && t.about.audience.value != ""
  }

  predicate HasRoute(t: Task, n: Notifier)
  {
    t.about.audience.Some? && n.routed(t.about.audience.value)
  }

  /** The stored task is there and not marked as sent. */
  predicate Unmarked(q: Tasks, k: Key)
  {
    k in q && q[k].notice.None?
  }

  /** Each answer of a delivery, said of the task that was read, the task that is stored and the send. */
  predicate AnswerSays(q: Tasks, t: Task, n: Notifier, r: Delivery)
  {
    var due := Mailable(t) && HasRoute(t, n) && Unmarked(q, t.key);
    && (r == Sent <==> due && n.send(t.key).Delivered?)
    && (r == NotSent <==> due && n.send(t.key).Undeliverable?)
    && (r == Defective <==> due && n.send(t.key).Defect?)
    && (r == AlreadySent <==> t.notice.Some? || (Mailable(t) && HasRoute(t, n) && !Unmarked(q, t.key)))
    && (r == ClosedTask <==> t.notice.None? && t.state != Pending)
    && (r == NotNotify <==> t.notice.None? && t.state == Pending && t.about.kind != "notify")
    && (r == NoAudience <==>
          && t.notice.None? && t.state == Pending && t.about.kind == "notify"
          && (t.about.audience.None? || t.about.audience.value == ""))
    && (r == NoRoute <==> Mailable(t) && !HasRoute(t, n))
  }

  /** What it leaves of the queue: the marker of a send; no marker, and why, of a send that failed; why
      nobody is told, on a task that is not marked; and nothing else. */
  predicate QueueSays(q: Tasks, t: Task, n: Notifier, at: int, r: Delivery, after: Tasks)
  {
    var k := t.key;
    if r == Sent then k in q && after == q[k := q[k].(notice := Some(Notice(at, n.channel)), note := None)]
    else if r == NotSent && n.send(k).Undeliverable? then
      k in q && after == q[k := q[k].(notice := None, note := Some("not sent: " + n.send(k).why))]
    else if r == Defective then k in q && after == q[k := q[k].(notice := None, note := None)]
    else if r == NoAudience && Unmarked(q, k) then
      after == q[k := q[k].(note := Some("the rule names no audience, so there is nobody to email"))]
    else if r == NoRoute && Unmarked(q, k) then
      t.about.audience.Some?
      && after == q[k := q[k].(note := Some("no route configured for audience " + t.about.audience.value))]
    else after == q
  }

  lemma AnswerMeans(q: Tasks, t: Task, n: Notifier, at: int)
    ensures AnswerSays(q, t, n, DeliveryWrites(q, t, n, at).0)
  {
    hide Explanation, ReleaseNote;
  }

  lemma QueueMeans(q: Tasks, t: Task, n: Notifier, at: int)
    ensures QueueSays(q, t, n, at, DeliveryWrites(q, t, n, at).0, ApplyAll(q, DeliveryWrites(q, t, n, at).1))
  {
    hide DeliveryWrites, ApplyAll, QueueSays;
    if Unclaimed(t, Routed(t, n)).Some? {
      UnclaimedLeaves(q, t, n, at);
    } else {
      ClaimedLeaves(q, t, n, at);
    }
  }

  lemma UnclaimedLeaves(q: Tasks, t: Task, n: Notifier, at: int)
    requires Unclaimed(t, Routed(t, n)).Some?
    ensures QueueSays(q, t, n, at, DeliveryWrites(q, t, n, at).0, ApplyAll(q, DeliveryWrites(q, t, n, at).1))
  {
    hide Apply, ApplyAll, Unclaimed, Explanation, Routed;
    ExplainsTwo(t, n);
    var (r, writes) := DeliveryWrites(q, t, n, at);
    var text := if writes == [] then "" else writes[0].text;
    ApplyFew(q, Noted(t.key, text), Noted(t.key, text));
    if t.key in q {
      OnThisTask(q, t.key, Notice(at, n.channel), None, text);
      RemarkMeans(q[t.key], text);
    } else {
      NotesNobody(q, t.key, text);
    }
  }

  lemma RemarkMeans(t: Task, text: string)
    ensures Happens(t, Remark(text)) == if t.notice.None? then t.(note := Some(text)) else t
  {
  }

  lemma ClaimedLeaves(q: Tasks, t: Task, n: Notifier, at: int)
    requires Unclaimed(t, Routed(t, n)).None?
    ensures QueueSays(q, t, n, at, DeliveryWrites(q, t, n, at).0, ApplyAll(q, DeliveryWrites(q, t, n, at).1))
  {
    hide Apply, ApplyAll, Unclaimed, Explanation, Routed;
    var k, notice, why := t.key, Notice(at, n.channel), ReleaseNote(n.send(t.key));
    ApplyFew(q, Claimed(k, notice), Released(k, why));
    if Unmarked(q, k) {
      OnThisTask(q, k, notice, why, "");
      OnThisTask(q[k := Happens(q[k], Claim(notice))], k, notice, why, "");
      assert q[k := Happens(q[k], Claim(notice))][k := Happens(Happens(q[k], Claim(notice)), Release(why))]
          == q[k := Happens(Happens(q[k], Claim(notice)), Release(why))];
    }
  }

  lemma NotesNobody(q: Tasks, k: Key, text: string)
    requires k !in q
    ensures Apply(q, Noted(k, text)) == q
  {
  }

  lemma ExplainsTwo(t: Task, n: Notifier)
    ensures Unclaimed(t, Routed(t, n)).Some? ==>
              var why := Unclaimed(t, Routed(t, n)).value;
              && (Explanation(t, why).Some? <==> why == NoAudience || why == NoRoute)
              && (why == NoAudience ==>
                    Explanation(t, why) == Some("the rule names no audience, so there is nobody to email"))
              && (why == NoRoute ==>
                    && t.about.audience.Some?
                    && Explanation(t, why) == Some("no route configured for audience " + t.about.audience.value))
              && why in {AlreadySent, ClosedTask, NotNotify, NoAudience, NoRoute}
  {
  }

  /** `_deliver`: claim before sending, release with the reason if the send fails. */
  method Deliver(store: RunStore, t: Task, n: Notifier, at: int) returns (r: Delivery)
    modifies store`actions
    ensures (r, store.actions) == (DeliveryWrites(old(store.actions), t, n, at).0,
                                   ApplyAll(old(store.actions), DeliveryWrites(old(store.actions), t, n, at).1))
    ensures AnswerSays(old(store.actions), t, n, r)
    ensures QueueSays(old(store.actions), t, n, at, r, store.actions)
  {
    hide Unclaimed, Happens, AnswerSays, QueueSays;
    AnswerMeans(store.actions, t, n, at);
    QueueMeans(store.actions, t, n, at);
    var k, tenant := t.key, t.key.tenant;
    var why := Unclaimed(t, Routed(t, n));
    ghost var q := store.actions;
    ghost var claim := Claimed(k, Notice(at, n.channel));
    if why.Some? {
      var note := Explanation(t, why.value);
      if note.Some? {
        store.NoteNotification(k, tenant, note.value);
        ApplyFew(q, Noted(k, note.value), claim);
      }
      return why.value;
    }
    var claimed := store.ClaimNotification(k, tenant, n.channel, at);
    if !claimed {
      assert store.actions == Apply(q, claim);
      NoClaimNoChange(q, k, Notice(at, n.channel));
      return AlreadySent;
    }
    var sending := n.send(k);
    ApplyFew(q, claim, Released(k, ReleaseNote(sending)));
    if sending.Delivered? {
      return Sent;
    }
    store.ReleaseNotification(k, tenant, ReleaseNote(sending));
    r := if sending.Defect? then Defective else NotSent;
  }

  lemma NoClaimNoChange(q: Tasks, k: Key, notice: Notice)
    requires k !in q || q[k].notice.Some?
    ensures Apply(q, Claimed(k, notice)) == q
  {
  }

  lemma OnThisTask(q: Tasks, k: Key, notice: Notice, why: Option<string>, text: string)
    requires k in q
    ensures Apply(q, Claimed(k, notice)) == q[k := Happens(q[k], Claim(notice))]
    ensures Apply(q, Released(k, why)) == q[k := Happens(q[k], Release(why))]
    ensures Apply(q, Noted(k, text)) == q[k := Happens(q[k], Remark(text))]
  {
    hide Happens;
  }

  /** What one undisturbed delivery leaves of the queue: every other task as it was, and this one
      marked exactly when it was before or is sent now. */
  lemma DeliveryLeaves(q: Tasks, k: Key, n: Notifier, at: int)
    requires k in q && q[k].key == k
    ensures var (r, writes) := DeliveryWrites(q, q[k], n, at);
            var after := ApplyAll(q, writes);
            && k in after && after == q[k := after[k]] && after[k].key == k
            && (after[k].notice.Some? <==> r == Sent || q[k].notice.Some?)
            && (r == Sent ==> q[k].notice.None?)
  {
    hide Apply, ApplyAll, Unclaimed, Explanation, ReleaseNote, Routed;
    var t := q[k];
    var (r, writes) := DeliveryWrites(q, t, n, at);
    var notice, why := Notice(at, n.channel), ReleaseNote(n.send(k));
    var text := if |writes| == 1 && writes[0].Noted? then writes[0].text else "";
    OnThisTask(q, k, notice, why, text);
    OnThisTask(q[k := Happens(t, Claim(notice))], k, notice, why, text);
    ApplyFew(q, Claimed(k, notice), Released(k, why));
    ApplyFew(q, Noted(k, text), Claimed(k, notice));
    NeverSaysSent(t, n);
  }

  lemma NeverSaysSent(t: Task, n: Notifier)
    ensures Unclaimed(t, Routed(t, n)) != Some(Sent)
    ensures t.notice.Some? ==> Unclaimed(t, Routed(t, n)).Some?
  {
  }

  /** A delivery undisturbed by others marks the task exactly when it sends, and is the only one that
      does: asked again, it sends nothing. */
  lemma DeliveredOnce(q: Tasks, k: Key, n: Notifier, at: int, again: Notifier, later: int)
    requires k in q && q[k].key == k && q[k].notice.None?
    ensures var (r, writes) := DeliveryWrites(q, q[k], n, at);
            var after := ApplyAll(q, writes);
            && k in after && (after[k].notice.Some? <==> r == Sent)
            && (r == Sent ==> DeliveryWrites(after, after[k], again, later) == (AlreadySent, []))
  {
    hide ApplyAll, Happens, Explanation;
    DeliveryLeaves(q, k, n, at);
    var (r, writes) := DeliveryWrites(q, q[k], n, at);
    if r == Sent {
      var claim := Claimed(k, Notice(at, n.channel));
      ApplyFew(q, claim, claim);
      SentMark(q, k, n, at, again, later);
    }
  }

  lemma SentMark(q: Tasks, k: Key, n: Notifier, at: int, again: Notifier, later: int)
    requires k in q && q[k].key == k && DeliveryWrites(q, q[k], n, at).0 == Sent
    ensures var after := Apply(q, Claimed(k, Notice(at, n.channel)));
            DeliveryWrites(q, q[k], n, at).1 == [Claimed(k, Notice(at, n.channel))]
            && k in after && DeliveryWrites(after, after[k], again, later) == (AlreadySent, [])
  {
    hide ApplyAll;
  }

  /** One attempt to tell somebody about a task, as a run's dispatch makes it. */
  datatype Attempt = Attempt(k: Key, notifier: Notifier, at: int)

  function Attempted(q: Tasks, a: Attempt): (Delivery, Tasks)
    requires a.k in q
  {
    var (r, writes) := DeliveryWrites(q, q[a.k], a.notifier, a.at);
    (r, ApplyAll(q, writes))
  }

  predicate AllThere(q: Tasks, attempts: seq<Attempt>)
  {
    forall i :: 0 <= i < |attempts| ==> attempts[i].k in q
  }

  lemma AttemptKeeps(q: Tasks, a: Attempt)
    requires a.k in q && KeyedRight(q)
    ensures var (r, after) := Attempted(q, a);
            && after.Keys == q.Keys && KeyedRight(after)
            && (forall k :: k in q && k != a.k ==> after[k] == q[k])
            && (after[a.k].notice.Some? <==> r == Sent || q[a.k].notice.Some?)
            && (r == Sent ==> q[a.k].notice.None?)
  {
    hide ApplyAll, DeliveryWrites;
    DeliveryLeaves(q, a.k, a.notifier, a.at);
  }

  /** The deliveries of one attempt after another, and the queue they leave. */
  function DispatchAll(q: Tasks, attempts: seq<Attempt>): (r: (seq<Delivery>, Tasks))
    requires KeyedRight(q) && AllThere(q, attempts)
    ensures |r.0| == |attempts| && r.1.Keys == q.Keys && KeyedRight(r.1)
  {
    if attempts == [] then ([], q)
    else
      var n := |attempts| - 1;
      var (before, tasks) := DispatchAll(q, attempts[..n]);
      AttemptKeeps(tasks, attempts[n]);
      var (r, after) := Attempted(tasks, attempts[n]);
      (before + [r], after)
  }

  /** `dispatch`: each task read from the store and delivered, in the order of the findings. */
  method DispatchFindings(store: RunStore, ks: seq<Key>, n: Notifier, at: int) returns (deliveries: seq<Delivery>)
    requires KeyedRight(store.actions) && AllThere(store.actions, Attempts(ks, n, at))
    modifies store`actions
    ensures (deliveries, store.actions) == DispatchAll(old(store.actions), Attempts(ks, n, at))
  {
    hide DeliveryWrites, ApplyAll;
    deliveries := [];
    ghost var attempts := Attempts(ks, n, at);
    for i := 0 to |ks|
      invariant (deliveries, store.actions) == DispatchAll(old(store.actions), attempts[..i])
    {
      assert attempts[..i + 1][..i] == attempts[..i];
      var task := store.Action(ks[i], ks[i].tenant);
      assert attempts[i].k in store.actions;
      var delivery := Deliver(store, task.value, n, at);
      deliveries := deliveries + [delivery];
    }
    assert attempts[..|ks|] == attempts;
  }

  function Attempts(ks: seq<Key>, n: Notifier, at: int): (attempts: seq<Attempt>)
    ensures |attempts| == |ks| && forall i :: 0 <= i < |ks| ==> attempts[i] == Attempt(ks[i], n, at)
  {
    seq(|ks|, i requires 0 <= i < |ks| => Attempt(ks[i], n, at))
  }

  function SentAbout(attempts: seq<Attempt>, deliveries: seq<Delivery>, k: Key): nat
    requires |attempts| == |deliveries|
  {
    if attempts == [] then 0
    else
      var n := |attempts| - 1;
      SentAbout(attempts[..n], deliveries[..n], k) + if attempts[n].k == k && deliveries[n] == Sent then 1 else 0
  }

  /** One dispatch after another, however many and through whatever backends: a task is sent at most
      once, and exactly when that sets its marker. */
  lemma {:induction false} DispatchSendsOnce(q: Tasks, attempts: seq<Attempt>, k: Key)
    requires KeyedRight(q) && AllThere(q, attempts) && k in q
    ensures var (deliveries, after) := DispatchAll(q, attempts);
            SentAbout(attempts, deliveries, k) + (if q[k].notice.Some? then 1 else 0) == if after[k].notice.Some?
              then 1 else 0
  {
    hide Attempted;
    if attempts != [] {
      var n := |attempts| - 1;
      DispatchSendsOnce(q, attempts[..n], k);
      var (before, tasks) := DispatchAll(q, attempts[..n]);
      AttemptKeeps(tasks, attempts[n]);
      var (r, after) := Attempted(tasks, attempts[n]);
      assert (before + [r])[..n] == before;
    }
  }

  predicate KeyedRight(q: Tasks)
  {
    forall k :: k in q ==> q[k].key == k
  }

  // ------------------------------------------------------------------ many at once
  /** Where a dispatcher is with one task. It holds the claim from the moment it makes it until it
      has sent or released; a dispatcher that stops in between holds it for ever. */
  datatype Dispatcher =
    | Idle
    | Looked(task: Task)
    | Owning(k: Key)
    | Releasing(k: Key, why: Option<string>)
    | Stopped(held: Option<Key>)
    | Answered(delivery: Delivery)

  datatype Person = Away | Deciding(k: Key, state: State) | Won(k: Key) | TurnedDown(k: Key)

  /** `outbox` is every message that went out; `closed` is what was closed when the run began. */
  datatype World = World(
    tasks: Tasks,
    dispatchers: map<nat, Dispatcher>,
    people: map<nat, Person>,
    outbox: seq<Key>,
    closed: set<Key>)

  function DispatcherOf(w: World, d: nat): Dispatcher
  {
    if d in w.dispatchers then w.dispatchers[d] else Idle
  }

  function PersonOf(w: World, p: nat): Person
  {
    if p in w.people then w.people[p] else Away
  }

  /** One call to the store, one send, or one stop. */
  datatype Act =
    | Look(d: nat, k: Key)
    | Judge(d: nat, routed: bool, notice: Notice)
    | Send(d: nat, s: Sending)
    | Free(d: nat)
    | Stop(d: nat)
    | Decide(p: nat, k: Key, state: State)
    | Commit(p: nat, move: Move)
    | Elsewhere(op: Op)

  function Now(w: World, d: nat, s: Dispatcher): World
  {
    w.(dispatchers := w.dispatchers[d := s])
  }

  function Judged(w: World, d: nat, t: Task, routed: bool, notice: Notice): World
  {
    match Unclaimed(t, routed)
    case Some(why) =>
      var w' := Now(w, d, Answered(why));
      if Explanation(t, why).Some? then w'.(tasks := Apply(w.tasks, Noted(t.key, Explanation(t, why).value))) else w'
    case None =>
      if t.key in w.tasks && w.tasks[t.key].notice.None?
      then Now(w, d, Owning(t.key)).(tasks := Apply(w.tasks, Claimed(t.key, notice)))
      else Now(w, d, Answered(AlreadySent))
  }

  function Held(s: Dispatcher): Option<Key>
  {
    match s
    case Owning(k) => Some(k)
    case Releasing(k, _) => Some(k)
    case Stopped(held) => held
    case _ => None
  }

  function Sends(w: World, d: nat, k: Key, s: Sending): World
  {
    if s.Delivered? then Now(w, d, Answered(Sent)).(outbox := w.outbox + [k])
    else Now(w, d, Releasing(k, ReleaseNote(s)))
  }

  /** Everything else a run or a guest decision writes; people and notifiers write as above. */
  predicate IsElsewhere(op: Op)
  {
    (op.Recorded? || op.Decided?) && UniformOp(op)
  }

  function Next(w: World, a: Act): World
  {
    match a
    case Look(d, k) =>
      if DispatcherOf(w, d).Idle? && k in w.tasks then Now(w, d, Looked(w.tasks[k])) else w
    case Judge(d, routed, notice) =>
      if DispatcherOf(w, d).Looked? then Judged(w, d, DispatcherOf(w, d).task, routed, notice) else w
    case Send(d, s) =>
      if DispatcherOf(w, d).Owning? then Sends(w, d, DispatcherOf(w, d).k, s) else w
    case Free(d) =>
      if DispatcherOf(w, d).Releasing? then
        var held := DispatcherOf(w, d);
        Now(w, d, Answered(NotSent)).(tasks := Apply(w.tasks, Released(held.k, held.why)))
      else w
    case Stop(d) => Now(w, d, Stopped(Held(DispatcherOf(w, d))))
    case Decide(p, k, state) =>
      if PersonOf(w, p).Away? && k in w.tasks && state != Pending then
        w.(people := w.people[p := if w.tasks[k].state == Pending then Deciding(k, state) else TurnedDown(k)])
      else w
    case Commit(p, move) =>
      if PersonOf(w, p).Deciding? then Committed(w, p, PersonOf(w, p).k, PersonOf(w, p).state, move) else w
    case Elsewhere(op) => if IsElsewhere(op) then w.(tasks := Apply(w.tasks, op)) else w
  }

  /** The guarded update: it moves the task only if it is still pending. */
  function Committed(w: World, p: nat, k: Key, state: State, move: Move): World
  {
    if k in w.tasks && w.tasks[k].state == Pending then
      w.(tasks := Apply(w.tasks, Moved(k, state, move)), people := w.people[p := Won(k)])
    else w.(people := w.people[p := TurnedDown(k)])
  }

  function RunOf(w: World, acts: seq<Act>): World
  {
    if acts == [] then w else Next(RunOf(w, acts[..|acts| - 1]), acts[|acts| - 1])
  }

  // ------------------------------------------------------------------ what every step keeps
  function Count(outbox: seq<Key>, k: Key): nat
  {
    if outbox == [] then 0 else Count(outbox[..|outbox| - 1], k) + if outbox[|outbox| - 1] == k then 1 else 0
  }

  predicate Marked(w: World, k: Key)
  {
    k in w.tasks && w.tasks[k].notice.Some?
  }

  predicate Holds(w: World, d: nat, k: Key)
  {
    Held(DispatcherOf(w, d)) == Some(k)
  }

  ghost predicate SomeoneHolds(w: World, k: Key)
  {
    exists d :: Holds(w, d, k)
  }

  /** The marker is set exactly when one dispatcher holds the claim or the one send has succeeded. */
  ghost predicate OneEach(w: World, k: Key)
  {
    && (forall d, e :: Holds(w, d, k) && Holds(w, e, k) ==> d == e)
    && Count(w.outbox, k) + (if SomeoneHolds(w, k) then 1 else 0) == (if Marked(w, k) then 1 else 0)
  }

  /** A dispatcher's reading is of a task that was there, and of a closed one if it was closed from
      the start. */
  predicate ReadWell(w: World, d: nat)
  {
    DispatcherOf(w, d).Looked? ==>
      var t := DispatcherOf(w, d).task;
      t.key in w.tasks && (t.key in w.closed ==> t.state != Pending)
  }

  /** A person about to move a task has one to move, and somewhere to move it. */
  predicate DecidesWell(w: World, p: nat)
  {
    PersonOf(w, p).Deciding? ==> PersonOf(w, p).state != Pending && PersonOf(w, p).k in w.tasks
  }

  predicate ClosedStay(w: World)
  {
    forall k :: k in w.closed ==> Closed(w, k)
  }

  ghost predicate ReadRight(w: World)
  {
    KeyedRight(w.tasks) && ClosedStay(w) && (forall d :: ReadWell(w, d)) && (forall p :: DecidesWell(w, p))
  }

  predicate Closed(w: World, k: Key)
  {
    k in w.tasks && w.tasks[k].state != Pending
  }

  predicate Winner(w: World, p: nat, k: Key)
  {
    PersonOf(w, p) == Won(k)
  }

  ghost predicate SomeoneWon(w: World, k: Key)
  {
    exists p :: Winner(w, p, k)
  }

  /** A task is closed exactly when it was from the start or one person won it; whoever was turned
      down was turned down for that. */
  ghost predicate OneWinner(w: World, k: Key)
  {
    && (forall p, q :: Winner(w, p, k) && Winner(w, q, k) ==> p == q)
    && (if SomeoneWon(w, k) then 1 else 0) + (if k in w.closed then 1 else 0) == (if Closed(w, k) then 1 else 0)
    && (forall p :: PersonOf(w, p) == TurnedDown(k) ==> Closed(w, k))
  }

  /** Nobody has started, nothing is marked. */
  ghost predicate Start(w: World)
  {
    && w.dispatchers == map[] && w.people == map[] && w.outbox == [] && KeyedRight(w.tasks)
    && (forall k :: k in w.tasks ==> w.tasks[k].notice.None?)
    && (forall k :: k in w.closed <==> Closed(w, k))
  }

  lemma StartHolds(w: World, k: Key)
    requires Start(w)
    ensures OneEach(w, k) && OneWinner(w, k) && ReadRight(w)
  {
  }

  // ------------------------------------------------------------------ what a write does to a task
  predicate OnlyTells(es: seq<Event>)
  {
    forall e :: e in es ==> e.Fail? || e.Pass? || e.Raise?
  }

  lemma {:induction false} TellingKeeps(t: Option<Task>, es: seq<Event>)
    requires OnlyTells(es)
    ensures t.Some? ==> Steps(t, es).Some? && Steps(t, es).value.notice == t.value.notice
                        && Steps(t, es).value.state == t.value.state && Steps(t, es).value.key == t.value.key
    ensures t.None? && Steps(t, es).Some? ==> Steps(t, es).value.notice.None? && Steps(t, es).value.state == Pending
  {
    hide Happens;
    if es != [] {
      TellingKeeps(t, es[..|es| - 1]);
      var before, e := Steps(t, es[..|es| - 1]), es[|es| - 1];
      assert e in es;
      if before.Some? {
        HappensFollows(before.value, e);
      }
    }
  }

  /** Recorded runs and decisions leave the marker, the state and the key of every task. */
  lemma ElsewhereKeeps(q: Tasks, op: Op, k: Key)
    requires IsElsewhere(op) && KeyedRight(q)
    ensures k in q ==> k in Apply(q, op) && Apply(q, op)[k].notice == q[k].notice
                       && Apply(q, op)[k].state == q[k].state && Apply(q, op)[k].key == k
    ensures k !in q && k in Apply(q, op) ==>
              Apply(q, op)[k].notice.None? && Apply(q, op)[k].state == Pending && Apply(q, op)[k].key == k
  {
    hide Apply, Steps, FailsOf, PassesOf;
    WritesAreLocal(q, op, k);
    if op.Recorded? {
      FailsTold(op.batch.failing, k);
      PassesTold(op.batch, op.batch.passing, k);
    }
    TellingKeeps(Get(q, k), EventsOf(op, k));
    if k !in q && k in Apply(q, op) {
      FailsHaveKey(op, k);
      RaisedKey(EventsOf(op, k), k);
    }
  }

  predicate AboutKey(es: seq<Event>, k: Key)
  {
    forall e :: e in es && (e.Fail? || e.Raise?) ==> e.f.key == k
  }

  lemma {:induction false} FailsOfKey(fs: seq<Finding>, k: Key)
    ensures AboutKey(FailsOf(fs, k), k)
  {
    if fs != [] {
      FailsOfKey(fs[..|fs| - 1], k);
    }
  }

  lemma FailsHaveKey(op: Op, k: Key)
    ensures AboutKey(EventsOf(op, k), k)
  {
    hide FailsOf, PassesOf;
    if op.Recorded? {
      FailsOfKey(op.batch.failing, k);
      PassesTold(op.batch, op.batch.passing, k);
    }
  }

  lemma {:induction false} RaisedKey(es: seq<Event>, k: Key)
    requires AboutKey(es, k)
    ensures Steps(None, es).Some? ==> Steps(None, es).value.key == k
  {
    if es != [] {
      RaisedKey(es[..|es| - 1], k);
      assert es[|es| - 1] in es;
    }
  }

  /** A person's move and the marker's writes leave every task where it is; only a move changes a
      state, and only from pending. */
  lemma OneTaskWritten(q: Tasks, op: Op, k: Key)
    requires op.Moved? || op.Claimed? || op.Released? || op.Noted?
    ensures k in Apply(q, op) <==> k in q
    ensures k in q ==> Apply(q, op)[k].key == q[k].key
    ensures k in q && (!op.Moved? || q[k].state != Pending) ==> Apply(q, op)[k].state == q[k].state
    ensures k in q && (op.Moved? || op.Noted?) ==> Apply(q, op)[k].notice == q[k].notice
  {
  }

  // ------------------------------------------------------------------ one step
  lemma CountMore(outbox: seq<Key>, sent: Key, k: Key)
    ensures Count(outbox + [sent], k) == Count(outbox, k) + if sent == k then 1 else 0
  {
    assert (outbox + [sent])[..|outbox|] == outbox;
  }

  /** Nobody else's hold changes when one dispatcher moves. */
  lemma NowHolds(w: World, d: nat, s: Dispatcher, e: nat, k: Key)
    ensures Holds(Now(w, d, s), e, k) <==> if e == d then Held(s) == Some(k) else Holds(w, e, k)
  {
  }

  lemma SameHolders(w: World, w': World, k: Key)
    requires OneEach(w, k) && w'.outbox == w.outbox && (Marked(w', k) <==> Marked(w, k))
    requires forall d :: Holds(w', d, k) <==> Holds(w, d, k)
    ensures OneEach(w', k)
  {
    hide Holds;
    assert SomeoneHolds(w', k) <==> SomeoneHolds(w, k);
  }

  /** A dispatcher that holds nothing before and after changes nobody's hold. */
  lemma MovesFreely(w: World, d: nat, s: Dispatcher, k: Key)
    requires Held(DispatcherOf(w, d)) == Held(s)
    ensures forall e :: Holds(Now(w, d, s), e, k) <==> Holds(w, e, k)
  {
    forall e ensures Holds(Now(w, d, s), e, k) <==> Holds(w, e, k) {
      NowHolds(w, d, s, e, k);
    }
  }

  lemma ClaimKeeps(w: World, d: nat, claimed: Key, notice: Notice, k: Key)
    requires OneEach(w, k) && Held(DispatcherOf(w, d)).None? && claimed in w.tasks && w.tasks[claimed].notice.None?
    ensures OneEach(Now(w, d, Owning(claimed)).(tasks := Apply(w.tasks, Claimed(claimed, notice))), k)
  {
    var w' := Now(w, d, Owning(claimed)).(tasks := Apply(w.tasks, Claimed(claimed, notice)));
    forall e ensures Holds(w', e, k) <==> (e == d && claimed == k) || Holds(w, e, k) {
      NowHolds(w, d, Owning(claimed), e, k);
    }
    if claimed == k {
      assert !Marked(w, k) && !SomeoneHolds(w, k);
      assert Holds(w', d, k);
      assert Marked(w', k);
    } else {
      assert Marked(w', k) <==> Marked(w, k);
      SameHolders(w, w', k);
    }
  }

  /** One dispatcher lets go of one task. */
  lemma LetsGo(w: World, w': World, d: nat, freed: Key, k: Key)
    requires Held(DispatcherOf(w, d)) == Some(freed) && Held(DispatcherOf(w', d)).None?
    requires forall e :: e != d ==> DispatcherOf(w', e) == DispatcherOf(w, e)
    ensures forall e :: Holds(w', e, k) <==> e != d && Holds(w, e, k)
    ensures Holds(w, d, k) <==> freed == k
  {
    hide Held;
  }

  lemma NoOneElse(w: World, w': World, d: nat, k: Key)
    requires OneEach(w, k) && Holds(w, d, k) && forall e :: Holds(w', e, k) <==> e != d && Holds(w, e, k)
    ensures SomeoneHolds(w, k) && !SomeoneHolds(w', k)
  {
    hide Holds, Count, Marked;
  }

  lemma SentIsSent(w: World, w': World, d: nat, k: Key)
    requires OneEach(w, k) && Holds(w, d, k) && forall e :: Holds(w', e, k) <==> e != d && Holds(w, e, k)
    requires Count(w'.outbox, k) == Count(w.outbox, k) + 1 && (Marked(w', k) <==> Marked(w, k))
    ensures OneEach(w', k)
  {
    hide Holds, Count, Marked;
    NoOneElse(w, w', d, k);
  }

  lemma SentElsewhere(w: World, w': World, k: Key)
    requires OneEach(w, k) && forall e :: Holds(w', e, k) <==> Holds(w, e, k)
    requires Count(w'.outbox, k) == Count(w.outbox, k) && (Marked(w', k) <==> Marked(w, k))
    ensures OneEach(w', k)
  {
    hide Holds, Count, Marked;
    SameSomeone(w, w', k);
  }

  lemma SentKeeps(w: World, d: nat, sent: Key, k: Key)
    requires OneEach(w, k) && DispatcherOf(w, d) == Owning(sent)
    ensures OneEach(Now(w, d, Answered(Sent)).(outbox := w.outbox + [sent]), k)
  {
    hide OneEach, Holds, Count;
    var w' := Now(w, d, Answered(Sent)).(outbox := w.outbox + [sent]);
    CountMore(w.outbox, sent, k);
    LetsGo(w, w', d, sent, k);
    if sent == k {
      SentIsSent(w, w', d, k);
    } else {
      SentElsewhere(w, w', k);
    }
  }

  lemma SameSomeone(w: World, w': World, k: Key)
    requires forall d :: Holds(w', d, k) <==> Holds(w, d, k)
    ensures SomeoneHolds(w', k) <==> SomeoneHolds(w, k)
  {
    hide Holds;
  }

  lemma FreedIsFree(w: World, w': World, d: nat, k: Key)
    requires OneEach(w, k) && Holds(w, d, k) && forall e :: Holds(w', e, k) <==> e != d && Holds(w, e, k)
    requires w'.outbox == w.outbox && !Marked(w', k)
    ensures OneEach(w', k)
  {
    hide Holds, Count;
    NoOneElse(w, w', d, k);
  }

  lemma ReleaseUnmarks(q: Tasks, freed: Key, why: Option<string>, k: Key)
    ensures freed == k ==> k !in Apply(q, Released(freed, why)) || Apply(q, Released(freed, why))[k].notice.None?
    ensures freed != k ==> Get(Apply(q, Released(freed, why)), k) == Get(q, k)
  {
  }

  lemma FreeKeeps(w: World, d: nat, freed: Key, why: Option<string>, k: Key)
    requires OneEach(w, k) && DispatcherOf(w, d) == Releasing(freed, why)
    ensures OneEach(Now(w, d, Answered(NotSent)).(tasks := Apply(w.tasks, Released(freed, why))), k)
  {
    hide OneEach, Holds, Count, Apply;
    var w' := Now(w, d, Answered(NotSent)).(tasks := Apply(w.tasks, Released(freed, why)));
    LetsGo(w, w', d, freed, k);
    ReleaseUnmarks(w.tasks, freed, why, k);
    if freed == k {
      FreedIsFree(w, w', d, k);
    } else {
      SameHolders(w, w', k);
    }
  }

  lemma NotesKeep(w: World, w': World, d: nat, delivery: Delivery, note: Option<string>, noted: Key, k: Key)
    requires OneEach(w, k) && Held(DispatcherOf(w, d)).None?
    requires w' == Now(w, d, Answered(delivery)).(tasks :=
               if note.Some? then Apply(w.tasks, Noted(noted, note.value)) else w.tasks)
    ensures OneEach(w', k)
  {
    hide OneEach, Apply;
    if note.Some? {
      OneTaskWritten(w.tasks, Noted(noted, note.value), k);
    }
    MovesFreely(w, d, Answered(delivery), k);
    forall e ensures Holds(w', e, k) <==> Holds(w, e, k) {
      NowHolds(w, d, Answered(delivery), e, k);
    }
    SameHolders(w, w', k);
  }

  lemma JudgeKeeps(w: World, d: nat, routed: bool, notice: Notice, k: Key)
    requires OneEach(w, k) && ReadWell(w, d) && DispatcherOf(w, d).Looked?
    ensures OneEach(Judged(w, d, DispatcherOf(w, d).task, routed, notice), k)
  {
    hide OneEach, Unclaimed, Explanation, Apply;
    var t := DispatcherOf(w, d).task;
    var w' := Judged(w, d, t, routed, notice);
    var why := Unclaimed(t, routed);
    if why.Some? {
      NotesKeep(w, w', d, why.value, Explanation(t, why.value), t.key, k);
    } else if w.tasks[t.key].notice.None? {
      ClaimKeeps(w, d, t.key, notice, k);
    } else {
      NotesKeep(w, w', d, AlreadySent, None, t.key, k);
    }
  }

  lemma NextKeepsOneEach(w: World, a: Act, k: Key)
    requires OneEach(w, k) && ReadRight(w)
    ensures OneEach(Next(w, a), k)
  {
    hide OneEach, Judged, Apply, Committed, ReadWell, DecidesWell, ClosedStay;
    match a {
      case Look(d, key) =>
        if DispatcherOf(w, d).Idle? && key in w.tasks {
          MovesFreely(w, d, Looked(w.tasks[key]), k);
          SameHolders(w, Next(w, a), k);
        }
      case Judge(d, routed, notice) =>
        if DispatcherOf(w, d).Looked? {
          assert ReadWell(w, d);
          JudgeKeeps(w, d, routed, notice, k);
        }
      case Send(d, s) =>
        if DispatcherOf(w, d).Owning? {
          if s.Delivered? {
            SentKeeps(w, d, DispatcherOf(w, d).k, k);
          } else {
            MovesFreely(w, d, Releasing(DispatcherOf(w, d).k, ReleaseNote(s)), k);
            SameHolders(w, Next(w, a), k);
          }
        }
      case Free(d) =>
        if DispatcherOf(w, d).Releasing? {
          FreeKeeps(w, d, DispatcherOf(w, d).k, DispatcherOf(w, d).why, k);
        }
      case Stop(d) =>
        MovesFreely(w, d, Stopped(Held(DispatcherOf(w, d))), k);
        SameHolders(w, Next(w, a), k);
      case Decide(p, key, state) =>
        OnlyPeople(w, Next(w, a), k);
      case Commit(p, move) =>
        CommitKeepsMarks(w, p, move, k);
        OnlyPeople(w, Next(w, a), k);
      case Elsewhere(op) =>
        if IsElsewhere(op) {
          ElsewhereKeeps(w.tasks, op, k);
        }
        OnlyPeople(w, Next(w, a), k);
    }
  }

  lemma OnlyPeople(w: World, w': World, k: Key)
    requires OneEach(w, k) && w'.dispatchers == w.dispatchers && w'.outbox == w.outbox
    requires (Marked(w', k) <==> Marked(w, k))
    ensures OneEach(w', k)
  {
    assert forall d :: Holds(w', d, k) <==> Holds(w, d, k);
    SameHolders(w, w', k);
  }

  lemma CommitKeepsMarks(w: World, p: nat, move: Move, k: Key)
    ensures var w' := Next(w, Commit(p, move));
            (Marked(w', k) <==> Marked(w, k)) && w'.dispatchers == w.dispatchers && w'.outbox == w.outbox
  {
    hide Apply;
    if PersonOf(w, p).Deciding? {
      OneTaskWritten(w.tasks, Moved(PersonOf(w, p).k, PersonOf(w, p).state, move), k);
    }
  }

  // ------------------------------------------------------------------ readings
  /** Tasks stay, keep their keys, and stay closed. */
  ghost predicate GoesOn(q: Tasks, q': Tasks)
  {
    && (forall k :: k in q ==> k in q' && (q[k].state != Pending ==> q'[k].state != Pending))
    && (forall k :: k in q' ==> q'[k].key == k)
  }

  lemma WritesGoOn(q: Tasks, op: Op)
    requires KeyedRight(q) && (op.Moved? || op.Claimed? || op.Released? || op.Noted? || IsElsewhere(op))
    ensures GoesOn(q, Apply(q, op))
  {
    hide Apply;
    forall k: Key
      ensures k in q ==> k in Apply(q, op) && (q[k].state != Pending ==> Apply(q, op)[k].state != Pending)
      ensures k in Apply(q, op) ==> Apply(q, op)[k].key == k
    {
      if IsElsewhere(op) {
        ElsewhereKeeps(q, op, k);
      } else {
        OneTaskWritten(q, op, k);
      }
    }
  }

  lemma NextGoesOn(w: World, a: Act)
    requires KeyedRight(w.tasks)
    ensures GoesOn(w.tasks, Next(w, a).tasks) && Next(w, a).closed == w.closed
  {
    hide Apply, Unclaimed, Explanation, GoesOn;
    SameGoesOn(w.tasks);
    match a {
      case Judge(d, routed, notice) =>
        if DispatcherOf(w, d).Looked? {
          var t := DispatcherOf(w, d).task;
          WritesGoOn(w.tasks, Claimed(t.key, notice));
          var why := Unclaimed(t, routed);
          if why.Some? && Explanation(t, why.value).Some? {
            WritesGoOn(w.tasks, Noted(t.key, Explanation(t, why.value).value));
          }
        }
      case Free(d) =>
        if DispatcherOf(w, d).Releasing? {
          WritesGoOn(w.tasks, Released(DispatcherOf(w, d).k, DispatcherOf(w, d).why));
        }
      case Commit(p, move) =>
        if PersonOf(w, p).Deciding? {
          WritesGoOn(w.tasks, Moved(PersonOf(w, p).k, PersonOf(w, p).state, move));
        }
      case Elsewhere(op) =>
        if IsElsewhere(op) {
          WritesGoOn(w.tasks, op);
        }
      case _ =>
    }
  }

  lemma SameGoesOn(q: Tasks)
    requires KeyedRight(q)
    ensures GoesOn(q, q)
  {
  }

  /** What a dispatcher reads in this step is what is there. */
  lemma NextReads(w: World, a: Act, d: nat)
    requires KeyedRight(w.tasks) && ClosedStay(w)
    ensures DispatcherOf(Next(w, a), d).Looked? ==>
              DispatcherOf(w, d) == DispatcherOf(Next(w, a), d)
              || (var t := DispatcherOf(Next(w, a), d).task;
                  t.key in w.tasks && (t.key in w.closed ==> t.state != Pending))
  {
    hide Apply, Unclaimed, Explanation;
  }

  lemma NextDecides(w: World, a: Act, p: nat)
    ensures PersonOf(Next(w, a), p).Deciding? ==>
              PersonOf(w, p) == PersonOf(Next(w, a), p)
              || (PersonOf(Next(w, a), p).state != Pending && PersonOf(Next(w, a), p).k in w.tasks)
  {
    hide Apply, Unclaimed, Explanation;
  }

  lemma NextKeepsReadRight(w: World, a: Act)
    requires ReadRight(w)
    ensures ReadRight(Next(w, a)) && Next(w, a).closed == w.closed
  {
    hide Next;
    var w' := Next(w, a);
    NextGoesOn(w, a);
    forall d ensures ReadWell(w', d) {
      NextReads(w, a, d);
      assert ReadWell(w, d);
    }
    forall p ensures DecidesWell(w', p) {
      NextDecides(w, a, p);
      assert DecidesWell(w, p);
    }
  }

  // ------------------------------------------------------------------ people
  lemma NextKeepsOneWinner(w: World, a: Act, k: Key)
    requires OneWinner(w, k) && ReadRight(w)
    ensures OneWinner(Next(w, a), k)
  {
    hide OneWinner, Unclaimed, Judged, Sends;
    match a {
      case Decide(p, key, state) =>
        if PersonOf(w, p).Away? && key in w.tasks && state != Pending {
          if w.tasks[key].state == Pending {
            StepsAside(w, p, Deciding(key, state), k);
          } else {
            StepsAside(w, p, TurnedDown(key), k);
          }
        }
      case Commit(p, move) =>
        if PersonOf(w, p).Deciding? {
          assert DecidesWell(w, p);
          CommitKeepsWinner(w, p, move, k);
        }
      case Elsewhere(op) =>
        if IsElsewhere(op) {
          hide Apply;
          ElsewhereKeeps(w.tasks, op, k);
          OnlyTasks(w, Next(w, a), k);
        }
      case _ =>
        NotifiersKeepState(w, a, k);
        OnlyTasks(w, Next(w, a), k);
    }
  }

  lemma NotifiersKeepState(w: World, a: Act, k: Key)
    requires !a.Decide? && !a.Commit? && !a.Elsewhere?
    ensures (Closed(Next(w, a), k) <==> Closed(w, k)) && Next(w, a).people == w.people && Next(w, a).closed == w.closed
  {
    hide Unclaimed, Explanation, Apply;
    match a {
      case Judge(d, routed, notice) =>
        if DispatcherOf(w, d).Looked? {
          var t := DispatcherOf(w, d).task;
          OneTaskWritten(w.tasks, Claimed(t.key, notice), k);
          var why := Unclaimed(t, routed);
          if why.Some? && Explanation(t, why.value).Some? {
            OneTaskWritten(w.tasks, Noted(t.key, Explanation(t, why.value).value), k);
          }
        }
      case Free(d) =>
        if DispatcherOf(w, d).Releasing? {
          OneTaskWritten(w.tasks, Released(DispatcherOf(w, d).k, DispatcherOf(w, d).why), k);
        }
      case _ =>
    }
  }

  lemma OnlyTasks(w: World, w': World, k: Key)
    requires OneWinner(w, k) && w'.people == w.people && w'.closed == w.closed && (Closed(w', k) <==> Closed(w, k))
    ensures OneWinner(w', k)
  {
    assert forall p :: PersonOf(w', p) == PersonOf(w, p);
    assert forall p :: Winner(w', p, k) <==> Winner(w, p, k);
    assert SomeoneWon(w', k) <==> SomeoneWon(w, k);
  }

  lemma StepsAside(w: World, p: nat, s: Person, k: Key)
    requires OneWinner(w, k) && !PersonOf(w, p).Won? && !s.Won? && (s == TurnedDown(k) ==> Closed(w, k))
    ensures OneWinner(w.(people := w.people[p := s]), k)
  {
    var w' := w.(people := w.people[p := s]);
    assert forall q :: Winner(w', q, k) <==> Winner(w, q, k);
    assert SomeoneWon(w', k) <==> SomeoneWon(w, k);
    forall q | PersonOf(w', q) == TurnedDown(k)
      ensures Closed(w', k)
    {
      assert q != p ==> PersonOf(w, q) == TurnedDown(k);
    }
  }

  lemma CommitKeepsWinner(w: World, p: nat, move: Move, k: Key)
    requires OneWinner(w, k) && PersonOf(w, p).Deciding? && DecidesWell(w, p)
    ensures OneWinner(Next(w, Commit(p, move)), k)
  {
    var key, state := PersonOf(w, p).k, PersonOf(w, p).state;
    if key in w.tasks && w.tasks[key].state == Pending {
      var w' := Next(w, Commit(p, move));
      if key == k {
        assert !SomeoneWon(w, k);
        assert forall q :: Winner(w', q, k) ==> q == p || Winner(w, q, k);
        assert Winner(w', p, k);
      } else {
        assert forall q :: Winner(w', q, k) <==> Winner(w, q, k);
        assert SomeoneWon(w', k) <==> SomeoneWon(w, k);
        forall q | PersonOf(w', q) == TurnedDown(k)
          ensures Closed(w', k)
        {
          assert PersonOf(w, q) == TurnedDown(k);
        }
      }
    } else {
      StepsAside(w, p, TurnedDown(key), k);
    }
  }

  // ------------------------------------------------------------------ over every run
  ghost predicate AllKept(w: World, k: Key)
  {
    OneEach(w, k) && OneWinner(w, k) && ReadRight(w)
  }

  lemma {:induction false} RunsKeep(w: World, acts: seq<Act>, k: Key)
    requires AllKept(w, k)
    ensures AllKept(RunOf(w, acts), k) && RunOf(w, acts).closed == w.closed
  {
    hide OneEach, OneWinner, ReadRight, Next;
    if acts != [] {
      var before, a := RunOf(w, acts[..|acts| - 1]), acts[|acts| - 1];
      RunsKeep(w, acts[..|acts| - 1], k);
      NextKeepsOneEach(before, a, k);
      NextKeepsOneWinner(before, a, k);
      NextKeepsReadRight(before, a);
    }
  }

  /** Over every interleaving of any number of dispatchers, people and recorded runs: at most one
      email goes out about a task, and its marker is set exactly when one dispatcher holds the claim
      or that email has gone out. */
  lemma AtMostOneEmail(w: World, acts: seq<Act>, k: Key)
    requires Start(w)
    ensures var now := RunOf(w, acts);
            && Count(now.outbox, k) <= 1
            && (Marked(now, k) <==> SomeoneHolds(now, k) || Count(now.outbox, k) == 1)
            && !(SomeoneHolds(now, k) && Count(now.outbox, k) == 1)
            && (forall d, e :: Holds(now, d, k) && Holds(now, e, k) ==> d == e)
  {
    hide OneWinner, ReadRight, Start;
    StartHolds(w, k);
    RunsKeep(w, acts, k);
  }

  /** Over every interleaving, as soon as one person has been answered about a task that was open at
      the start, exactly one person has moved it and every other was refused. */
  lemma RaceHasOneWinner(w: World, acts: seq<Act>, k: Key, p: nat)
    requires Start(w) && k !in w.closed && PersonOf(RunOf(w, acts), p) in {Won(k), TurnedDown(k)}
    ensures var now := RunOf(w, acts);
            && Closed(now, k)
            && exists q :: Winner(now, q, k)
                           && forall r :: r != q && PersonOf(now, r) in {Won(k), TurnedDown(k)} ==>
                              PersonOf(now, r) == TurnedDown(k)
  {
    hide OneEach, ReadRight, Start;
    StartHolds(w, k);
    RunsKeep(w, acts, k);
    var now := RunOf(w, acts);
    assert Winner(now, p, k) || PersonOf(now, p) == TurnedDown(k);
    var q :| Winner(now, q, k);
    forall r | r != q && PersonOf(now, r) in {Won(k), TurnedDown(k)}
      ensures PersonOf(now, r) == TurnedDown(k)
    {
      assert !Winner(now, r, k);
    }
  }

  /** A dispatcher that stopped while it held a claim holds it for ever. */
  lemma {:induction false} StoppedHoldsForEver(w: World, acts: seq<Act>, d: nat, k: Key)
    requires DispatcherOf(w, d) == Stopped(Some(k))
    ensures DispatcherOf(RunOf(w, acts), d) == Stopped(Some(k))
  {
    hide Next;
    if acts != [] {
      StoppedHoldsForEver(w, acts[..|acts| - 1], d, k);
      StoppedStays(RunOf(w, acts[..|acts| - 1]), acts[|acts| - 1], d, k);
    }
  }

  lemma StoppedStays(w: World, a: Act, d: nat, k: Key)
    requires DispatcherOf(w, d) == Stopped(Some(k))
    ensures DispatcherOf(Next(w, a), d) == Stopped(Some(k))
  {
    hide Apply, Unclaimed, Explanation;
  }

  /** A crash between the claim and the send: the task looks sent and is never emailed, by anyone. */
  lemma CrashedClaimIsNeverSent(w: World, acts: seq<Act>, more: seq<Act>, d: nat, k: Key)
    requires Start(w) && DispatcherOf(RunOf(w, acts), d) == Stopped(Some(k))
    ensures var later := RunOf(RunOf(w, acts), more); Marked(later, k) && Count(later.outbox, k) == 0
  {
    hide OneWinner, ReadRight, Start;
    StartHolds(w, k);
    RunsKeep(w, acts, k);
    RunsKeep(RunOf(w, acts), more, k);
    StoppedHoldsForEver(RunOf(w, acts), more, d, k);
    assert Holds(RunOf(RunOf(w, acts), more), d, k);
  }

  // ------------------------------------------------------------------ closed, and still emailed
  /** A dispatcher that can still email a task whatever becomes of it: it owns the claim, or it read the
      task when it was there to be claimed. */
  predicate MayStill(w: World, d: nat, k: Key)
  {
    match DispatcherOf(w, d)
    case Owning(owned) => owned == k
    case Looked(task) => task.key == k && Unclaimed(task, true).None?
    case _ => false
  }

  ghost predicate SomeoneMay(w: World, k: Key)
  {
    exists d :: MayStill(w, d, k)
  }

  ghost predicate SomeoneStopped(w: World, k: Key)
  {
    exists d :: DispatcherOf(w, d) == Stopped(Some(k))
  }

  lemma ClaimableIfRouted(t: Task, routed: bool)
    requires Unclaimed(t, routed).None?
    ensures Unclaimed(t, true).None?
  {
  }

  lemma ClosedIsNotClaimable(t: Task)
    requires t.state != Pending
    ensures Unclaimed(t, true).Some?
  {
  }

  /** Nobody comes to be able to email a closed task. */
  lemma MayNext(w: World, a: Act, d: nat, k: Key)
    requires KeyedRight(w.tasks) && Closed(w, k) && !MayStill(w, d, k)
    ensures !MayStill(Next(w, a), d, k)
  {
    hide Apply, Unclaimed, Explanation;
    match a {
      case Look(e, key) =>
        if key == k {
          ClosedIsNotClaimable(w.tasks[k]);
        }
      case Judge(e, routed, notice) =>
        if DispatcherOf(w, e).Looked? && Unclaimed(DispatcherOf(w, e).task, routed).None? {
          ClaimableIfRouted(DispatcherOf(w, e).task, routed);
        }
      case _ =>
    }
  }

  lemma OutboxNext(w: World, a: Act)
    ensures Next(w, a).outbox == w.outbox
            || (a.Send? && DispatcherOf(w, a.d).Owning? && Next(w, a).outbox == w.outbox + [DispatcherOf(w, a.d).k])
  {
    hide Apply, Unclaimed, Explanation;
  }

  lemma QuietStep(w: World, a: Act, k: Key)
    requires ReadRight(w) && Closed(w, k) && !SomeoneMay(w, k)
    ensures Closed(Next(w, a), k) && !SomeoneMay(Next(w, a), k) && Count(Next(w, a).outbox, k) == Count(w.outbox, k)
  {
    hide Next, ReadWell, DecidesWell, ClosedStay;
    NextGoesOn(w, a);
    forall d ensures !MayStill(Next(w, a), d, k) {
      assert !MayStill(w, d, k);
      MayNext(w, a, d, k);
    }
    OutboxNext(w, a);
    if Next(w, a).outbox != w.outbox {
      assert !MayStill(w, a.d, k);
      CountMore(w.outbox, DispatcherOf(w, a.d).k, k);
    }
  }

  /** Closed while nobody may still email it, a task is never emailed again, whatever runs. */
  lemma {:induction false} QuietForEver(w: World, acts: seq<Act>, k: Key)
    requires AllKept(w, k) && Closed(w, k) && !SomeoneMay(w, k)
    ensures var now := RunOf(w, acts);
            Closed(now, k) && !SomeoneMay(now, k) && Count(now.outbox, k) == Count(w.outbox, k)
  {
    hide OneEach, OneWinner, ReadRight, Next, Closed, SomeoneMay;
    if acts != [] {
      var before := RunOf(w, acts[..|acts| - 1]);
      QuietForEver(w, acts[..|acts| - 1], k);
      RunsKeep(w, acts[..|acts| - 1], k);
      QuietStep(before, acts[|acts| - 1], k);
    }
  }

  /** Over every interleaving, a task closed at any moment - by whom and whenever - at which no
      dispatcher holds its claim or has read it as claimable is never emailed after that moment. */
  lemma ClosedBeforeReadIsNeverEmailed(w: World, acts: seq<Act>, more: seq<Act>, k: Key)
    requires Start(w) && Closed(RunOf(w, acts), k) && !SomeoneMay(RunOf(w, acts), k)
    ensures var now := RunOf(w, acts); Count(RunOf(now, more).outbox, k) == Count(now.outbox, k)
  {
    hide OneEach, OneWinner, ReadRight, Start, Closed, SomeoneMay;
    StartHolds(w, k);
    RunsKeep(w, acts, k);
    QuietForEver(RunOf(w, acts), more, k);
  }

  lemma RunOne(w: World, a: Act)
    ensures RunOf(w, [a]) == Next(w, a)
  {
    hide Next;
    assert [a][..0] == [];
  }

  lemma RunTwo(w: World, a: Act, b: Act)
    ensures RunOf(w, [a, b]) == Next(Next(w, a), b)
  {
    hide Next;
    RunOne(w, a);
    assert [a, b][..1] == [a];
  }

  lemma RunThree(w: World, a: Act, b: Act, c: Act)
    ensures RunOf(w, [a, b, c]) == Next(Next(Next(w, a), b), c)
  {
    hide Next;
    RunTwo(w, a, b);
    assert [a, b, c][..2] == [a, b];
  }

  lemma SendsOut(w: World, d: nat, k: Key)
    requires DispatcherOf(w, d) == Owning(k) && Count(w.outbox, k) == 0
    ensures Count(Next(w, Send(d, Delivered)).outbox, k) == 1
  {
    CountMore(w.outbox, k, k);
  }

  lemma ClaimsAndSends(w: World, d: nat, k: Key, notice: Notice)
    requires DispatcherOf(w, d).Looked? && MayStill(w, d, k) && k in w.tasks && w.tasks[k].notice.None?
    requires Count(w.outbox, k) == 0
    ensures Count(Next(Next(w, Judge(d, true, notice)), Send(d, Delivered)).outbox, k) == 1
  {
    hide Apply, Unclaimed, Explanation, Count;
    SendsOut(Next(w, Judge(d, true, notice)), d, k);
  }

  lemma FreesTheClaim(w: World, d: nat, e: nat, k: Key)
    requires DispatcherOf(w, e).Releasing? && DispatcherOf(w, e).k == k && d != e && k in w.tasks
    ensures var w' := Next(w, Free(e));
            DispatcherOf(w', d) == DispatcherOf(w, d)
              && w'.outbox == w.outbox && k in w'.tasks && w'.tasks[k].notice.None?
  {
  }

  /** Who can email it, does: at most a release, a claim and a send away. */
  lemma MayMeansCan(w: World, d: nat, k: Key, notice: Notice) returns (acts: seq<Act>)
    requires AllKept(w, k) && k in w.tasks && Count(w.outbox, k) == 0 && MayStill(w, d, k) && !SomeoneStopped(w, k)
    ensures Count(RunOf(w, acts).outbox, k) == 1
  {
    hide OneWinner, ReadRight, Next, Count, Unclaimed;
    var send, judge := Send(d, Delivered), Judge(d, true, notice);
    if DispatcherOf(w, d).Owning? {
      SendsOut(w, d, k);
      RunOne(w, send);
      return [send];
    }
    if w.tasks[k].notice.None? {
      ClaimsAndSends(w, d, k, notice);
      RunTwo(w, judge, send);
      return [judge, send];
    }
    var e :| Holds(w, e, k);
    assert DispatcherOf(w, e) != Stopped(Some(k));
    if DispatcherOf(w, e).Owning? {
      SendsOut(w, e, k);
      RunOne(w, Send(e, Delivered));
      return [Send(e, Delivered)];
    }
    FreesTheClaim(w, d, e, k);
    ClaimsAndSends(Next(w, Free(e)), d, k, notice);
    RunThree(w, Free(e), judge, send);
    return [Free(e), judge, send];
  }

  lemma StoppedMeansNever(w: World, acts: seq<Act>, d: nat, k: Key)
    requires AllKept(w, k) && DispatcherOf(w, d) == Stopped(Some(k))
    ensures Count(RunOf(w, acts).outbox, k) == 0
  {
    hide OneWinner, ReadRight, Next;
    RunsKeep(w, acts, k);
    StoppedHoldsForEver(w, acts, d, k);
    assert Holds(RunOf(w, acts), d, k);
  }

  /** Over every interleaving: a closed task that was not emailed can still be emailed exactly when some
      dispatcher owns its claim or has read it as claimable, and none has stopped with the claim. */
  lemma ClosedCanBeEmailedIff(w: World, acts: seq<Act>, k: Key)
    requires Start(w) && Closed(RunOf(w, acts), k) && Count(RunOf(w, acts).outbox, k) == 0
    ensures var now := RunOf(w, acts);
            (exists more :: Count(RunOf(now, more).outbox, k) == 1) <==> SomeoneMay(now, k) && !SomeoneStopped(now, k)
  {
    hide OneEach, OneWinner, ReadRight, Start, RunOf, MayStill;
    StartHolds(w, k);
    RunsKeep(w, acts, k);
    var now := RunOf(w, acts);
    if !SomeoneMay(now, k) {
      forall more ensures Count(RunOf(now, more).outbox, k) != 1 {
        QuietForEver(now, more, k);
      }
    } else if SomeoneStopped(now, k) {
      var d :| DispatcherOf(now, d) == Stopped(Some(k));
      forall more ensures Count(RunOf(now, more).outbox, k) != 1 {
        StoppedMeansNever(now, more, d, k);
      }
    } else {
      var d :| MayStill(now, d, k);
      var more := MayMeansCan(now, d, k, Notice(0, ""));
    }
  }

  /** But a task closed between a dispatcher's reading and its claim is still emailed: the claim does
      not ask whether the task is pending. */
  lemma ClosedAfterReadIsEmailed(w: World, k: Key, notice: Notice, move: Move)
    requires Start(w) && k in w.tasks && Unclaimed(w.tasks[k], true) == None
    ensures var now := RunOf(w,
              [Look(0, k), Decide(0, k, Finished), Commit(0, move), Judge(0, true, notice), Send(0, Delivered)]);
            now.outbox == [k] && Closed(now, k) && Winner(now, 0, k)
  {
    hide RunOf, Start;
    var t := w.tasks[k];
    assert t.key == k && t.notice.None? && t.state == Pending
      && w.dispatchers == map[] && w.people == map[] && w.outbox == [] by {
      StartSays(w, k);
    }
    var a1, a2, a3, a4, a5 :=
      Look(0, k), Decide(0, k, Finished), Commit(0, move), Judge(0, true, notice), Send(0, Delivered);
    var w1 := Next(w, a1);
    assert w1 == w.(dispatchers := map[0 := Looked(t)]);
    var w2 := Next(w1, a2);
    assert w2 == w1.(people := map[0 := Deciding(k, Finished)]);
    var w3 := Next(w2, a3);
    assert w3.tasks[k] == t.(state := Finished, moved := Some(move));
    assert w3.people == map[0 := Won(k)] && w3.dispatchers == w1.dispatchers;
    var w4 := Next(w3, a4);
    assert w4.dispatchers == map[0 := Owning(k)]
      && w4.tasks[k].state == Finished && w4.people == w3.people && w4.outbox == [];
    var w5 := Next(w4, a5);
    assert w5.outbox == [] + [k] && w5.tasks == w4.tasks && w5.people == w3.people;
    RunFive(w, a1, a2, a3, a4, a5);
  }

  lemma StartSays(w: World, k: Key)
    requires Start(w) && k in w.tasks && Unclaimed(w.tasks[k], true) == None
    ensures w.tasks[k].key == k && w.tasks[k].notice.None? && w.tasks[k].state == Pending
    ensures w.dispatchers == map[] && w.people == map[] && w.outbox == []
  {
  }

  lemma RunFive(w: World, a1: Act, a2: Act, a3: Act, a4: Act, a5: Act)
    ensures RunOf(w, [a1, a2, a3, a4, a5]) == Next(Next(Next(Next(Next(w, a1), a2), a3), a4), a5)
  {
    hide Next;
    assert [a1, a2, a3, a4, a5][..4] == [a1, a2, a3, a4] && [a1, a2, a3, a4][..3] == [a1, a2, a3];
    assert [a1, a2, a3][..2] == [a1, a2] && [a1, a2][..1] == [a1] && [a1][..0] == [];
    assert RunOf(w, [a1]) == Next(w, a1);
    assert RunOf(w, [a1, a2]) == Next(RunOf(w, [a1]), a2);
    assert RunOf(w, [a1, a2, a3]) == Next(RunOf(w, [a1, a2]), a3);
    assert RunOf(w, [a1, a2, a3, a4]) == Next(RunOf(w, [a1, a2, a3]), a4);
  }

  // ------------------------------------------------------------------ who is ever emailed about
  /** Call `i` of this run is dispatcher `d` reading the entry of `k`, and this is what it read. */
  ghost predicate ReadAt(w: World, acts: seq<Act>, i: nat, d: nat, k: Key, t: Task)
  {
    && i < |acts| && acts[i] == Look(d, k)
    && var before := RunOf(w, acts[..i]);
       DispatcherOf(before, d).Idle? && k in before.tasks && before.tasks[k] == t
  }

  /** Some dispatcher read the entry of `k` as one to tell somebody of, and later found its audience
      routed and claimed it. */
  ghost predicate ReadAsMailable(w: World, acts: seq<Act>, k: Key)
  {
    exists d: nat, i: nat, j: nat, t ::
      ReadAt(w, acts, i, d, k, t) && Mailable(t) && i < j < |acts| && acts[j].Judge? && acts[j].d == d && acts[j].routed
  }

  lemma ReadStays(w: World, acts: seq<Act>, a: Act, i: nat, d: nat, k: Key, t: Task)
    requires ReadAt(w, acts, i, d, k, t)
    ensures ReadAt(w, acts + [a], i, d, k, t)
  {
    assert (acts + [a])[..i] == acts[..i];
  }

  lemma MailableStays(w: World, acts: seq<Act>, a: Act, k: Key)
    requires ReadAsMailable(w, acts, k)
    ensures ReadAsMailable(w, acts + [a], k)
  {
    hide ReadAt, Mailable;
    var d: nat, i: nat, j: nat, t :|
      ReadAt(w, acts, i, d, k, t) && Mailable(t) && i < j < |acts|
        && acts[j].Judge? && acts[j].d == d && acts[j].routed;
    ReadStays(w, acts, a, i, d, k, t);
    assert (acts + [a])[j] == acts[j];
  }

  /** What is known of a run: whoever has looked read it at some call; whoever owns a claim, and
      whatever went out, was read as to be told. */
  ghost predicate Accounted(w: World, acts: seq<Act>)
  {
    var now := RunOf(w, acts);
    && KeyedRight(now.tasks)
    && (forall d: nat :: DispatcherOf(now, d).Looked? ==>
          exists i :: ReadAt(w, acts, i, d, DispatcherOf(now, d).task.key, DispatcherOf(now, d).task))
    && (forall d: nat :: DispatcherOf(now, d).Owning? ==> ReadAsMailable(w, acts, DispatcherOf(now, d).k))
    && (forall k :: k in now.outbox ==> ReadAsMailable(w, acts, k))
  }

  lemma LooksAreRead(w: World, acts: seq<Act>, a: Act, d: nat)
    requires Accounted(w, acts) && DispatcherOf(RunOf(w, acts + [a]), d).Looked?
    ensures exists i :: ReadAt(w, acts + [a], i, d, DispatcherOf(RunOf(w, acts + [a]), d).task.key,
                               DispatcherOf(RunOf(w, acts + [a]), d).task)
  {
    hide Apply, Unclaimed, Explanation, ReadAsMailable;
    var all := acts + [a];
    assert all[..|acts|] == acts;
    var before, now := RunOf(w, acts), RunOf(w, all);
    var t := DispatcherOf(now, d).task;
    if DispatcherOf(before, d).Looked? && DispatcherOf(before, d).task == t {
      var i :| ReadAt(w, acts, i, d, t.key, t);
      ReadStays(w, acts, a, i, d, t.key, t);
    } else {
      assert ReadAt(w, all, |acts|, d, t.key, t);
    }
  }

  lemma OwnersHaveRead(w: World, acts: seq<Act>, a: Act, d: nat)
    requires Accounted(w, acts) && DispatcherOf(RunOf(w, acts + [a]), d).Owning?
    ensures ReadAsMailable(w, acts + [a], DispatcherOf(RunOf(w, acts + [a]), d).k)
  {
    hide Apply, Explanation, ReadAt, KeyedRight;
    var all := acts + [a];
    assert all[..|acts|] == acts && all[|acts|] == a;
    var before, now := RunOf(w, acts), RunOf(w, all);
    var k := DispatcherOf(now, d).k;
    if DispatcherOf(before, d).Owning? && DispatcherOf(before, d).k == k {
      MailableStays(w, acts, a, k);
    } else {
      var t := DispatcherOf(before, d).task;
      var i :| ReadAt(w, acts, i, d, t.key, t);
      ReadStays(w, acts, a, i, d, t.key, t);
      ReadInRun(w, acts, i, d, t.key, t);
      assert a.Judge? && a.d == d && a.routed && Mailable(t) && t.key == k;
      assert ReadAsMailable(w, all, k);
    }
  }

  lemma ReadInRun(w: World, acts: seq<Act>, i: nat, d: nat, k: Key, t: Task)
    requires ReadAt(w, acts, i, d, k, t)
    ensures i < |acts|
  {
  }

  lemma SentWereRead(w: World, acts: seq<Act>, a: Act, k: Key)
    requires Accounted(w, acts) && k in RunOf(w, acts + [a]).outbox
    ensures ReadAsMailable(w, acts + [a], k)
  {
    hide Apply, Explanation, ReadAt, KeyedRight, Unclaimed, Mailable;
    assert (acts + [a])[..|acts|] == acts;
    if k !in RunOf(w, acts).outbox {
      assert DispatcherOf(RunOf(w, acts), a.d) == Owning(k);
    }
    assert ReadAsMailable(w, acts, k);
    MailableStays(w, acts, a, k);
  }

  lemma KeysStayRight(w: World, a: Act)
    requires KeyedRight(w.tasks)
    ensures KeyedRight(Next(w, a).tasks)
  {
    hide Unclaimed, Explanation;
    forall k | k in Next(w, a).tasks
      ensures Next(w, a).tasks[k].key == k
    {
      hide Happens, Apply;
      if a.Elsewhere? {
        if IsElsewhere(a.op) {
          ElsewhereKeeps(w.tasks, a.op, k);
        }
      } else {
        NextOnKey(w, a, k);
      }
    }
  }

  lemma NextOnKey(w: World, a: Act, k: Key)
    requires KeyedRight(w.tasks) && !a.Elsewhere? && k in Next(w, a).tasks
    ensures k in w.tasks && Next(w, a).tasks[k].key == k
  {
    hide Unclaimed, Explanation;
  }

  lemma {:induction false} RunIsAccounted(w: World, acts: seq<Act>)
    requires Start(w)
    ensures Accounted(w, acts)
  {
    hide Next, ReadAt, ReadAsMailable, KeyedRight;
    if acts == [] {
      StartAccounts(w);
    } else {
      var front, a := acts[..|acts| - 1], acts[|acts| - 1];
      assert acts == front + [a];
      RunIsAccounted(w, front);
      KeysStayRight(RunOf(w, front), a);
      forall d: nat | DispatcherOf(RunOf(w, acts), d).Looked?
        ensures exists i :: ReadAt(w, acts, i, d, DispatcherOf(RunOf(w, acts), d).task.key,
                  DispatcherOf(RunOf(w, acts), d).task)
      {
        LooksAreRead(w, front, a, d);
      }
      forall d: nat | DispatcherOf(RunOf(w, acts), d).Owning?
        ensures ReadAsMailable(w, acts, DispatcherOf(RunOf(w, acts), d).k)
      {
        OwnersHaveRead(w, front, a, d);
      }
      forall k | k in RunOf(w, acts).outbox
        ensures ReadAsMailable(w, acts, k)
      {
        SentWereRead(w, front, a, k);
      }
    }
  }

  lemma StartAccounts(w: World)
    requires Start(w)
    ensures Accounted(w, [])
  {
  }

  /** Over every interleaving: a message goes out only about an entry that a dispatcher read, at some
      call, as unmarked, open, of the kind that is mailed and addressed to somebody, and whose
      audience it then found a route for. */
  lemma OnlyMailableAreEmailed(w: World, acts: seq<Act>, k: Key)
    requires Start(w) && k in RunOf(w, acts).outbox
    ensures exists d: nat, i: nat, j: nat, t ::
              ReadAt(w, acts, i, d, k, t) && Mailable(t)
                && i < j < |acts| && acts[j].Judge? && acts[j].d == d && acts[j].routed
  {
    RunIsAccounted(w, acts);
  }

  /** And the claim is made: a dispatcher that has read such an entry and finds the stored one unmarked
      and its audience routed owns it; otherwise it never does. */
  lemma JudgeOwnsIff(w: World, d: nat, routed: bool, notice: Notice)
    requires DispatcherOf(w, d).Looked?
    ensures var t := DispatcherOf(w, d).task;
            DispatcherOf(Next(w, Judge(d, routed, notice)), d) == Owning(t.key)
            <==> Mailable(t) && routed && Unmarked(w.tasks, t.key)
  {
    hide Apply, Explanation;
  }
}
