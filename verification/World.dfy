/** What a judgement about a collection says about the records nobody fetched. The collection was
    asked for one window of dates; the world holds every record there is
    (hotelcontrols/evaluator/collections.py, hotelcontrols/evidence/gather.py). */
module World {
  import opened Basics
  import opened Texts
  import opened Values
  import opened Rules
  import opened Bundles
  import opened Predicates
  import opened Collections
  import opened References

  // ------------------------------------------------------------------ how a collection is gathered
  function ProjectAll(records: seq<Remote>, wanted: set<string>): (rs: seq<Record>)
    ensures |rs| == |records| && forall i :: 0 <= i < |rs| ==> rs[i] == Project(records[i], wanted)
  {
    seq(|records|, i requires 0 <= i < |records| => Project(records[i], wanted))
  }

  /** `related`, `joins` and `unplaced` of one collection, as `gather` fills them from the one
      response its reference fetched. `wanted` is the entity's required evidence. */
  ghost predicate Gathered(b: Bundle, entity: string, field: string, key: Value, response: seq<Remote>,
                           wanted: set<string>)
  {
    && entity in b.related && entity in b.joins
    && (forall name :: name in wanted ==> EntityOf(name) == entity)
    && (b.joins[entity].Known? <==> HasKey(key))
    && (HasKey(key) ==> b.joins[entity] == Known(Flag(Scan(response, field, Str(key.payload)) != []), None))
    && Related(b, entity) == (if HasKey(key) then ProjectAll(Scan(response, field, Str(key.payload)), wanted) else [])
    && Unplaced(b, entity) == ProjectAll(Unreadable(response, field), wanted)
  }

  lemma PlacedAs(b: Bundle, entity: string, field: string, key: Value, response: seq<Remote>, wanted: set<string>,
                 seen: Remote)
    requires Gathered(b, entity, field, key, response, wanted) && HasKey(key) && seen in response
    ensures KeyedBy(seen, field, Str(key.payload)) ==> Project(seen, wanted) in Related(b, entity)
    ensures Resolve(field, seen).Unknown? ==> Project(seen, wanted) in Unplaced(b, entity)
  {
    var scan, unread := Scan(response, field, Str(key.payload)), Unreadable(response, field);
    if KeyedBy(seen, field, Str(key.payload)) {
      var i :| 0 <= i < |scan| && scan[i] == seen;
      assert Related(b, entity)[i] == Project(seen, wanted);
    }
    if Resolve(field, seen).Unknown? {
      var i :| 0 <= i < |unread| && unread[i] == seen;
      assert Unplaced(b, entity)[i] == Project(seen, wanted);
    }
  }

  lemma ProjectRefines(seen: Remote, truth: Remote, wanted: set<string>)
    requires FieldsRefine(seen, truth)
    ensures RecordRefines(Project(seen, wanted), Project(truth, wanted))
  {
  }

  /** One collection gathered from one response, and from that response read further. */
  ghost predicate ReadFurther(b: Bundle, b': Bundle, entity: string, field: string, key: Value,
                              response: seq<Remote>, response': seq<Remote>, wanted: set<string>)
  {
    && HasKey(key) && Gathered(b, entity, field, key, response, wanted)
       && Gathered(b', entity, field, key, response', wanted)
    && ResponseRefines(response, response')
  }

  lemma RelatedStays(b: Bundle, b': Bundle, entity: string, field: string, key: Value,
                     response: seq<Remote>, response': seq<Remote>, wanted: set<string>, i: nat)
    requires ReadFurther(b, b', entity, field, key, response, response', wanted) && i < |Related(b, entity)|
    ensures RefinedIn(Related(b, entity)[i], Related(b', entity))
  {
    hide Str, RecordRefines, Project;
    var scan := Scan(response, field, Str(key.payload));
    assert scan[i] in scan;
    var n :| 0 <= n < |response| && response[n] == scan[i];
    PlacedAs(b', entity, field, key, response', wanted, response'[n]);
    ProjectRefines(response[n], response'[n], wanted);
  }

  lemma KeyBefore(r: Remote, later: Remote, field: string, key: string)
    requires FieldsRefine(r, later) && KeyedBy(later, field, key)
    ensures KeyedBy(r, field, key) || Resolve(field, r).Unknown?
  {
  }

  lemma FoundAmong(some: seq<Record>, others: seq<Record>, r: Record, later: Record)
    requires (r in some || r in others) && RecordRefines(r, later)
    ensures RefinesOneOf(later, some + others)
  {
    hide RecordRefines;
    assert r in some + others;
    var i :| 0 <= i < |some + others| && (some + others)[i] == r;
  }

  lemma RelatedWas(b: Bundle, b': Bundle, entity: string, field: string, key: Value,
                   response: seq<Remote>, response': seq<Remote>, wanted: set<string>, j: nat)
    requires ReadFurther(b, b', entity, field, key, response, response', wanted) && j < |Related(b', entity)|
    ensures RefinesOneOf(Related(b', entity)[j], Related(b, entity) + Unplaced(b, entity))
  {
    hide Str, RecordRefines, Project, RefinesOneOf, KeyedBy, FieldsRefine, Resolve;
    var scan' := Scan(response', field, Str(key.payload));
    assert scan'[j] in scan';
    var n :| 0 <= n < |response'| && response'[n] == scan'[j];
    KeyBefore(response[n], response'[n], field, Str(key.payload));
    PlacedAs(b, entity, field, key, response, wanted, response[n]);
    ProjectRefines(response[n], response'[n], wanted);
    FoundAmong(Related(b, entity), Unplaced(b, entity), Project(response[n], wanted), Project(response'[n], wanted));
  }

  lemma UnplacedWas(b: Bundle, b': Bundle, entity: string, field: string, key: Value,
                    response: seq<Remote>, response': seq<Remote>, wanted: set<string>, j: nat)
    requires ReadFurther(b, b', entity, field, key, response, response', wanted) && j < |Unplaced(b', entity)|
    ensures RefinesOneOf(Unplaced(b', entity)[j], Unplaced(b, entity))
  {
    hide Str, RecordRefines, Project;
    var unread' := Unreadable(response', field);
    assert unread'[j] in unread';
    var n :| 0 <= n < |response'| && response'[n] == unread'[j];
    PlacedAs(b, entity, field, key, response, wanted, response[n]);
    ProjectRefines(response[n], response'[n], wanted);
  }

  /** Reading more of one response refines every collection gathered from it: a record whose key
      becomes readable joins the record it names, or leaves. */
  lemma GatheredRefines(b: Bundle, b': Bundle, entity: string, field: string, key: Value, key': Value,
                        response: seq<Remote>, response': seq<Remote>, wanted: set<string>)
    requires Gathered(b, entity, field, key, response, wanted)
    requires Gathered(b', entity, field, key', response', wanted)
    requires ResponseRefines(response, response') && Refines(key, key')
    ensures CollectionRefines(b, b', entity)
  {
    hide Str, RefinedIn, RefinesOneOf, Unreadable;
    if HasKey(key) {
      forall i | 0 <= i < |Related(b, entity)|
        ensures RefinedIn(Related(b, entity)[i], Related(b', entity))
      {
        RelatedStays(b, b', entity, field, key, response, response', wanted, i);
      }
      forall j | 0 <= j < |Related(b', entity)|
        ensures RefinesOneOf(Related(b', entity)[j], Related(b, entity) + Unplaced(b, entity))
      {
        RelatedWas(b, b', entity, field, key, response, response', wanted, j);
      }
      forall j | 0 <= j < |Unplaced(b', entity)|
        ensures RefinesOneOf(Unplaced(b', entity)[j], Unplaced(b, entity))
      {
        UnplacedWas(b, b', entity, field, key, response, response', wanted, j);
      }
      if Related(b, entity) != [] {
        assert Scan(response, field, Str(key.payload)) != [];
        MatchIsFinal(response, response', field, Str(key.payload));
      }
    }
  }

  // ------------------------------------------------------------------ the provider's promise
  function DayBound(v: Value): Option<string>
    requires v.Known?
  {
    if Unset(v.payload) then None else Some(Day(Str(v.payload)))
  }

  /** A record is there on a day: one of its dates is that day, or two of them bracket it. */
  ghost predicate OnDay(truth: Remote, dates: set<string>, day: string)
  {
    (exists f :: f in dates && Resolve(f, truth).Known? && Day(Str(Resolve(f, truth).payload)) == day)
    || (exists f, g :: f in dates && g in dates && Resolve(f, truth).Known? && Resolve(g, truth).Known?
          && InWindow(day, DayBound(Resolve(f, truth)), DayBound(Resolve(g, truth))))
  }

  ghost predicate Touches(truth: Remote, dates: set<string>, w: Window)
  {
    exists day :: Le(w.start, day) && Le(day, w.end) && OnDay(truth, dates, day)
  }

  /** A windowed response holds every record touching the window, as far as each could be read. */
  ghost predicate HoldsAllTouching(response: seq<Remote>, world: iset<Remote>, dates: set<string>, w: Window)
  {
    forall truth :: truth in world && Touches(truth, dates, w) ==>
      exists n :: 0 <= n < |response| && FieldsRefine(response[n], truth)
  }

  /** Every field of the collection a predicate reads was asked for, and is one of the dates the
      provider's window is about. */
  ghost predicate ReadsOnly(p: Predicate, entity: string, wanted: set<string>, dates: set<string>)
  {
    && (EntityOf(p.field) == entity ==> p.field in wanted && p.field in dates)
    && (p.interval.Some? && EntityOf(p.interval.value.start) == entity ==>
          p.interval.value.start in wanted && p.interval.value.start in dates)
    && (p.interval.Some? && EntityOf(p.interval.value.end) == entity ==>
          p.interval.value.end in wanted && p.interval.value.end in dates)
  }

  /** The day a satisfied date predicate is about. */
  function DayAsked(p: Predicate, b: Bundle): string
  {
    if p.field in b.fields && b.fields[p.field].Known? then Day(Str(b.fields[p.field].payload)) else ""
  }

  // ------------------------------------------------------------------ soundness
  /** A record the response holds was judged, and answered No. */
  lemma FetchedIsJudged(p: Predicate, b: Bundle, s: Settings, entity: string, field: string, key: Value,
                        response: seq<Remote>, wanted: set<string>, seen: Remote, truth: Remote, b': Bundle,
                          s': Settings)
    requires AllNo(p, b, s) && ReadBy(p, b) == {entity} && p.operator.Within?
    requires Gathered(b, entity, field, key, response, wanted) && HasKey(key)
    requires seen in response && FieldsRefine(seen, truth) && KeyedBy(truth, field, Str(key.payload))
    requires FieldsRefine(b.fields, b'.fields) && b'.related.Keys == b.related.Keys && SettingsRefine(s, s')
    ensures Evaluate(p, View(b', entity, Project(truth, wanted)), s').No?
  {
    PlacedAs(b, entity, field, key, response, wanted, seen);
    assert KeyedBy(seen, field, Str(key.payload)) || Resolve(field, seen).Unknown?;
    EachIsNo(p, b, s, entity, Project(seen, wanted));
    ProjectRefines(seen, truth, wanted);
    ViewFieldsRefine(b, b', entity, Project(seen, wanted), Project(truth, wanted));
    EvaluateStable(p, View(b, entity, Project(seen, wanted)), View(b', entity, Project(truth, wanted)), s, s');
  }

  /** Lifting "inside the window" from moments to their days. */
  lemma InWindowByDay(moment: string, lower: Value, upper: Value)
    requires lower.Known? && upper.Known? && InWindow(moment, Bound(lower), Bound(upper))
    ensures InWindow(Day(moment), DayBound(lower), DayBound(upper))
  {
    if !Unset(lower.payload) {
      DayMonotone(Str(lower.payload), moment);
    }
    if !Unset(upper.payload) {
      DayMonotone(moment, Str(upper.payload));
    }
  }

  /** If the day a predicate is satisfied on is not before the day of asking, a complete window
      contains that day, and the record is there on it. */
  lemma SatisfiedInsideWindow(p: Predicate, b: Bundle, b': Bundle, s': Settings, entity: string, truth: Remote,
                              wanted: set<string>, dates: set<string>, spans: seq<Span>, w: Window)
    requires SpanOf(p, entity, b.fields) in spans && Complete(spans, w) && p.operator.Within?
    requires ReadsOnly(p, entity, wanted, dates) && forall name :: name in wanted ==> EntityOf(name) == entity
    requires FieldsRefine(b.fields, b'.fields)
    requires Evaluate(p, View(b', entity, Project(truth, wanted)), s').Yes?
    requires Le(w.askedOn, DayAsked(p, View(b', entity, Project(truth, wanted))))
    ensures Touches(truth, dates, w)
  {
    var v := View(b', entity, Project(truth, wanted));
    var span := SpanOf(p, entity, b.fields);
    var i :| 0 <= i < |spans| && spans[i] == span;
    var left, start, end := v.fields[p.field], v.fields[p.interval.value.start], v.fields[p.interval.value.end];
    var moment := Str(left.payload);
    var day := Day(moment);
    assert InWindow(moment, Bound(start), Bound(end));
    InWindowByDay(moment, start, end);
    if EntityOf(p.field) == entity {
      assert b.fields[p.interval.value.end] == end && b.fields[p.interval.value.start] == start;
      assert Le(day, span.end.value);
      LeTransitive(day, span.end.value, w.end);
      if Le(w.start, w.askedOn) {
        LeTransitive(w.start, w.askedOn, day);
      } else {
        assert Le(span.start.value, day);
        LeTransitive(w.start, span.start.value, day);
      }
      assert Resolve(p.field, truth) == left;
    } else {
      assert b.fields[p.field] == left && span == Span(Some(day), Some(day));
      if Le(w.start, w.askedOn) {
        LeTransitive(w.start, w.askedOn, day);
      }
      assert Resolve(p.interval.value.start, truth) == start && Resolve(p.interval.value.end, truth) == end;
    }
    assert OnDay(truth, dates, day);
  }

  /** A PASS over a collection fetched for one window speaks for every record there is. Take any
      record of the world that belongs to this one, in any way the unread keys and values turn out:
      if it satisfies a predicate at all, it does so on a day before the day of asking, and it
      touches no day of the window. */
  lemma PassHoldsOfTheWorld(predicates: seq<Predicate>, k: nat, b: Bundle, b': Bundle, s: Settings, s': Settings,
                            entity: string, field: string, key: Value, response: seq<Remote>, wanted: set<string>,
                            dates: set<string>, world: iset<Remote>, truth: Remote)
    requires Judged(predicates, b, s).PASS?
    requires k < |predicates| && Reads(predicates[k], entity)
    requires Gathered(b, entity, field, key, response, wanted)
    requires entity in b.windows ==> HoldsAllTouching(response, world, dates, b.windows[entity])
    requires ReadsOnly(predicates[k], entity, wanted, dates)
    requires FieldsRefine(b.fields, b'.fields) && b'.related.Keys == b.related.Keys && SettingsRefine(s, s')
    requires truth in world && HasKey(key) && KeyedBy(truth, field, Str(key.payload))
    ensures entity in b.windows
    ensures var v := View(b', entity, Project(truth, wanted));
            Evaluate(predicates[k], v, s').Yes? ==>
              Lt(DayAsked(predicates[k], v), b.windows[entity].askedOn) && !Touches(truth, dates, b.windows[entity])
  {
    var p := predicates[k];
    PassSays(predicates, k, b, s, entity);
    var w := b.windows[entity];
    var v := View(b', entity, Project(truth, wanted));
    if Touches(truth, dates, w) {
      var n :| 0 <= n < |response| && FieldsRefine(response[n], truth);
      FetchedIsJudged(p, b, s, entity, field, key, response, wanted, response[n], truth, b', s');
    } else if Evaluate(p, v, s').Yes? && Le(w.askedOn, DayAsked(p, v)) {
      SatisfiedInsideWindow(p, b, b', s', entity, truth, wanted, dates, SpansOf(predicates, entity, b.fields), w);
    }
  }

  /** The record itself read further, its collections and joins as they are. */
  ghost predicate Later(b: Bundle, b': Bundle)
  {
    FieldsRefine(b.fields, b'.fields) && b'.related.Keys == b.related.Keys && b'.joins == b.joins
  }

  /** This remote record is this record's and satisfies the predicate, however it turns out to read. */
  ghost predicate Accuses(p: Predicate, seen: Remote, b: Bundle, s: Settings, entity: string, field: string,
                          key: Value, wanted: set<string>)
  {
    HasKey(key)
    && forall truth: Remote, b': Bundle, s': Settings |
         FieldsRefine(seen, truth) && Later(b, b') && SettingsRefine(s, s') ::
           KeyedBy(truth, field, Str(key.payload))
           && Evaluate(p, View(b', entity, Project(truth, wanted)), s').Yes?
  }

  lemma StillYes(p: Predicate, b: Bundle, b': Bundle, s: Settings, s': Settings, entity: string, r: Record, r': Record)
    requires RecordRefines(r, r') && Later(b, b') && SettingsRefine(s, s')
    requires Evaluate(p, View(b, entity, r), s).Yes?
    ensures Evaluate(p, View(b', entity, r'), s').Yes?
  {
    ViewFieldsRefine(b, b', entity, r, r');
    EvaluateStable(p, View(b, entity, r), View(b', entity, r'), s, s');
  }

  lemma CameFrom(b: Bundle, entity: string, field: string, key: Value, response: seq<Remote>, wanted: set<string>,
                 r: Record) returns (n: nat)
    requires Gathered(b, entity, field, key, response, wanted) && r in Related(b, entity)
    ensures HasKey(key) && n < |response| && KeyedBy(response[n], field, Str(key.payload))
    ensures r == Project(response[n], wanted)
  {
    var scan := Scan(response, field, Str(key.payload));
    var i :| 0 <= i < |Related(b, entity)| && Related(b, entity)[i] == r;
    assert scan[i] in scan;
    n :| 0 <= n < |response| && response[n] == scan[i];
  }

  lemma YesAccuses(p: Predicate, seen: Remote, b: Bundle, s: Settings, entity: string, field: string, key: Value,
                   wanted: set<string>)
    requires HasKey(key) && KeyedBy(seen, field, Str(key.payload))
    requires Evaluate(p, View(b, entity, Project(seen, wanted)), s).Yes?
    ensures Accuses(p, seen, b, s, entity, field, key, wanted)
  {
    hide Evaluate, View, Project, Later;
    forall truth: Remote, b': Bundle, s': Settings | FieldsRefine(seen, truth) && Later(b, b') && SettingsRefine(s, s')
      ensures KeyedBy(truth, field, Str(key.payload))
      ensures Evaluate(p, View(b', entity, Project(truth, wanted)), s').Yes?
    {
      ProjectRefines(seen, truth, wanted);
      StillYes(p, b, b', s, s', entity, Project(seen, wanted), Project(truth, wanted));
    }
  }

  /** What one collection was gathered from: the reference's remote field, this record's key, the
      response, and the fields required of it. */
  datatype Fetched = Fetched(field: string, key: Value, response: seq<Remote>, wanted: set<string>)

  /** The one collection this predicate reads holds a record that accuses. */
  ghost predicate Accused(p: Predicate, b: Bundle, s: Settings, from: map<string, Fetched>, entity: string, n: nat)
  {
    && ReadBy(p, b) == {entity} && entity in from && n < |from[entity].response|
    && var f := from[entity];
       Accuses(p, f.response[n], b, s, entity, f.field, f.key, f.wanted)
  }

  /** A FAIL names a predicate, and - if that predicate reads a collection - a record of that one
      collection, this record's, that satisfies it however the rest of the evidence reads: however
      many collections the rule has, each gathered from its own response. */
  lemma FailHoldsOfTheWorld(predicates: seq<Predicate>, b: Bundle, s: Settings, from: map<string, Fetched>)
    requires Judged(predicates, b, s).FAIL?
    requires forall entity | entity in b.related && JoinKnown(b, entity) ::
               entity in from
               && Gathered(b, entity, from[entity].field, from[entity].key, from[entity].response, from[entity].wanted)
    ensures exists k :: 0 <= k < |predicates|
              && ((ReadBy(predicates[k], b) == {} && Evaluate(predicates[k], b, s).Yes?)
                  || exists entity, n :: Accused(predicates[k], b, s, from, entity, n))
  {
    hide Gathered, Accuses, Evaluate;
    var r, k :| 0 <= k < |predicates| && Yields(predicates[k], b, s, Yes, r);
    var p := predicates[k];
    if ReadBy(p, b) != {} {
      var entity := Only(ReadBy(p, b));
      assert entity in ReadBy(p, b);
      var f := from[entity];
      var n := CameFrom(b, entity, f.field, f.key, f.response, f.wanted, r.value);
      YesAccuses(p, f.response[n], b, s, entity, f.field, f.key, f.wanted);
      assert Accused(p, b, s, from, entity, n);
    }
  }

  // ------------------------------------------------------------------ why the dates must be the window's
  /** A predicate whose window can be bounded by one record's own dates. */
  predicate Bounded(p: Predicate, entity: string)
  {
    && p.operator.Within? && p.interval.Some?
    && (EntityOf(p.interval.value.start) == entity <==> EntityOf(p.interval.value.end) == entity)
    && (EntityOf(p.field) == entity <==> EntityOf(p.interval.value.start) != entity)
  }

  /** The fields of the collection a bounded predicate reads. */
  function ItsDates(p: Predicate, entity: string): set<string>
    requires Bounded(p, entity)
  {
    if EntityOf(p.field) == entity then {p.field} else {p.interval.value.start, p.interval.value.end}
  }

  /** All that `PassHoldsOfTheWorld` asks, but for which dates the provider's window is about. */
  ghost predicate Premises(p: Predicate, b: Bundle, b': Bundle, s: Settings, s': Settings, entity: string,
                           field: string, key: Value, response: seq<Remote>, wanted: set<string>,
                           dates: set<string>, world: iset<Remote>, truth: Remote)
  {
    && Judged([p], b, s).PASS? && Gathered(b, entity, field, key, response, wanted)
    && (entity in b.windows ==> HoldsAllTouching(response, world, dates, b.windows[entity]))
    && FieldsRefine(b.fields, b'.fields) && b'.related.Keys == b.related.Keys && SettingsRefine(s, s')
    && truth in world && HasKey(key) && KeyedBy(truth, field, Str(key.payload))
  }

  /** What it concludes. */
  ghost predicate Harmless(p: Predicate, b: Bundle, b': Bundle, s': Settings, entity: string, wanted: set<string>,
                           dates: set<string>, truth: Remote)
  {
    && entity in b.windows
    && var v := View(b', entity, Project(truth, wanted));
       Evaluate(p, v, s').Yes? ==>
         Lt(DayAsked(p, v), b.windows[entity].askedOn) && !Touches(truth, dates, b.windows[entity])
  }

  /** A PASS of a rule of this one predicate speaks for the unfetched world. */
  ghost predicate PassIsSound(p: Predicate, entity: string, field: string, wanted: set<string>, dates: set<string>)
  {
    forall b, b', s, s', key, response, world, truth |
      Premises(p, b, b', s, s', entity, field, key, response, wanted, dates, world, truth) ::
        Harmless(p, b, b', s', entity, wanted, dates, truth)
  }

  const EARLIER := "2026-07-01"
  const TODAY := "2026-07-04"
  const LATER := "2026-07-09"

  function OnThe(day: string): Value
  {
    Known(Text(day), Some("date"))
  }

  /** A record there today, in every date but those the provider's window is about. */
  function Hidden(names: set<string>, dates: set<string>, far: string): Remote
  {
    map name | name in names :: OnThe(if name in dates then far else TODAY)
  }

  /** A record with no related records, asked today about today. */
  function Lonely(p: Predicate, entity: string): Bundle
    requires Bounded(p, entity)
  {
    var mine := {p.field, p.interval.value.start, p.interval.value.end} - ItsDates(p, entity);
    Bundle("", None, map name | name in mine :: OnThe(TODAY), map[entity := []],
           map[entity := Known(Flag(false), None)], map[entity := Window(TODAY, TODAY, TODAY)], map[])
  }

  lemma {:induction false} SamePrefix(p: string, a: string, b: string)
    ensures Le(p + a, p + b) <==> Le(a, b)
  {
    if p == "" {
      assert p + a == a && p + b == b;
    } else {
      assert (p + a)[1..] == p[1..] + a && (p + b)[1..] == p[1..] + b;
      SamePrefix(p[1..], a, b);
    }
  }

  lemma InOrder()
    ensures Le(TODAY, TODAY) && Le(TODAY, LATER) && !Le(LATER, TODAY) && Le(EARLIER, TODAY) && !Le(TODAY, EARLIER)
    ensures |EARLIER| == |TODAY| == |LATER| == 10
  {
    var month := "2026-07-0";
    assert EARLIER == month + "1" && TODAY == month + "4" && LATER == month + "9";
    SamePrefix(month, "4", "4");
    SamePrefix(month, "4", "9");
    SamePrefix(month, "9", "4");
    SamePrefix(month, "1", "4");
    SamePrefix(month, "4", "1");
  }

  lemma LonelySpan(p: Predicate, entity: string)
    requires Bounded(p, entity)
    ensures SpanOf(p, entity, Lonely(p, entity).fields) == Span(Some(TODAY), Some(TODAY))
  {
    hide EntityOf, EARLIER, TODAY, LATER;
    InOrder();
    assert DateOf(map["x" := OnThe(TODAY)], "x") == On(TODAY);
  }

  lemma OneDay(spans: seq<Span>)
    requires spans == [Span(Some(TODAY), Some(TODAY))]
    ensures Complete(spans, Window(TODAY, TODAY, TODAY))
  {
    hide Le, EARLIER, TODAY, LATER;
    InOrder();
    assert Le(spans[0].start.value, spans[0].end.value);
  }

  lemma LonelyPasses(p: Predicate, entity: string)
    requires Bounded(p, entity) && Reads(p, entity)
    ensures Judged([p], Lonely(p, entity), None).PASS? && ReadBy(p, Lonely(p, entity)) == {entity}
  {
    hide Complete, SpanOf, EntityOf, Evaluate, TODAY;
    var b := Lonely(p, entity);
    assert ReadBy(p, b) == {entity};
    assert Only({entity}) == entity;
    forall h, r ensures !Yields(p, b, None, h, r) {}
    LonelySpan(p, entity);
    var spans := SpansOf([p], entity, b.fields);
    assert [p][..0] == [] && SpansOf([], entity, b.fields) == [];
    assert spans == [Span(Some(TODAY), Some(TODAY))];
    OneDay(spans);
  }

  lemma HiddenIsAway(names: set<string>, dates: set<string>, far: string)
    requires far == LATER || far == EARLIER
    ensures !Touches(Hidden(names, dates, far), dates, Window(TODAY, TODAY, TODAY))
  {
    hide Le, InWindow, EARLIER, TODAY, LATER;
    var truth := Hidden(names, dates, far);
    InOrder();
    forall day | Le(TODAY, day) && Le(day, TODAY)
      ensures !OnDay(truth, dates, day)
    {
      LeAntisymmetric(TODAY, day);
      assert forall f :: f in dates && Resolve(f, truth).Known? ==> Resolve(f, truth) == OnThe(far);
      NotBetween(far);
    }
  }

  lemma NotBetween(far: string)
    requires far == LATER || far == EARLIER
    ensures !InWindow(TODAY, DayBound(OnThe(far)), DayBound(OnThe(far))) && Day(Str(OnThe(far).payload)) != TODAY
  {
    hide Le, EARLIER, TODAY, LATER;
    InOrder();
    assert DayBound(OnThe(far)) == Some(far);
  }

  lemma HiddenShows(p: Predicate, entity: string, field: string, wanted: set<string>, dates: set<string>, far: string,
                    name: string)
    requires Bounded(p, entity) && ItsDates(p, entity) <= wanted && forall name :: name in wanted ==>
               EntityOf(name) == entity
    requires name in {p.field, p.interval.value.start, p.interval.value.end}
    ensures var v := View(Lonely(p, entity), entity,
              Project(Hidden(ItsDates(p, entity) + {field}, dates, far), wanted));
            name in v.fields && v.fields[name]
              == OnThe(if name in ItsDates(p, entity) && name in dates then far else TODAY)
  {
    var truth := Hidden(ItsDates(p, entity) + {field}, dates, far);
    if name in ItsDates(p, entity) {
      assert Project(truth, wanted)[name] == truth[name];
    } else {
      assert EntityOf(name) != entity;
      assert name in Lonely(p, entity).fields;
    }
  }

  lemma WithinToday(start: Value, end: Value)
    requires start == OnThe(TODAY) || start == OnThe(EARLIER)
    requires end == OnThe(TODAY) || end == OnThe(LATER)
    ensures WithinWindow(OnThe(TODAY), start, end).Yes?
  {
    hide Le, EARLIER, TODAY, LATER;
    InOrder();
    assert !Le(LATER, TODAY) && Le(TODAY, LATER);
  }

  lemma HiddenSatisfies(p: Predicate, entity: string, field: string, wanted: set<string>, dates: set<string>,
                        far: string)
    requires Bounded(p, entity) && ItsDates(p, entity) <= wanted && forall name :: name in wanted ==>
               EntityOf(name) == entity
    requires far == if EntityOf(p.field) == entity || p.interval.value.start !in dates then LATER else EARLIER
    requires !(ItsDates(p, entity) <= dates)
    ensures var v := View(Lonely(p, entity), entity,
              Project(Hidden(ItsDates(p, entity) + {field}, dates, far), wanted));
            Evaluate(p, v, None).Yes? && DayAsked(p, v) == TODAY
  {
    hide View, Lonely, Project, Hidden, WithinWindow, EntityOf, Bound, Le, EARLIER, TODAY, LATER;
    InOrder();
    var start, end := p.interval.value.start, p.interval.value.end;
    var v := View(Lonely(p, entity), entity, Project(Hidden(ItsDates(p, entity) + {field}, dates, far), wanted));
    HiddenShows(p, entity, field, wanted, dates, far, p.field);
    HiddenShows(p, entity, field, wanted, dates, far, start);
    HiddenShows(p, entity, field, wanted, dates, far, end);
    WithinToday(v.fields[start], v.fields[end]);
    LonelyReadable(p, entity, Project(Hidden(ItsDates(p, entity) + {field}, dates, far), wanted));
    assert v.fields[p.field] == OnThe(TODAY);
  }

  lemma LonelyReadable(p: Predicate, entity: string, r: Record)
    requires Bounded(p, entity)
    ensures !FromCollection(p, View(Lonely(p, entity), entity, r))
  {
    hide TODAY;
    assert View(Lonely(p, entity), entity, r).related.Keys == {};
  }

  lemma LonelyGathers(p: Predicate, entity: string, field: string, key: Value, wanted: set<string>)
    requires Bounded(p, entity) && HasKey(key) && forall name :: name in wanted ==> EntityOf(name) == entity
    ensures Gathered(Lonely(p, entity), entity, field, key, [], wanted)
    ensures Lonely(p, entity).windows == map[entity := Window(TODAY, TODAY, TODAY)]
  {
    hide EntityOf, Str, TODAY;
    assert Scan([], field, Str(key.payload)) == [] && Unreadable([], field) == [];
  }

  /** A window bounds what the provider filters on. Take any predicate whose window can be bounded,
      and any dates that leave out one it reads: here is a record that passes, asked for its own
      dates, while a record nobody fetched is its own and satisfies the predicate, on the very day
      of asking. */
  lemma OtherDatesEscape(p: Predicate, entity: string, field: string, wanted: set<string>, dates: set<string>)
    returns (b: Bundle, key: Value, truth: Remote)
    requires Bounded(p, entity) && Reads(p, entity)
    requires ItsDates(p, entity) <= wanted && forall name :: name in wanted ==> EntityOf(name) == entity
    requires !(ItsDates(p, entity) <= dates)
    ensures Premises(p, b, b, None, None, entity, field, key, [], wanted, dates, iset{truth}, truth)
    ensures Evaluate(p, View(b, entity, Project(truth, wanted)), None).Yes?
    ensures entity in b.windows && b.windows[entity].askedOn == DayAsked(p, View(b, entity, Project(truth, wanted)))
  {
    hide Judged, Touches, Evaluate, Str, Gathered, View, Lonely, DayAsked, EARLIER, TODAY, LATER;
    var far := if EntityOf(p.field) == entity || p.interval.value.start !in dates then LATER else EARLIER;
    b, truth := Lonely(p, entity), Hidden(ItsDates(p, entity) + {field}, dates, far);
    key := truth[field];
    LonelyPasses(p, entity);
    HiddenSatisfies(p, entity, field, wanted, dates, far);
    HiddenIsAway(ItsDates(p, entity) + {field}, dates, far);
    LonelyGathers(p, entity, field, key, wanted);
    assert FieldsRefine(b.fields, b.fields);
  }

  lemma UnboundedNeverPasses(p: Predicate, b: Bundle, s: Settings, entity: string)
    requires Judged([p], b, s).PASS? && entity in b.related && Reads(p, entity)
    ensures Bounded(p, entity)
  {
    hide Judged;
    PassSays([p], 0, b, s, entity);
    var spans := SpansOf([p], entity, b.fields);
    var i :| 0 <= i < |spans| && spans[i] == SpanOf(p, entity, b.fields);
    assert spans[i].Span?;
  }

  /** A rule's PASS speaks for the unfetched world exactly when every date of the collection that it
      can be bounded by is one the provider's window is about. */
  lemma PassIsSoundIff(p: Predicate, entity: string, field: string, wanted: set<string>, dates: set<string>)
    requires Reads(p, entity) && forall name :: name in wanted ==> EntityOf(name) == entity
    requires Bounded(p, entity) ==> ItsDates(p, entity) <= wanted
    ensures PassIsSound(p, entity, field, wanted, dates) <==> (Bounded(p, entity) ==> ItsDates(p, entity) <= dates)
  {
    hide Judged, Gathered, HoldsAllTouching, Evaluate, Touches;
    if Bounded(p, entity) && !(ItsDates(p, entity) <= dates) {
      var b, key, truth := OtherDatesEscape(p, entity, field, wanted, dates);
      assert Premises(p, b, b, None, None, entity, field, key, [], wanted, dates, iset{truth}, truth);
      LeReflexive(b.windows[entity].askedOn);
      assert !Harmless(p, b, b, None, entity, wanted, dates, truth);
    } else {
      forall b, b', s, s', key, response, world, truth |
        Premises(p, b, b', s, s', entity, field, key, response, wanted, dates, world, truth)
        ensures Harmless(p, b, b', s', entity, wanted, dates, truth)
      {
        InRelated(b, entity, field, key, response, wanted);
        UnboundedNeverPasses(p, b, s, entity);
        assert [p][0] == p;
        PassHoldsOfTheWorld([p], 0, b, b', s, s', entity, field, key, response, wanted, dates, world, truth);
      }
    }
  }

  lemma InRelated(b: Bundle, entity: string, field: string, key: Value, response: seq<Remote>, wanted: set<string>)
    requires Gathered(b, entity, field, key, response, wanted)
    ensures entity in b.related
  {
  }
}
