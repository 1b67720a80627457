/** What each outcome of a record means, said of what the predicates answer on the record and on the
    records related to it (hotelcontrols/evaluator/record.py, hotelcontrols/evaluator/collections.py). */
module Judgements {
  import opened Basics
  import opened Texts
  import opened Values
  import opened Rules
  import opened Bundles
  import opened Operators
  import opened Predicates

  // ------------------------------------------------------------------ what a predicate reads
  /** The part of a name up to its first dot. */
  predicate IsPrefix(entity: string, name: string)
  {
    && |entity| <= |name| && name[..|entity|] == entity && '.' !in entity
    && (|entity| < |name| ==> name[|entity|] == '.')
  }

  lemma {:induction false} EntityIsPrefix(name: string, entity: string)
    ensures EntityOf(name) == entity <==> IsPrefix(entity, name)
  {
    if name != "" && name[0] != '.' && entity != "" {
      EntityIsPrefix(name[1..], entity[1..]);
      assert entity == [entity[0]] + entity[1..];
      assert name == [name[0]] + name[1..];
      if |entity| <= |name| {
        assert name[..|entity|] == [name[0]] + name[1..][..|entity| - 1];
        assert name[..|entity|] == entity <==> (name[0] == entity[0] && name[1..][..|entity| - 1] == entity[1..]);
      }
    }
  }

  predicate IsOf(name: string, entity: string)
  {
    name != "" && IsPrefix(entity, name)
  }

  /** A predicate reads an entity by its subject, by the field it compares with or by either end of its
      interval. */
  lemma ReadsMeans(p: Predicate, entity: string)
    ensures Reads(p, entity) <==>
              || IsOf(p.field, entity)
              || (p.compareTo.Some? && IsOf(p.compareTo.value, entity))
              || (p.interval.Some? && (IsOf(p.interval.value.start, entity) || IsOf(p.interval.value.end, entity)))
  {
    hide EntityOf, IsPrefix;
    EntityIsPrefix(p.field, entity);
    if p.compareTo.Some? {
      EntityIsPrefix(p.compareTo.value, entity);
    }
    if p.interval.Some? {
      EntityIsPrefix(p.interval.value.start, entity);
      EntityIsPrefix(p.interval.value.end, entity);
    }
  }

  /** Beside one record of a collection a predicate sees that record's fields before the bundle's own,
      no longer that collection, and everything else as it was. */
  lemma ViewMeans(b: Bundle, entity: string, r: Record)
    ensures var v := View(b, entity, r);
            && (forall name :: name in v.fields <==> name in r || name in b.fields)
            && (forall name :: name in r ==> v.fields[name] == r[name])
            && (forall name :: name in b.fields && name !in r ==> v.fields[name] == b.fields[name])
            && (forall other :: other in v.related <==> other in b.related && other != entity)
            && (forall other :: other in v.related ==> v.related[other] == b.related[other])
            && v.joins == b.joins && v.windows == b.windows && v.unplaced == b.unplaced
  {
  }

  // ------------------------------------------------------------------ one predicate over its collection
  /** The predicate reads this collection and no other. */
  ghost predicate ReadsJust(p: Predicate, b: Bundle, entity: string)
  {
    entity in b.related && Reads(p, entity) && forall other :: other in b.related && Reads(p, other) ==> other == entity
  }

  ghost predicate ReadsNone(p: Predicate, b: Bundle)
  {
    forall entity :: entity in b.related ==> !Reads(p, entity)
  }

  /** It reads just one collection, and whether that one matched is known. */
  ghost predicate Looks(p: Predicate, b: Bundle, entity: string)
  {
    ReadsJust(p, b, entity) && entity in b.joins && b.joins[entity].Known?
  }

  ghost predicate OnRelated(p: Predicate, b: Bundle, s: Settings, entity: string, r: Record, h: Holds)
  {
    Looks(p, b, entity) && r in b.related[entity] && Evaluate(p, View(b, entity, r), s) == h
  }

  ghost predicate OnUnplaced(p: Predicate, b: Bundle, s: Settings, entity: string, r: Record, h: Holds)
  {
    Looks(p, b, entity) && entity in b.unplaced && r in b.unplaced[entity] && Evaluate(p, View(b, entity, r), s) == h
  }

  /** Some evaluation of it raises. */
  ghost predicate RaisesIn(p: Predicate, b: Bundle, s: Settings)
  {
    (ReadsNone(p, b) && Evaluate(p, b, s) == Raises)
    || exists entity, r :: OnRelated(p, b, s, entity, r, Raises) || OnUnplaced(p, b, s, entity, r, Raises)
  }

  /** It holds of this record, or of a record that is known to be this one's. */
  ghost predicate HoldsIn(p: Predicate, b: Bundle, s: Settings)
  {
    (ReadsNone(p, b) && Evaluate(p, b, s) == Yes) || exists entity, r :: OnRelated(p, b, s, entity, r, Yes)
  }

  /** Nobody can tell: of this record; which collection it is about; whether there are any; of a
      related record; or of one that may be related and of which it is not known to fail. */
  ghost predicate UnsureIn(p: Predicate, b: Bundle, s: Settings)
  {
    || (ReadsNone(p, b) && Evaluate(p, b, s) == CannotTell)
    || (!ReadsNone(p, b) && forall entity :: !Looks(p, b, entity))
    || (exists entity, r :: OnRelated(p, b, s, entity, r, CannotTell))
    || (exists entity, r :: OnUnplaced(p, b, s, entity, r, CannotTell) || OnUnplaced(p, b, s, entity, r, Yes))
  }

  // ------------------------------------------------------------------ the days a predicate asks about
  /** Nothing is said: null, an empty text or a zero. */
  predicate Empty(p: Payload)
  {
    p == Null || p == Text("") || (Numeric(p) && Number(p) == 0.0)
  }

  /** The day an instant falls on: its first ten characters. */
  function DayOf(instant: string): string
  {
    if |instant| < 10 then instant else instant[..10]
  }

  /** The day this field says. */
  function DayIn(fields: Record, name: string): Option<string>
  {
    if name in fields && Dated(fields[name]) && !Empty(fields[name].payload) && !fields[name].payload.NotApplicable?
    then Some(DayOf(Str(fields[name].payload))) else None
  }

  /** A known bound that is declared absent. */
  predicate OpenBound(fields: Record, name: string)
  {
    name in fields && fields[name].Known? && (Empty(fields[name].payload) || fields[name].payload.NotApplicable?)
  }

  predicate ReadableBound(fields: Record, name: string)
  {
    OpenBound(fields, name) || DayIn(fields, name).Some?
  }

  /** A date of the related record, between two of this one's own. */
  predicate Between(p: Predicate, entity: string, fields: Record)
  {
    && p.operator.Within? && p.interval.Some? && EntityOf(p.field) == entity
    && EntityOf(p.interval.value.start) != entity && EntityOf(p.interval.value.end) != entity
    && ReadableBound(fields, p.interval.value.start) && ReadableBound(fields, p.interval.value.end)
  }

  /** A date of this record, between two of the related one's. */
  predicate Around(p: Predicate, entity: string)
  {
    && p.operator.Within? && p.interval.Some? && EntityOf(p.field) != entity
    && EntityOf(p.interval.value.start) == entity && EntityOf(p.interval.value.end) == entity
  }

  /** The first and the last day on which a predicate over this collection can be satisfied. */
  function FirstDay(p: Predicate, entity: string, fields: Record): Option<string>
  {
    if Between(p, entity, fields) then DayIn(fields, p.interval.value.start)
    else if Around(p, entity) then DayIn(fields, p.field) else None
  }

  function LastDay(p: Predicate, entity: string, fields: Record): Option<string>
  {
    if Between(p, entity, fields) then DayIn(fields, p.interval.value.end)
    else if Around(p, entity) then DayIn(fields, p.field) else None
  }

  ghost predicate Asks(predicates: seq<Predicate>, entity: string, k: int)
  {
    0 <= k < |predicates| && Reads(predicates[k], entity)
  }

  /** The window holds every day any of these predicates asks about, from the day of asking on: each
      has a last day, inside it; each first day is inside it too, unless it reaches back to the day of
      asking; something still lies ahead; and some first day is open or not after some last. */
  ghost predicate FetchedFor(predicates: seq<Predicate>, entity: string, fields: Record, w: Window)
  {
    && (forall k | Asks(predicates, entity, k) ::
          LastDay(predicates[k], entity, fields).Some? && Le(LastDay(predicates[k], entity, fields).value, w.end))
    && (Le(w.start, w.askedOn)
        || forall k | Asks(predicates, entity, k) ::
             FirstDay(predicates[k], entity, fields).Some?
               && Le(w.start, FirstDay(predicates[k], entity, fields).value))
    && (exists k :: Asks(predicates, entity, k) && Le(w.askedOn, LastDay(predicates[k], entity, fields).value))
    && ((exists k :: Asks(predicates, entity, k) && FirstDay(predicates[k], entity, fields).None?)
        || exists k, l :: Asks(predicates, entity, k) && Asks(predicates, entity, l)
             && Le(FirstDay(predicates[k], entity, fields).value, LastDay(predicates[l], entity, fields).value))
  }

  /** Every collection these predicates read was fetched for all they ask. */
  ghost predicate AllFetched(predicates: seq<Predicate>, b: Bundle)
  {
    forall entity | entity in b.related && exists k :: Asks(predicates, entity, k) ::
      entity in b.windows && FetchedFor(predicates, entity, b.fields, b.windows[entity])
  }

  // ------------------------------------------------------------------ a judgement over collections
  ghost predicate SomeRaises(predicates: seq<Predicate>, b: Bundle, s: Settings)
  {
    exists k :: 0 <= k < |predicates| && RaisesIn(predicates[k], b, s)
  }

  ghost predicate SomeHolds(predicates: seq<Predicate>, b: Bundle, s: Settings)
  {
    exists k :: 0 <= k < |predicates| && HoldsIn(predicates[k], b, s)
  }

  ghost predicate SomeUnsure(predicates: seq<Predicate>, b: Bundle, s: Settings)
  {
    exists k :: 0 <= k < |predicates| && UnsureIn(predicates[k], b, s)
  }

  /** What mode `none` says of this record and its collections: a violation found is a violation,
      whatever the windows and whatever else is unsure. */
  ghost predicate NoneSays(predicates: seq<Predicate>, b: Bundle, s: Settings, o: Outcome)
  {
    && (o.RAISED? <==> SomeRaises(predicates, b, s))
    && (o.FAIL? <==> !SomeRaises(predicates, b, s) && SomeHolds(predicates, b, s))
    && (o.UNKNOWN? <==>
          && !SomeRaises(predicates, b, s) && !SomeHolds(predicates, b, s)
          && (SomeUnsure(predicates, b, s) || !AllFetched(predicates, b)))
    && (o.PASS? <==>
          && !SomeRaises(predicates, b, s) && !SomeHolds(predicates, b, s)
          && !SomeUnsure(predicates, b, s) && AllFetched(predicates, b))
  }

  // ------------------------------------------------------------------ a record
  ghost predicate SomeAnswer(predicates: seq<Predicate>, b: Bundle, s: Settings, h: Holds)
  {
    exists k :: 0 <= k < |predicates| && Evaluate(predicates[k], b, s) == h
  }

  ghost predicate AllAnswer(predicates: seq<Predicate>, b: Bundle, s: Settings, h: Holds)
  {
    forall k :: 0 <= k < |predicates| ==> Evaluate(predicates[k], b, s) == h
  }

  /** Every scope clause matches and no exception does. */
  ghost predicate InScope(rule: Rule, b: Bundle, s: Settings)
  {
    AllAnswer(rule.scope, b, s, Yes) && AllAnswer(rule.exceptions, b, s, No)
  }

  /** A clause raises where it is reached: the exceptions only of a record that is in scope. */
  ghost predicate ClauseRaises(rule: Rule, b: Bundle, s: Settings)
  {
    || SomeAnswer(rule.scope, b, s, Raises)
    || (AllAnswer(rule.scope, b, s, Yes) && SomeAnswer(rule.exceptions, b, s, Raises))
  }

  /** Any scope clause that does not match excludes, and so does any exception that does of a record
      in scope - whatever else of the same clauses is unsure. */
  ghost predicate Excludes(rule: Rule, b: Bundle, s: Settings)
  {
    && !ClauseRaises(rule, b, s)
    && (SomeAnswer(rule.scope, b, s, No)
        || (AllAnswer(rule.scope, b, s, Yes) && SomeAnswer(rule.exceptions, b, s, Yes)))
  }

  /** Exactly these violate, satisfy and leave unsure a record in scope, in each mode. */
  ghost predicate AssertionSays(a: Assertion, b: Bundle, s: Settings, o: Outcome)
  {
    if a.mode.Aggregate? then o.UNKNOWN?
    else if a.mode.NoneOf? && exists entity, k :: entity in b.related && Asks(a.predicates, entity, k) then
      NoneSays(a.predicates, b, s, o)
    else if SomeAnswer(a.predicates, b, s, Raises) then o.RAISED?
    else match a.mode
      case AllOf =>
        if SomeAnswer(a.predicates, b, s, No) then o.FAIL?
          else if AllAnswer(a.predicates, b, s, Yes) then o.PASS? else o.UNKNOWN?
      case AnyOf =>
        if SomeAnswer(a.predicates, b, s, Yes) then o.PASS?
          else if AllAnswer(a.predicates, b, s, No) then o.FAIL? else o.UNKNOWN?
      case NoneOf =>
        if SomeAnswer(a.predicates, b, s, Yes) then o.FAIL?
          else if AllAnswer(a.predicates, b, s, No) then o.PASS? else o.UNKNOWN?
  }

  /** What a rule says of one record. */
  ghost predicate RecordSays(rule: Rule, b: Bundle, s: Settings, o: Outcome)
  {
    if ClauseRaises(rule, b, s) then o.RAISED?
    else if Excludes(rule, b, s) then o.EXCLUDED?
    else if InScope(rule, b, s) then AssertionSays(rule.assertion, b, s, o)
    else o.UNKNOWN?
  }

  // ------------------------------------------------------------------ a record among others
  /** The first clause that does not let a record through answers this. */
  ghost predicate FirstAnswer(clause: seq<Predicate>, b: Bundle, s: Settings, through: Holds, h: Holds)
  {
    exists k :: 0 <= k < |clause| && Evaluate(clause[k], b, s) == h != through
      && forall j :: 0 <= j < k ==> Evaluate(clause[j], b, s) == through
  }

  /** The first scope clause that does not match answers this; or all match, and the first exception
      that is not known to fail does. */
  ghost predicate StopsAt(rule: Rule, b: Bundle, s: Settings, scope: Holds, exception: Holds)
  {
    || FirstAnswer(rule.scope, b, s, Yes, scope)
    || (AllAnswer(rule.scope, b, s, Yes) && FirstAnswer(rule.exceptions, b, s, No, exception))
  }

  /** A record that may belong to its group or not. */
  ghost predicate MayBelong(rule: Rule, b: Bundle, s: Settings)
  {
    StopsAt(rule, b, s, CannotTell, CannotTell)
  }

  predicate Readable(b: Bundle, name: string)
  {
    name in b.fields && b.fields[name].Known?
  }

  function TextOf(b: Bundle, name: string): string
    requires Readable(b, name)
  {
    Str(b.fields[name].payload)
  }

  predicate IsText(b: Bundle, name: string, text: string)
  {
    Readable(b, name) && TextOf(b, name) == text
  }

  /** Everything a question about overlaps reads of one record. */
  predicate StayReadable(p: Predicate, b: Bundle)
    requires p.interval.Some?
  {
    Readable(b, p.field) && Readable(b, p.interval.value.start) && Readable(b, p.interval.value.end)
  }

  /** Two records of different identifiers, each beginning before the other ends. */
  predicate Meets(p: Predicate, b: Bundle, c: Bundle)
    requires p.interval.Some? && StayReadable(p, b) && StayReadable(p, c)
  {
    && TextOf(b, p.field) != TextOf(c, p.field)
    && Lt(TextOf(c, p.interval.value.start), TextOf(b, p.interval.value.end))
    && Lt(TextOf(b, p.interval.value.start), TextOf(c, p.interval.value.end))
  }

  /** A stay holds the nights from its start up to, not including, its end. */
  predicate HoldsTheNight(p: Predicate, b: Bundle, night: string)
    requires p.interval.Some? && StayReadable(p, b)
  {
    Le(TextOf(b, p.interval.value.start), night) && Lt(night, TextOf(b, p.interval.value.end))
  }

  /** The records counted under a key: in scope, and known to hold it. */
  ghost predicate Counted(rule: Rule, bundles: seq<Bundle>, s: Settings, key: string, j: int)
    requires rule.assertion.groupBy.Some?
  {
    0 <= j < |bundles| && InScope(rule, bundles[j], s) && IsText(bundles[j], rule.assertion.groupBy.value, key)
  }

  /** Some record that may belong holds this key. */
  ghost predicate SomeMayBelong(rule: Rule, bundles: seq<Bundle>, s: Settings, key: string)
    requires rule.assertion.groupBy.Some?
  {
    exists j :: 0 <= j < |bundles| && MayBelong(rule, bundles[j], s)
      && IsText(bundles[j], rule.assertion.groupBy.value, key)
  }

  /** "No two of one key at once": a record fails exactly when a readable record of its key meets it,
      and passes exactly when every record of its key can be read, none meets it and none may yet join. */
  ghost predicate OverlapSays(rule: Rule, bundles: seq<Bundle>, s: Settings, key: string, p: Predicate, i: int,
                              o: Outcome)
    requires rule.assertion.groupBy.Some? && p.interval.Some? && 0 <= i < |bundles|
  {
    && o in {FAIL, PASS, UNKNOWN}
    && (o.FAIL? <==>
          StayReadable(p, bundles[i]) && exists j :: Counted(rule, bundles, s, key, j) && StayReadable(p, bundles[j])
                                             && Meets(p, bundles[i], bundles[j]))
    && (o.PASS? <==>
          && StayReadable(p, bundles[i]) && !SomeMayBelong(rule, bundles, s, key)
          && forall j :: Counted(rule, bundles, s, key, j) ==>
               StayReadable(p, bundles[j]) && !Meets(p, bundles[i], bundles[j]))
  }

  /** The texts of a field that can be read among the records of a key, and the records it cannot be
      read of. */
  ghost function IdsRead(rule: Rule, bundles: seq<Bundle>, s: Settings, key: string, name: string): set<string>
    requires rule.assertion.groupBy.Some?
  {
    set j: nat | j < |bundles| && Counted(rule, bundles, s, key, j)
      && Readable(bundles[j], name) :: TextOf(bundles[j], name)
  }

  ghost function Unread(rule: Rule, bundles: seq<Bundle>, s: Settings, key: string, name: string): set<nat>
    requires rule.assertion.groupBy.Some?
  {
    set j: nat | j < |bundles| && Counted(rule, bundles, s, key, j) && !Readable(bundles[j], name)
  }

  /** "At most so many of one key": counted by the texts that can be read, each that cannot being
      perhaps another. */
  ghost predicate CountSays(rule: Rule, bundles: seq<Bundle>, s: Settings, key: string, p: Predicate, limit: int,
                            i: int, o: Outcome)
    requires rule.assertion.groupBy.Some? && 0 <= i < |bundles|
  {
    var read, unread := IdsRead(rule, bundles, s, key, p.field), Unread(rule, bundles, s, key, p.field);
    && o in {FAIL, PASS, UNKNOWN}
    && (o.FAIL? <==> Readable(bundles[i], p.field) && |read| > limit)
    && (o.PASS? <==>
          Readable(bundles[i], p.field) && |read| + |unread| <= limit && !SomeMayBelong(rule, bundles, s, key))
  }

  /** What an aggregate rule says of one of its records. */
  ghost predicate MemberSays(rule: Rule, bundles: seq<Bundle>, s: Settings, i: int, o: Outcome)
    requires rule.assertion.groupBy.Some? && rule.assertion.predicates != [] && 0 <= i < |bundles|
  {
    var b, p, name := bundles[i], rule.assertion.predicates[0], rule.assertion.groupBy.value;
    && (StopsAt(rule, b, s, Raises, Raises) ==> o.RAISED?)
    && (StopsAt(rule, b, s, No, Yes) ==> o.EXCLUDED?)
    && (MayBelong(rule, b, s) ==> o.UNKNOWN?)
    && (InScope(rule, b, s) && !Readable(b, name) ==> o.UNKNOWN?)
    && (InScope(rule, b, s) && Readable(b, name) ==>
          match p.operator
          case NoOverlap => p.interval.Some? ==> OverlapSays(rule, bundles, s, TextOf(b, name), p, i, o)
          case CountLte =>
            p.value.Some? && p.value.value.WholeLiteral? ==>
              CountSays(rule, bundles, s, TextOf(b, name), p, p.value.value.n, i, o)
          case _ => o.UNKNOWN?)
  }
}
