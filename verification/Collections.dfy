/** A collection judged record by record: mode `none` over many related records
    (hotelcontrols/evaluator/collections.py). */
module Collections {
  import opened Basics
  import opened Texts
  import opened Values
  import opened Rules
  import opened Bundles
  import opened Predicates
  import opened Judgements

  /** One answer, and the related record it is about, if it is about one. */
  datatype Found = Found(holds: Holds, record: Option<Record>)

  datatype Judgement = Judgement(outcome: Outcome, record: Option<Record>)

  // ------------------------------------------------------------------ which collections are read
  ghost predicate CollectionRead(predicates: seq<Predicate>, b: Bundle, entity: string)
  {
    entity in b.related && exists k :: 0 <= k < |predicates| && Reads(predicates[k], entity)
  }

  /** The collection entities these predicates read. */
  function CollectionsRead(predicates: seq<Predicate>, b: Bundle): (entities: set<string>)
    ensures forall entity :: entity in entities <==> CollectionRead(predicates, b, entity)
  {
    set entity | entity in b.related.Keys && exists k :: 0 <= k < |predicates| && Reads(predicates[k], entity)
  }

  /** The collections one predicate reads. */
  function ReadBy(p: Predicate, b: Bundle): set<string>
  {
    set entity | entity in b.related.Keys && Reads(p, entity)
  }

  function Only(entities: set<string>): (entity: string)
    requires |entities| == 1
    ensures entities == {entity}
  {
    var entity :| entity in entities;
    assert |entities - {entity}| == 0;
    entity
  }

  // ------------------------------------------------------------------ per record
  /** An unplaced record may be this record's or not: it can only prevent a clear answer. */
  function Doubtful(h: Holds): Holds
  {
    if h.Raises? then Raises else CannotTell
  }

  /** Whether record `r` of this collection, or no record in particular, gave answer `h`. */
  ghost predicate Yields(p: Predicate, b: Bundle, s: Settings, h: Holds, r: Option<Record>)
  {
    var read := ReadBy(p, b);
    if read == {} then r.None? && h == Evaluate(p, b, s)
    else if |read| != 1 || !JoinKnown(b, Only(read)) then r.None? && h == CannotTell
    else
      r.Some? && (RelatedYields(p, Only(read), b, s, h, r.value) || UnplacedYields(p, Only(read), b, s, h, r.value))
  }

  ghost predicate RelatedYields(p: Predicate, entity: string, b: Bundle, s: Settings, h: Holds, r: Record)
  {
    r in Related(b, entity) && h == Evaluate(p, View(b, entity, r), s)
  }

  /** Never Yes: nobody knows it is this record's. Never No: it then cannot matter either way. */
  ghost predicate UnplacedYields(p: Predicate, entity: string, b: Bundle, s: Settings, h: Holds, r: Record)
  {
    r in Unplaced(b, entity)
    && !Evaluate(p, View(b, entity, r), s).No?
    && h == Doubtful(Evaluate(p, View(b, entity, r), s))
  }

  /** Some predicate gave this answer. */
  ghost predicate Answered(predicates: seq<Predicate>, b: Bundle, s: Settings, h: Holds)
  {
    exists r, k :: 0 <= k < |predicates| && Yields(predicates[k], b, s, h, r)
  }

  // ------------------------------------------------------------------ completeness
  /** The dates of this record a predicate places the collection's dates against. */
  datatype Span = Unbounded | Span(start: Option<string>, end: Option<string>)

  datatype DateReading = NoDate | Open | On(day: string)

  /** An ISO day, an open bound for a declared absence, or no date at all. */
  function DateOf(fields: Record, name: string): DateReading
  {
    if name !in fields || fields[name].Unknown? then NoDate
    else if Unset(fields[name].payload) || fields[name].payload.NotApplicable? then Open
    else if !IsDate(fields[name]) then NoDate
    else On(Day(Str(fields[name].payload)))
  }

  function Edge(d: DateReading): Option<string>
  {
    if d.On? then Some(d.day) else None
  }

  function SpanOf(p: Predicate, entity: string, fields: Record): Span
  {
    if !p.operator.Within? || p.interval.None? then Unbounded
    else
      var start, end := p.interval.value.start, p.interval.value.end;
      if EntityOf(p.field) == entity && EntityOf(start) != entity && EntityOf(end) != entity then
        var lower, upper := DateOf(fields, start), DateOf(fields, end);
        if lower.NoDate? || upper.NoDate? then Unbounded else Span(Edge(lower), Edge(upper))
      else if EntityOf(p.field) != entity && EntityOf(start) == entity && EntityOf(end) == entity then
        var day := DateOf(fields, p.field);
        if day.On? then Span(Some(day.day), Some(day.day)) else Unbounded
      else Unbounded
  }

  /** The spans of the predicates over this collection, in order. */
  function SpansOf(predicates: seq<Predicate>, entity: string, fields: Record): seq<Span>
  {
    if predicates == [] then []
    else
      var n := |predicates| - 1;
      SpansOf(predicates[..n], entity, fields)
      + if Reads(predicates[n], entity) then [SpanOf(predicates[n], entity, fields)] else []
  }

  predicate AllBounded(spans: seq<Span>)
  {
    forall i :: 0 <= i < |spans| ==> spans[i].Span? && spans[i].end.Some?
  }

  /** Whether a collection fetched for this window is complete for these spans: every one is
      bounded, the bounds lie in the window from the day it was asked on, and something was left
      to ask about. */
  ghost predicate Complete(spans: seq<Span>, w: Window)
  {
    && AllBounded(spans)
    && (forall i :: 0 <= i < |spans| ==> Le(spans[i].end.value, w.end))
    && (Le(w.start, w.askedOn)
        || forall i :: 0 <= i < |spans| ==> spans[i].start.Some? && Le(w.start, spans[i].start.value))
    && (exists i :: 0 <= i < |spans| && Le(w.askedOn, spans[i].end.value))
    && ((exists i :: 0 <= i < |spans| && spans[i].start.None?)
        || exists i, j :: 0 <= i < |spans| && 0 <= j < |spans| && Le(spans[i].start.value, spans[j].end.value))
  }

  /** Whether the collection was fetched for every date this question asks about. */
  ghost predicate Covered(predicates: seq<Predicate>, entity: string, b: Bundle)
  {
    entity in b.windows && Complete(SpansOf(predicates, entity, b.fields), b.windows[entity])
  }

  // ------------------------------------------------------------------ the judgement
  /** What `judge_collection` answers, in Kleene order. */
  ghost function Judged(predicates: seq<Predicate>, b: Bundle, s: Settings): Outcome
  {
    if Answered(predicates, b, s, Raises) then RAISED
    else if Answered(predicates, b, s, Yes) then FAIL
    else if Answered(predicates, b, s, CannotTell) then UNKNOWN
    else if forall entity :: entity in CollectionsRead(predicates, b) ==> Covered(predicates, entity, b) then PASS
    else UNKNOWN
  }

  // ------------------------------------------------------------------ what the judgement means
  lemma ReadByIs(p: Predicate, b: Bundle)
    ensures ReadBy(p, b) == {} <==> ReadsNone(p, b)
    ensures forall entity :: ReadBy(p, b) == {entity} <==> ReadsJust(p, b, entity)
    ensures |ReadBy(p, b)| == 1 <==> exists entity :: ReadsJust(p, b, entity)
  {
    hide Reads;
    var read := ReadBy(p, b);
    assert forall entity :: entity in read <==> entity in b.related && Reads(p, entity);
    if |read| == 1 {
      assert ReadsJust(p, b, Only(read));
    }
    forall entity | ReadsJust(p, b, entity)
      ensures read == {entity}
    {
      assert entity in read;
    }
    assert read == {} <==> ReadsNone(p, b) by {
      if entity :| entity in b.related && Reads(p, entity) {
        assert entity in read;
      }
      if entity :| entity in read {
        assert !ReadsNone(p, b);
      }
    }
  }

  lemma YieldsMeans(p: Predicate, b: Bundle, s: Settings)
    ensures (exists r :: Yields(p, b, s, Raises, r)) <==> RaisesIn(p, b, s)
    ensures (exists r :: Yields(p, b, s, Yes, r)) <==> HoldsIn(p, b, s)
    ensures (exists r :: Yields(p, b, s, CannotTell, r)) <==> UnsureIn(p, b, s)
  {
    hide Evaluate, View, Reads;
    ReadByIs(p, b);
    if ReadsNone(p, b) {
      YieldsAlone(p, b, s, Raises);
      YieldsAlone(p, b, s, Yes);
      YieldsAlone(p, b, s, CannotTell);
    } else if entity :| Looks(p, b, entity) {
      YieldsOver(p, b, s, entity);
    } else {
      YieldsNothing(p, b, s);
      assert Yields(p, b, s, CannotTell, None);
    }
  }

  lemma YieldsAlone(p: Predicate, b: Bundle, s: Settings, h: Holds)
    requires ReadsNone(p, b)
    ensures (exists r :: Yields(p, b, s, h, r)) <==> Evaluate(p, b, s) == h
    ensures forall entity :: !Looks(p, b, entity)
  {
    hide Evaluate, View, Reads;
    ReadByIs(p, b);
    if Evaluate(p, b, s) == h {
      assert Yields(p, b, s, h, None);
    }
  }

  lemma YieldsNothing(p: Predicate, b: Bundle, s: Settings)
    requires !ReadsNone(p, b) && forall entity :: !Looks(p, b, entity)
    ensures forall h, r :: Yields(p, b, s, h, r) <==> r.None? && h == CannotTell
  {
    hide Evaluate, View, Reads;
    ReadByIs(p, b);
    var read := ReadBy(p, b);
    if |read| == 1 {
      assert ReadsJust(p, b, Only(read));
      assert !Looks(p, b, Only(read));
    }
  }

  lemma YieldsOver(p: Predicate, b: Bundle, s: Settings, entity: string)
    requires Looks(p, b, entity)
    ensures forall r :: Yields(p, b, s, Yes, Some(r)) <==> OnRelated(p, b, s, entity, r, Yes)
    ensures forall r :: Yields(p, b, s, Raises, Some(r)) <==>
              OnRelated(p, b, s, entity, r, Raises) || OnUnplaced(p, b, s, entity, r, Raises)
    ensures forall r :: Yields(p, b, s, CannotTell, Some(r)) <==>
              OnRelated(p, b, s, entity, r, CannotTell) || OnUnplaced(p, b, s, entity, r, CannotTell)
              || OnUnplaced(p, b, s, entity, r, Yes)
    ensures forall h :: !Yields(p, b, s, h, None)
    ensures forall other :: Looks(p, b, other) ==> other == entity
  {
    hide Evaluate, View, Reads;
    ReadByIs(p, b);
    assert ReadBy(p, b) == {entity} && Only({entity}) == entity;
  }

  // ------------------------------------------------------------------ the judgement's coverage
  lemma {:induction false} SpansAre(predicates: seq<Predicate>, entity: string, fields: Record)
    ensures forall k | Asks(predicates, entity, k) ::
              SpanOf(predicates[k], entity, fields) in SpansOf(predicates, entity, fields)
    ensures forall span | span in SpansOf(predicates, entity, fields) ::
              exists k :: Asks(predicates, entity, k) && SpanOf(predicates[k], entity, fields) == span
  {
    hide SpanOf, Reads;
    if predicates != [] {
      var n := |predicates| - 1;
      SpansAre(predicates[..n], entity, fields);
      forall k | Asks(predicates, entity, k)
        ensures SpanOf(predicates[k], entity, fields) in SpansOf(predicates, entity, fields)
      {
        if k < n {
          assert Asks(predicates[..n], entity, k);
        }
      }
      forall span | span in SpansOf(predicates, entity, fields)
        ensures exists k :: Asks(predicates, entity, k) && SpanOf(predicates[k], entity, fields) == span
      {
        if span in SpansOf(predicates[..n], entity, fields) {
          var k :| Asks(predicates[..n], entity, k) && SpanOf(predicates[..n][k], entity, fields) == span;
          assert Asks(predicates, entity, k);
        } else {
          assert Asks(predicates, entity, n);
        }
      }
    }
  }

  /** A span is the first and the last day its predicate asks about. */
  lemma SpanMeans(p: Predicate, entity: string, fields: Record)
    ensures var span := SpanOf(p, entity, fields);
            && (span.Span? && span.end.Some? <==> LastDay(p, entity, fields).Some?)
            && (span.Span? && span.end.Some? ==>
                  span.end == LastDay(p, entity, fields) && span.start == FirstDay(p, entity, fields))
  {
    hide EntityOf, Day, DayOf, Str;
    forall t: string ensures Day(t) == DayOf(t) {
      SameDay(t);
    }
  }

  lemma SameDay(t: string)
    ensures Day(t) == DayOf(t)
  {
  }

  /** Span `i` is what predicate `k` asks about. */
  ghost predicate AskedBy(predicates: seq<Predicate>, entity: string, fields: Record, spans: seq<Span>, i: int, k: int)
  {
    && 0 <= i < |spans| && Asks(predicates, entity, k)
    && (spans[i].Span? && spans[i].end.Some? <==> LastDay(predicates[k], entity, fields).Some?)
    && (spans[i].Span? && spans[i].end.Some? ==>
          && spans[i].end == LastDay(predicates[k], entity, fields)
          && spans[i].start == FirstDay(predicates[k], entity, fields))
  }

  ghost predicate HasAsker(predicates: seq<Predicate>, entity: string, fields: Record, spans: seq<Span>, i: int)
  {
    exists k :: AskedBy(predicates, entity, fields, spans, i, k)
  }

  ghost predicate HasSpan(predicates: seq<Predicate>, entity: string, fields: Record, spans: seq<Span>, k: int)
  {
    exists i :: AskedBy(predicates, entity, fields, spans, i, k)
  }

  lemma AskedAlike(predicates: seq<Predicate>, entity: string, fields: Record)
    ensures var spans := SpansOf(predicates, entity, fields);
            && (forall i :: 0 <= i < |spans| ==> HasAsker(predicates, entity, fields, spans, i))
            && (forall k :: Asks(predicates, entity, k) ==> HasSpan(predicates, entity, fields, spans, k))
  {
    hide SpanOf, SpansOf, FirstDay, LastDay, Reads;
    var spans := SpansOf(predicates, entity, fields);
    SpansAre(predicates, entity, fields);
    forall i | 0 <= i < |spans|
      ensures HasAsker(predicates, entity, fields, spans, i)
    {
      assert spans[i] in spans;
      var k :| Asks(predicates, entity, k) && SpanOf(predicates[k], entity, fields) == spans[i];
      SpanMeans(predicates[k], entity, fields);
      assert AskedBy(predicates, entity, fields, spans, i, k);
    }
    forall k | Asks(predicates, entity, k)
      ensures HasSpan(predicates, entity, fields, spans, k)
    {
      var i :| 0 <= i < |spans| && spans[i] == SpanOf(predicates[k], entity, fields);
      SpanMeans(predicates[k], entity, fields);
      assert AskedBy(predicates, entity, fields, spans, i, k);
    }
  }

  /** The window of a collection covers its spans exactly when it holds every day asked about. */
  lemma CoveredMeans(predicates: seq<Predicate>, entity: string, fields: Record, w: Window)
    ensures Complete(SpansOf(predicates, entity, fields), w) <==> FetchedFor(predicates, entity, fields, w)
  {
    hide SpanOf, SpansOf, FirstDay, LastDay, Reads, Le;
    AskedAlike(predicates, entity, fields);
    var spans := SpansOf(predicates, entity, fields);
    if FetchedFor(predicates, entity, fields, w) {
      FetchedCovers(predicates, entity, fields, w, spans);
    }
    if Complete(spans, w) {
      CoveredIsFetched(predicates, entity, fields, w, spans);
    }
  }

  lemma FetchedCovers(predicates: seq<Predicate>, entity: string, fields: Record, w: Window, spans: seq<Span>)
    requires forall i :: 0 <= i < |spans| ==> HasAsker(predicates, entity, fields, spans, i)
    requires forall k :: Asks(predicates, entity, k) ==> HasSpan(predicates, entity, fields, spans, k)
    requires FetchedFor(predicates, entity, fields, w)
    ensures Complete(spans, w)
  {
    hide FirstDay, LastDay, Reads, Le;
    forall i | 0 <= i < |spans|
      ensures spans[i].Span? && spans[i].end.Some? && Le(spans[i].end.value, w.end)
      ensures Le(w.start, w.askedOn) || (spans[i].start.Some? && Le(w.start, spans[i].start.value))
    {
      assert HasAsker(predicates, entity, fields, spans, i);
      var k :| AskedBy(predicates, entity, fields, spans, i, k);
    }
    var k :| Asks(predicates, entity, k) && Le(w.askedOn, LastDay(predicates[k], entity, fields).value);
    assert HasSpan(predicates, entity, fields, spans, k);
    var i :| AskedBy(predicates, entity, fields, spans, i, k);
    if k :| Asks(predicates, entity, k) && FirstDay(predicates[k], entity, fields).None? {
      assert HasSpan(predicates, entity, fields, spans, k);
      var i :| AskedBy(predicates, entity, fields, spans, i, k);
      assert spans[i].start.None?;
    } else {
      var k, l :| Asks(predicates, entity, k) && Asks(predicates, entity, l)
                  && Le(FirstDay(predicates[k], entity, fields).value, LastDay(predicates[l], entity, fields).value);
      assert HasSpan(predicates, entity, fields, spans, k);
      var i :| AskedBy(predicates, entity, fields, spans, i, k);
      assert HasSpan(predicates, entity, fields, spans, l);
      var j :| AskedBy(predicates, entity, fields, spans, j, l);
      assert Le(spans[i].start.value, spans[j].end.value);
    }
  }

  lemma CoveredIsFetched(predicates: seq<Predicate>, entity: string, fields: Record, w: Window, spans: seq<Span>)
    requires forall i :: 0 <= i < |spans| ==> HasAsker(predicates, entity, fields, spans, i)
    requires forall k :: Asks(predicates, entity, k) ==> HasSpan(predicates, entity, fields, spans, k)
    requires Complete(spans, w)
    ensures FetchedFor(predicates, entity, fields, w)
  {
    hide FirstDay, LastDay, Reads, Le;
    forall k | Asks(predicates, entity, k)
      ensures LastDay(predicates[k], entity, fields).Some? && Le(LastDay(predicates[k], entity, fields).value, w.end)
      ensures Le(w.start, w.askedOn)
              || (FirstDay(predicates[k], entity, fields).Some?
                 && Le(w.start, FirstDay(predicates[k], entity, fields).value))
    {
      assert HasSpan(predicates, entity, fields, spans, k);
      var i :| AskedBy(predicates, entity, fields, spans, i, k);
    }
    var i :| 0 <= i < |spans| && Le(w.askedOn, spans[i].end.value);
    assert HasAsker(predicates, entity, fields, spans, i);
    var k :| AskedBy(predicates, entity, fields, spans, i, k);
    if i :| 0 <= i < |spans| && spans[i].start.None? {
      assert HasAsker(predicates, entity, fields, spans, i);
      var k :| AskedBy(predicates, entity, fields, spans, i, k);
      assert FirstDay(predicates[k], entity, fields).None?;
    } else {
      var i, j :| 0 <= i < |spans| && 0 <= j < |spans| && Le(spans[i].start.value, spans[j].end.value);
      assert HasAsker(predicates, entity, fields, spans, i);
      var k :| AskedBy(predicates, entity, fields, spans, i, k);
      assert HasAsker(predicates, entity, fields, spans, j);
      var l :| AskedBy(predicates, entity, fields, spans, j, l);
      assert Le(FirstDay(predicates[k], entity, fields).value, LastDay(predicates[l], entity, fields).value);
    }
  }

  /** What each outcome of a judgement means. */
  lemma JudgedMeans(predicates: seq<Predicate>, b: Bundle, s: Settings)
    ensures NoneSays(predicates, b, s, Judged(predicates, b, s))
  {
    hide Evaluate, Yields, RaisesIn, HoldsIn, UnsureIn, Complete, FetchedFor, SpansOf, Reads;
    forall k | 0 <= k < |predicates|
      ensures (exists r :: Yields(predicates[k], b, s, Raises, r)) <==> RaisesIn(predicates[k], b, s)
      ensures (exists r :: Yields(predicates[k], b, s, Yes, r)) <==> HoldsIn(predicates[k], b, s)
      ensures (exists r :: Yields(predicates[k], b, s, CannotTell, r)) <==> UnsureIn(predicates[k], b, s)
    {
      YieldsMeans(predicates[k], b, s);
    }
    AnsweredIs(predicates, b, s);
    FetchedIs(predicates, b);
  }

  lemma AnsweredIs(predicates: seq<Predicate>, b: Bundle, s: Settings)
    ensures forall h :: Answered(predicates, b, s, h) <==>
              exists k :: 0 <= k < |predicates| && exists r :: Yields(predicates[k], b, s, h, r)
  {
    hide Yields;
  }

  lemma FetchedIs(predicates: seq<Predicate>, b: Bundle)
    ensures AllFetched(predicates, b) <==>
              forall entity :: entity in CollectionsRead(predicates, b) ==> Covered(predicates, entity, b)
  {
    hide Complete, FetchedFor, SpansOf, Reads;
    forall entity
      ensures entity in CollectionsRead(predicates, b) <==>
                entity in b.related && exists k :: Asks(predicates, entity, k)
      ensures entity in b.windows ==>
                (Covered(predicates, entity, b) <==> FetchedFor(predicates, entity, b.fields, b.windows[entity]))
    {
      if entity in b.windows {
        CoveredMeans(predicates, entity, b.fields, b.windows[entity]);
      }
      if k :| 0 <= k < |predicates| && Reads(predicates[k], entity) {
        assert Asks(predicates, entity, k);
      }
    }
  }

  // ------------------------------------------------------------------ the loops
  /** One result per related record, and per unplaced one that could matter. */
  method EachRecord(p: Predicate, entity: string, b: Bundle, s: Settings) returns (found: seq<Found>)
    requires ReadBy(p, b) == {entity}
    ensures forall h, r :: Found(h, r) in found <==> Yields(p, b, s, h, r)
  {
    assert Only(ReadBy(p, b)) == entity;
    if !JoinKnown(b, entity) {
      return [Found(CannotTell, None)];
    }
    found := [];
    var records := Related(b, entity);
    for i := 0 to |records|
      invariant forall h, r :: Found(h, r) in found <==>
                  r.Some? && r.value in records[..i] && h == Evaluate(p, View(b, entity, r.value), s)
    {
      var h := Evaluate(p, View(b, entity, records[i]), s);
      assert records[..i + 1] == records[..i] + [records[i]];
      found := found + [Found(h, Some(records[i]))];
    }
    assert records[..|records|] == records;
    ghost var placed := found;
    var others := Unplaced(b, entity);
    for j := 0 to |others|
      invariant forall h, r :: Found(h, r) in found <==>
                  (Found(h, r) in placed
                   || (r.Some? && r.value in others[..j] && !Evaluate(p, View(b, entity, r.value), s).No?
                       && h == Doubtful(Evaluate(p, View(b, entity, r.value), s))))
    {
      var h := Evaluate(p, View(b, entity, others[j]), s);
      assert others[..j + 1] == others[..j] + [others[j]];
      if !h.No? {
        found := found + [Found(Doubtful(h), Some(others[j]))];
      }
    }
    assert others[..|others|] == others;
  }

  method AllResults(predicates: seq<Predicate>, b: Bundle, s: Settings) returns (found: seq<Found>)
    ensures forall h, r :: Found(h, r) in found <==>
              exists k :: 0 <= k < |predicates| && Yields(predicates[k], b, s, h, r)
    ensures forall h :: Answered(predicates, b, s, h) <==> exists r :: Found(h, r) in found
  {
    found := [];
    for k := 0 to |predicates|
      invariant forall h, r :: Found(h, r) in found <==> exists j :: 0 <= j < k && Yields(predicates[j], b, s, h, r)
    {
      var read := ReadBy(predicates[k], b);
      var more;
      if read == {} {
        more := [Found(Evaluate(predicates[k], b, s), None)];
      } else if |read| > 1 {
        more := [Found(CannotTell, None)];
      } else {
        more := EachRecord(predicates[k], Only(read), b, s);
      }
      assert forall h, r :: Found(h, r) in more <==> Yields(predicates[k], b, s, h, r);
      found := found + more;
    }
    forall h
      ensures Answered(predicates, b, s, h) <==> exists r :: Found(h, r) in found
    {
      if Answered(predicates, b, s, h) {
        var r, k :| 0 <= k < |predicates| && Yields(predicates[k], b, s, h, r);
        assert Found(h, r) in found;
      }
    }
  }

  /** The first result with this answer. */
  method FirstFound(found: seq<Found>, h: Holds) returns (i: nat)
    ensures i <= |found|
    ensures i < |found| ==> found[i].holds == h
    ensures forall j :: 0 <= j < i ==> found[j].holds != h
    ensures i == |found| ==> forall r :: Found(h, r) !in found
  {
    i := 0;
    while i < |found| && found[i].holds != h
      invariant i <= |found|
      invariant forall j :: 0 <= j < i ==> found[j].holds != h
    {
      i := i + 1;
    }
  }

  // ------------------------------------------------------------------ completeness, computed
  function Least(xs: seq<Option<string>>): (least: string)
    requires xs != [] && None !in xs
    ensures Some(least) in xs
    ensures forall x :: x in xs ==> Le(least, x.value)
  {
    LeReflexive(xs[0].value);
    if |xs| == 1 then xs[0].value
    else
      var rest := Least(xs[1..]);
      LeTotal(xs[0].value, rest);
      assert xs == [xs[0]] + xs[1..];
      if Le(xs[0].value, rest) then
        assert forall x :: x in xs[1..] ==> Le(xs[0].value, x.value) by {
          forall x | x in xs[1..] ensures Le(xs[0].value, x.value) { LeTransitive(xs[0].value, rest, x.value); }
        }
        xs[0].value
      else rest
  }

  function Greatest(xs: seq<Option<string>>): (greatest: string)
    requires xs != [] && None !in xs
    ensures Some(greatest) in xs
    ensures forall x :: x in xs ==> Le(x.value, greatest)
  {
    LeReflexive(xs[0].value);
    if |xs| == 1 then xs[0].value
    else
      var rest := Greatest(xs[1..]);
      LeTotal(xs[0].value, rest);
      assert xs == [xs[0]] + xs[1..];
      if Le(rest, xs[0].value) then
        assert forall x :: x in xs[1..] ==> Le(x.value, xs[0].value) by {
          forall x | x in xs[1..] ensures Le(x.value, xs[0].value) { LeTransitive(x.value, rest, xs[0].value); }
        }
        xs[0].value
      else rest
  }

  function Starts(spans: seq<Span>): (starts: seq<Option<string>>)
    requires forall i :: 0 <= i < |spans| ==> spans[i].Span?
    ensures |starts| == |spans| && forall i :: 0 <= i < |spans| ==> starts[i] == spans[i].start
  {
    seq(|spans|, i requires 0 <= i < |spans| => spans[i].start)
  }

  function Ends(spans: seq<Span>): (ends: seq<Option<string>>)
    requires forall i :: 0 <= i < |spans| ==> spans[i].Span?
    ensures |ends| == |spans| && forall i :: 0 <= i < |spans| ==> ends[i] == spans[i].end
  {
    seq(|spans|, i requires 0 <= i < |spans| => spans[i].end)
  }

  function Low(starts: seq<Option<string>>, w: Window): (low: string)
    requires starts != []
    ensures Le(w.askedOn, low)
    ensures None !in starts ==> Le(Least(starts), low)
    ensures low == w.askedOn || (None !in starts && low == Least(starts))
  {
    LeReflexive(w.askedOn);
    if None in starts then w.askedOn
    else
      LeTotal(Least(starts), w.askedOn);
      LeReflexive(Least(starts));
      Max(Least(starts), w.askedOn)
  }

  /** The comparison `_coverage` makes on the earliest start and the latest end. */
  predicate EdgesCovered(spans: seq<Span>, w: Window)
    requires spans != [] && AllBounded(spans)
  {
    assert forall x :: x in Ends(spans) ==> x.Some?;
    var low, end := Low(Starts(spans), w), Greatest(Ends(spans));
    Le(low, end) && Le(w.start, low) && Le(end, w.end)
  }

  lemma EdgesAreEnough(spans: seq<Span>, w: Window)
    requires spans != [] && AllBounded(spans)
    requires EdgesCovered(spans, w)
    ensures Complete(spans, w)
  {
    var starts, ends := Starts(spans), Ends(spans);
    var low, end := Low(starts, w), Greatest(ends);
    forall i | 0 <= i < |spans|
      ensures Le(spans[i].end.value, w.end)
    {
      assert ends[i] in ends;
      LeTransitive(spans[i].end.value, end, w.end);
    }
    var j :| 0 <= j < |ends| && ends[j] == Some(end);
    LeTransitive(w.askedOn, low, end);
    assert Le(w.askedOn, spans[j].end.value);
    if None in starts {
      var i :| 0 <= i < |starts| && starts[i] == None;
      assert spans[i].start.None?;
    } else {
      var least := Least(starts);
      var i :| 0 <= i < |starts| && starts[i] == Some(least);
      LeTransitive(least, low, end);
      assert Le(spans[i].start.value, spans[j].end.value);
      if low == least {
        forall k | 0 <= k < |spans|
          ensures spans[k].start.Some? && Le(w.start, spans[k].start.value)
        {
          assert starts[k] in starts;
          LeTransitive(w.start, least, spans[k].start.value);
        }
      }
    }
  }

  lemma EdgesAreNeeded(spans: seq<Span>, w: Window)
    requires spans != [] && AllBounded(spans)
    requires Complete(spans, w)
    ensures EdgesCovered(spans, w)
  {
    var starts, ends := Starts(spans), Ends(spans);
    var low, end := Low(starts, w), Greatest(ends);
    var e :| 0 <= e < |ends| && ends[e] == Some(end);
    assert Le(spans[e].end.value, w.end);
    var k :| 0 <= k < |spans| && Le(w.askedOn, spans[k].end.value);
    assert ends[k] in ends;
    LeTransitive(w.askedOn, spans[k].end.value, end);
    if None !in starts {
      var least := Least(starts);
      var l :| 0 <= l < |starts| && starts[l] == Some(least);
      if Le(w.start, w.askedOn) {
        LeTransitive(w.start, w.askedOn, low);
      } else {
        assert Le(w.start, spans[l].start.value);
        LeTransitive(w.start, least, low);
      }
      forall i | 0 <= i < |spans| ensures spans[i].start.Some? { assert starts[i] in starts; }
      var i, j :| 0 <= i < |spans| && 0 <= j < |spans| && Le(spans[i].start.value, spans[j].end.value);
      assert starts[i] in starts && ends[j] in ends;
      LeTransitive(spans[i].start.value, spans[j].end.value, end);
      LeTransitive(least, spans[i].start.value, end);
    } else {
      var i :| 0 <= i < |starts| && starts[i] == None;
      assert spans[i].start.None?;
    }
  }

  /** `_coverage`: the span of every predicate over the collection, and the window against it. */
  method Coverage(predicates: seq<Predicate>, entity: string, b: Bundle) returns (covered: bool)
    requires CollectionRead(predicates, b, entity)
    ensures covered <==> Covered(predicates, entity, b)
  {
    hide SpanOf, Reads, EdgesCovered, Le;
    if entity !in b.windows {
      return false;
    }
    var w := b.windows[entity];
    var spans: seq<Span> := [];
    for k := 0 to |predicates|
      invariant spans == SpansOf(predicates[..k], entity, b.fields)
      invariant forall i :: 0 <= i < |spans| ==> spans[i].Span?
      invariant (exists j :: 0 <= j < k && Reads(predicates[j], entity)) ==> spans != []
    {
      assert predicates[..k + 1][..k] == predicates[..k];
      if Reads(predicates[k], entity) {
        var span := SpanOf(predicates[k], entity, b.fields);
        if span.Unbounded? {
          SpansGrow(predicates, k + 1, entity, b.fields);
          assert SpansOf(predicates[..k + 1], entity, b.fields)[|spans|] == Unbounded;
          return false;
        }
        spans := spans + [span];
      }
    }
    assert predicates[..|predicates|] == predicates;
    if None in Ends(spans) {
      var i :| 0 <= i < |spans| && Ends(spans)[i] == None;
      assert !AllBounded(spans);
      return false;
    }
    forall i | 0 <= i < |spans| ensures spans[i].end.Some? { assert Ends(spans)[i] in Ends(spans); }
    covered := EdgesCovered(spans, w);
    if covered {
      EdgesAreEnough(spans, w);
    } else if Complete(spans, w) {
      EdgesAreNeeded(spans, w);
    }
  }

  lemma {:induction false} SpansGrow(predicates: seq<Predicate>, k: nat, entity: string, fields: Record)
    requires k <= |predicates|
    ensures SpansOf(predicates[..k], entity, fields) <= SpansOf(predicates, entity, fields)
    decreases |predicates|
  {
    if k < |predicates| {
      var n := |predicates| - 1;
      SpansGrow(predicates[..n], k, entity, fields);
      assert predicates[..n][..k] == predicates[..k];
    } else {
      assert predicates[..k] == predicates;
    }
  }

  /** Mode `none` over every record of each collection the assertion reads. */
  method JudgeCollection(predicates: seq<Predicate>, b: Bundle, s: Settings) returns (judgement: Judgement)
    ensures judgement.outcome == Judged(predicates, b, s) && NoneSays(predicates, b, s, judgement.outcome)
    ensures judgement.outcome.FAIL? ==>
              exists k :: 0 <= k < |predicates| && Yields(predicates[k], b, s, Yes, judgement.record)
    ensures judgement.outcome.UNKNOWN? && judgement.record.Some? ==>
              exists k :: 0 <= k < |predicates| && Yields(predicates[k], b, s, CannotTell, judgement.record)
  {
    hide NoneSays, Yields, Covered;
    JudgedMeans(predicates, b, s);
    var found := AllResults(predicates, b, s);
    var i := FirstFound(found, Raises);
    if i < |found| {
      assert found[i] == Found(Raises, found[i].record);
      return Judgement(RAISED, None);
    }
    i := FirstFound(found, Yes);
    if i < |found| {
      assert found[i] == Found(Yes, found[i].record);
      return Judgement(FAIL, found[i].record);
    }
    i := FirstFound(found, CannotTell);
    if i < |found| {
      assert found[i] == Found(CannotTell, found[i].record);
      return Judgement(UNKNOWN, found[i].record);
    }
    var left := CollectionsRead(predicates, b);
    while left != {}
      invariant left <= CollectionsRead(predicates, b)
      invariant forall entity :: entity in CollectionsRead(predicates, b) - left ==> Covered(predicates, entity, b)
      decreases left
    {
      var entity :| entity in left;
      var covered := Coverage(predicates, entity, b);
      if !covered {
        return Judgement(UNKNOWN, None);
      }
      left := left - {entity};
    }
    return Judgement(PASS, None);
  }

  // ------------------------------------------------------------------ stable under refinement
  lemma SameCollections(p: Predicate, b: Bundle, b': Bundle)
    requires b.related.Keys == b'.related.Keys
    ensures ReadBy(p, b) == ReadBy(p, b')
  {
  }

  lemma SpanStable(p: Predicate, entity: string, fields: Record, fields': Record)
    requires FieldsRefine(fields, fields') && SpanOf(p, entity, fields).Span?
    ensures SpanOf(p, entity, fields') == SpanOf(p, entity, fields)
  {
  }

  lemma {:induction false} SpansStable(predicates: seq<Predicate>, entity: string, fields: Record, fields': Record)
    requires FieldsRefine(fields, fields')
    requires AllBounded(SpansOf(predicates, entity, fields))
    ensures SpansOf(predicates, entity, fields') == SpansOf(predicates, entity, fields)
  {
    if predicates != [] {
      var n := |predicates| - 1;
      var spans, before := SpansOf(predicates, entity, fields), SpansOf(predicates[..n], entity, fields);
      assert forall i :: 0 <= i < |before| ==> before[i] == spans[i];
      SpansStable(predicates[..n], entity, fields, fields');
      if Reads(predicates[n], entity) {
        assert spans[|spans| - 1] == SpanOf(predicates[n], entity, fields);
        SpanStable(predicates[n], entity, fields, fields');
      }
    }
  }

  /** A predicate over a complete collection places a date in a window. */
  lemma {:induction false} CompleteMeansWithin(predicates: seq<Predicate>, k: nat, entity: string, fields: Record)
    requires k < |predicates| && Reads(predicates[k], entity)
    requires AllBounded(SpansOf(predicates, entity, fields))
    ensures SpanOf(predicates[k], entity, fields) in SpansOf(predicates, entity, fields)
    ensures predicates[k].operator.Within?
  {
    var n := |predicates| - 1;
    var spans, before := SpansOf(predicates, entity, fields), SpansOf(predicates[..n], entity, fields);
    if k < n {
      assert forall i :: 0 <= i < |before| ==> before[i] == spans[i];
      CompleteMeansWithin(predicates[..n], k, entity, fields);
    } else {
      assert spans[|spans| - 1] == SpanOf(predicates[k], entity, fields);
    }
  }

  /** The join a predicate asks about stays what it was, where the collection has a record of this
      one. */
  lemma JoinKept(p: Predicate, b: Bundle, b': Bundle, entity: string)
    requires BundleRefines(b, b') && (ReadBy(p, b) == {} || (ReadBy(p, b) == {entity} && Related(b, entity) != []))
    ensures JoinRefines(b, b', EntityOf(p.field))
  {
    hide FieldsRefine;
    var asked := EntityOf(p.field);
    if asked in b.related {
      assert asked in ReadBy(p, b);
      assert CollectionRefines(b, b', entity);
    }
  }

  /** A satisfied predicate stays satisfied, by the same record read further. */
  lemma YesStays(p: Predicate, b: Bundle, b': Bundle, s: Settings, s': Settings, r: Option<Record>)
    returns (r': Option<Record>)
    requires BundleRefines(b, b') && SettingsRefine(s, s')
    requires Yields(p, b, s, Yes, r)
    ensures Yields(p, b', s', Yes, r')
  {
    hide Evaluate, SettingsRefine, FieldsRefine;
    SameCollections(p, b, b');
    var read := ReadBy(p, b);
    if read == {} {
      JoinKept(p, b, b', "");
      EvaluateStable(p, b, b', s, s');
      r' := None;
    } else {
      var entity := Only(read);
      assert CollectionRefines(b, b', entity);
      var i :| 0 <= i < |Related(b, entity)| && Related(b, entity)[i] == r.value;
      assert RefinedIn(Related(b, entity)[i], Related(b', entity));
      var j :| 0 <= j < |Related(b', entity)| && RecordRefines(r.value, Related(b', entity)[j]);
      r' := Some(Related(b', entity)[j]);
      ViewFieldsRefine(b, b', entity, r.value, r'.value);
      JoinKept(p, b, b', entity);
      EvaluateStable(p, View(b, entity, r.value), View(b', entity, r'.value), s, s');
    }
  }

  /** Every record of the refined collection was a record of it, or an unplaced one, before. */
  lemma Ancestor(b: Bundle, b': Bundle, entity: string, r': Record) returns (r: Record)
    requires CollectionRefines(b, b', entity) && JoinKnown(b, entity)
    requires r' in Related(b', entity) || r' in Unplaced(b', entity)
    ensures r in Related(b, entity) || r in Unplaced(b, entity)
    ensures RecordRefines(r, r')
  {
    var before := Related(b, entity) + Unplaced(b, entity);
    if r' in Related(b', entity) {
      var j :| 0 <= j < |Related(b', entity)| && Related(b', entity)[j] == r';
      assert RefinesOneOf(Related(b', entity)[j], before);
      var i :| 0 <= i < |before| && RecordRefines(before[i], r');
      r := before[i];
    } else {
      var j :| 0 <= j < |Unplaced(b', entity)| && Unplaced(b', entity)[j] == r';
      assert RefinesOneOf(Unplaced(b', entity)[j], Unplaced(b, entity));
      var i :| 0 <= i < |Unplaced(b, entity)| && RecordRefines(Unplaced(b, entity)[i], r');
      r := Unplaced(b, entity)[i];
    }
  }

  /** No answer of this predicate is anything but No. */
  ghost predicate AllNo(p: Predicate, b: Bundle, s: Settings)
  {
    forall h, r :: Yields(p, b, s, h, r) ==> h.No?
  }

  lemma EachIsNo(p: Predicate, b: Bundle, s: Settings, entity: string, r: Record)
    requires AllNo(p, b, s)
    requires ReadBy(p, b) == {entity}
    requires r in Related(b, entity) || r in Unplaced(b, entity)
    ensures JoinKnown(b, entity) && Evaluate(p, View(b, entity, r), s).No?
  {
    assert Only(ReadBy(p, b)) == entity;
    var was := Evaluate(p, View(b, entity, r), s);
    assert !JoinKnown(b, entity) ==> Yields(p, b, s, CannotTell, None);
    assert JoinKnown(b, entity) && r in Related(b, entity) ==> Yields(p, b, s, was, Some(r));
    assert JoinKnown(b, entity) && r in Unplaced(b, entity) && !was.No? ==> Yields(p, b, s, Doubtful(was), Some(r));
  }

  /** Where every answer was No and the collection was complete, every answer stays No - also for a
      record whose key has since been read. */
  lemma NoStays(p: Predicate, b: Bundle, b': Bundle, s: Settings, s': Settings)
    requires BundleRefines(b, b') && SettingsRefine(s, s')
    requires AllNo(p, b, s)
    requires forall entity :: entity in b.related && Reads(p, entity) ==> p.operator.Within?
    ensures AllNo(p, b', s')
  {
    SameCollections(p, b, b');
    var read := ReadBy(p, b);
    if read == {} {
      assert Yields(p, b, s, Evaluate(p, b, s), None);
      EvaluateStable(p, b, b', s, s');
    } else if |read| != 1 {
      assert Yields(p, b, s, CannotTell, None);
    } else {
      var entity := Only(read);
      if !JoinKnown(b, entity) {
        assert Yields(p, b, s, CannotTell, None);
      } else {
        assert CollectionRefines(b, b', entity);
        forall r' | r' in Related(b', entity) || r' in Unplaced(b', entity)
          ensures Evaluate(p, View(b', entity, r'), s').No?
        {
          var r := Ancestor(b, b', entity, r');
          EachIsNo(p, b, s, entity, r);
          ViewFieldsRefine(b, b', entity, r, r');
          EvaluateStable(p, View(b, entity, r), View(b', entity, r'), s, s');
        }
      }
    }
  }

  /** A conclusive judgement survives every refinement of the evidence: a PASS exactly, a FAIL
      unless a later value makes some other predicate raise. */
  lemma JudgedStable(predicates: seq<Predicate>, b: Bundle, b': Bundle, s: Settings, s': Settings)
    requires BundleRefines(b, b') && SettingsRefine(s, s')
    ensures Judged(predicates, b, s).PASS? ==> Judged(predicates, b', s').PASS?
    ensures Judged(predicates, b, s).FAIL? ==> Judged(predicates, b', s') in {FAIL, RAISED}
  {
    if Judged(predicates, b, s).FAIL? {
      var r, k :| 0 <= k < |predicates| && Yields(predicates[k], b, s, Yes, r);
      var r' := YesStays(predicates[k], b, b', s, s', r);
      assert Answered(predicates, b', s', Yes);
    } else if Judged(predicates, b, s).PASS? {
      forall k | 0 <= k < |predicates|
        ensures AllNo(predicates[k], b', s')
      {
        forall entity | entity in b.related && Reads(predicates[k], entity)
          ensures predicates[k].operator.Within?
        {
          assert CollectionRead(predicates, b, entity);
          assert entity in CollectionsRead(predicates, b);
          assert Covered(predicates, entity, b);
          CompleteMeansWithin(predicates, k, entity, b.fields);
        }
        forall h, r | Yields(predicates[k], b, s, h, r)
          ensures h.No?
        {
          assert Answered(predicates, b, s, h);
        }
        NoStays(predicates[k], b, b', s, s');
      }
      forall entity | entity in CollectionsRead(predicates, b')
        ensures Covered(predicates, entity, b')
      {
        assert CollectionRead(predicates, b, entity);
        assert entity in CollectionsRead(predicates, b);
        assert Covered(predicates, entity, b);
        SpansStable(predicates, entity, b.fields, b'.fields);
      }
    }
  }

  /** What a PASS says about one predicate over one collection. */
  lemma PassSays(predicates: seq<Predicate>, k: nat, b: Bundle, s: Settings, entity: string)
    requires Judged(predicates, b, s).PASS?
    requires k < |predicates| && entity in b.related && Reads(predicates[k], entity)
    ensures entity in b.windows && Complete(SpansOf(predicates, entity, b.fields), b.windows[entity])
    ensures SpanOf(predicates[k], entity, b.fields) in SpansOf(predicates, entity, b.fields)
    ensures predicates[k].operator.Within?
    ensures AllNo(predicates[k], b, s)
    ensures ReadBy(predicates[k], b) == {entity}
  {
    assert CollectionRead(predicates, b, entity);
    assert entity in CollectionsRead(predicates, b);
    assert Covered(predicates, entity, b);
    CompleteMeansWithin(predicates, k, entity, b.fields);
    forall h, r | Yields(predicates[k], b, s, h, r)
      ensures h.No?
    {
      assert Answered(predicates, b, s, h);
    }
    var read := ReadBy(predicates[k], b);
    assert entity in read;
    if |read| != 1 {
      assert Yields(predicates[k], b, s, CannotTell, None);
    } else {
      assert Only(read) == entity;
    }
  }

  // ------------------------------------------------------------------ unplaced records never accuse
  lemma YieldsWithoutUnplaced(p: Predicate, b: Bundle, s: Settings, h: Holds, r: Option<Record>)
    ensures Yields(p, b.(unplaced := map[]), s, h, r) ==> Yields(p, b, s, h, r)
    ensures Definite(h) && Yields(p, b, s, h, r) ==> Yields(p, b.(unplaced := map[]), s, h, r)
  {
    var c := b.(unplaced := map[]);
    SameCollections(p, b, c);
    EvaluateReads(p, b, c, s);
    var read := ReadBy(p, b);
    if r.Some? && |read| == 1 {
      EvaluateReads(p, View(b, Only(read), r.value), View(c, Only(read), r.value), s);
    }
  }

  /** A FAIL never rests on a record whose key could not be read: without them it is a FAIL too,
      and they cannot turn any other answer into one. */
  lemma FailIgnoresUnplaced(predicates: seq<Predicate>, b: Bundle, s: Settings)
    ensures Judged(predicates, b, s).FAIL? ==> Judged(predicates, b.(unplaced := map[]), s).FAIL?
    ensures Judged(predicates, b.(unplaced := map[]), s).FAIL? ==> Judged(predicates, b, s) in {FAIL, RAISED}
  {
    var c := b.(unplaced := map[]);
    forall k, h, r | 0 <= k < |predicates|
      ensures Yields(predicates[k], c, s, h, r) ==> Yields(predicates[k], b, s, h, r)
      ensures Definite(h) && Yields(predicates[k], b, s, h, r) ==> Yields(predicates[k], c, s, h, r)
    {
      YieldsWithoutUnplaced(predicates[k], b, s, h, r);
    }
    if Answered(predicates, c, s, Raises) {
      assert Answered(predicates, b, s, Raises);
    }
    if Answered(predicates, b, s, Yes) {
      assert Answered(predicates, c, s, Yes);
    }
    if Answered(predicates, c, s, Yes) {
      assert Answered(predicates, b, s, Yes);
    }
  }
}
