/** Collecting the evidence for one run: the population, the references it joins to, and each record's
    follow-ups, through one cache and one budget (hotelcontrols/evidence/gather.py,
    hotelcontrols/evidence/reference.py). */
module Gather {
  import opened Basics
  import opened Texts
  import opened Values
  import opened Rules
  import opened Bundles
  import opened References
  import opened World
  import opened Cache

  type Request = string

  /** A response: what it says itself, and the records it is cut into, by entity. */
  datatype Response = Response(body: Remote, cuts: map<string, seq<Remote>>)

  /** A provider, as far as gathering asks it. */
  datatype Adapter = Adapter(
    fetch: Request -> Result<Response, string>,
    populationRequest: Request,
    referenceRequests: map<string, Request>,
    followUp: (string, Payload) -> Option<Request>,
    sourceKey: string -> string,
    populationKey: string,
    identity: Remote -> Value)

  /** What a rule asks to be gathered; its relative dates already resolved. */
  datatype Plan = Plan(entity: string, references: seq<Reference>, evidence: seq<string>, windows: map<string, Window>)

  const UNAVAILABLE := Unknown("the reference is unavailable", None)
  const NO_KEY := Unknown("this record names no key", None)
  const NO_MATCH := Unknown("no record matches", None)
  const MANY := Unknown("a collection has no single value", None)
  const NOT_FETCHED := Unknown("not obtainable for this record", None)

  // ------------------------------------------------------------------ gathered directly
  /** What one reference comes to: nothing to be had, every value of one field, or records to join. */
  datatype Source =
    | Missing(kind: Kind)
    | Listed(items: seq<Payload>)
    | Joinable(kind: Kind, records: seq<Remote>, local: string, remote: string, window: Option<Window>)

  function ValueOr(name: Option<string>): string
  {
    if name.Some? then name.value else ""
  }

  function Declared<V>(m: map<string, V>, name: string): Option<V>
  {
    if name in m then Some(m[name]) else None
  }

  function RequestFor(a: Adapter, r: Reference): Option<Request>
  {
    if r.fromTenant then None else Declared(a.referenceRequests, r.entity)
  }

  /** The records of an entity in a response; None where the provider fails or cannot cut it. */
  function CutOf(answer: Answer<Response>, entity: string): Option<seq<Remote>>
  {
    if answer.Got? then Declared(answer.response.cuts, entity) else None
  }

  function KnownPayloads(records: seq<Remote>, field: string): seq<Payload>
  {
    if records == [] then []
    else
      var v := Resolve(field, records[|records| - 1]);
      KnownPayloads(records[..|records| - 1], field) + if v.Known? then [v.payload] else []
  }

  function SourceIn(r: Reference, cut: Option<seq<Remote>>, windows: map<string, Window>): Source
  {
    match cut
    case None => Missing(r.kind)
    case Some(records) =>
      if r.kind.ValueSet? then Listed(KnownPayloads(records, ValueOr(r.setField)))
      else Joinable(r.kind, records, ValueOr(r.localField), ValueOr(r.remoteField), Declared(windows, r.entity))
  }

  function SourceOf(a: Adapter, r: Reference, windows: map<string, Window>): Source
  {
    match RequestFor(a, r)
    case None => Missing(r.kind)
    case Some(q) => SourceIn(r, CutOf(Direct(a.fetch, q), r.entity), windows)
  }

  type Sources = map<string, Source>

  function SourcesOf(a: Adapter, rs: seq<Reference>, windows: map<string, Window>): Sources
  {
    if rs == [] then map[]
    else
      var r := rs[|rs| - 1];
      SourcesOf(a, rs[..|rs| - 1], windows)[r.entity := SourceOf(a, r, windows)]
  }

  function KindOf(s: Source): Kind
  {
    match s
    case Missing(kind) => kind
    case Listed(_) => ValueSet
    case Joinable(kind, _, _, _, _) => kind
  }

  /** The records a record joins to, by scanning. */
  function Matches(s: Source, record: Remote): seq<Remote>
  {
    if s.Joinable? && HasKey(Resolve(s.local, record))
      then Scan(s.records, s.remote, Str(Resolve(s.local, record).payload)) else []
  }

  function ThroughReference(name: string, record: Remote, s: Source): Value
  {
    match s
    case Missing(_) => UNAVAILABLE
    case Listed(items) => Known(Tuple(items), None)
    case Joinable(kind, _, local, _, _) =>
      if !HasKey(Resolve(local, record)) then NO_KEY
      else if Matches(s, record) == [] then NO_MATCH
      else if kind.Collection? then MANY
      else Resolve(name, Matches(s, record)[0])
  }

  function JoinValue(s: Source, record: Remote): Value
  {
    match s
    case Missing(kind) => if kind.ValueSet? then Known(Flag(false), None) else UNAVAILABLE
    case Listed(_) => Known(Flag(true), None)
    case Joinable(_, _, local, _, _) =>
      if !HasKey(Resolve(local, record)) then NO_KEY else Known(Flag(Matches(s, record) != []), None)
  }

  function FollowUpRequest(a: Adapter, record: Remote, name: string): Option<Request>
  {
    var id := a.identity(record);
    if id.Known? then a.followUp(name, id.payload) else None
  }

  function FollowUpValue(name: string, answer: Answer<Response>): Value
  {
    if answer.Got? then Resolve(name, answer.response.body) else NOT_FETCHED
  }

  /** The one call a field needs, if it needs one of its own. */
  function FieldAsks(a: Adapter, sources: Sources, record: Remote, name: string): Option<Request>
  {
    if EntityOf(name) in sources || a.sourceKey(name) == a.populationKey then None else FollowUpRequest(a, record, name)
  }

  function FieldValue(a: Adapter, sources: Sources, record: Remote, name: string): Value
  {
    if EntityOf(name) in sources then ThroughReference(name, record, sources[EntityOf(name)])
    else if a.sourceKey(name) == a.populationKey then Resolve(name, record)
    else match FollowUpRequest(a, record, name)
      case None => NOT_FETCHED
      case Some(q) => FollowUpValue(name, Direct(a.fetch, q))
  }

  function FieldsOf(a: Adapter, sources: Sources, record: Remote, names: seq<string>): Record
  {
    if names == [] then map[]
    else
      var name := names[|names| - 1];
      FieldsOf(a, sources, record, names[..|names| - 1])[name := FieldValue(a, sources, record, name)]
  }

  function Wanted(plan: Plan, entity: string): set<string>
  {
    set name | name in plan.evidence && EntityOf(name) == entity
  }

  function RelatedOf(plan: Plan, sources: Sources, record: Remote): map<string, seq<Record>>
  {
    map entity | entity in sources && KindOf(sources[entity]).Collection? ::
      ProjectAll(Matches(sources[entity], record), Wanted(plan, entity))
  }

  function JoinsOf(sources: Sources, record: Remote): map<string, Value>
  {
    map entity | entity in sources :: JoinValue(sources[entity], record)
  }

  function UnplacedIn(s: Source): seq<Remote>
  {
    if s.Joinable? && s.kind.Collection? then Unreadable(s.records, s.remote) else []
  }

  function UnplacedOf(plan: Plan, sources: Sources): map<string, seq<Record>>
  {
    map entity | entity in sources && UnplacedIn(sources[entity]) != [] ::
      ProjectAll(UnplacedIn(sources[entity]), Wanted(plan, entity))
  }

  function WindowIn(s: Source): Option<Window>
  {
    if s.Joinable? && s.kind.Collection? then s.window else None
  }

  function WindowsOf(sources: Sources): map<string, Window>
  {
    map entity | entity in sources && WindowIn(sources[entity]).Some? :: WindowIn(sources[entity]).value
  }

  function RecordIdOf(id: Value): Option<string>
  {
    if id.Known? then Some(Str(id.payload)) else None
  }

  function BundleOf(a: Adapter, plan: Plan, sources: Sources, record: Remote): Bundle
  {
    Bundle(plan.entity, RecordIdOf(a.identity(record)), FieldsOf(a, sources, record, plan.evidence),
           RelatedOf(plan, sources, record), JoinsOf(sources, record), WindowsOf(sources), UnplacedOf(plan, sources))
  }

  function BundlesOf(a: Adapter, plan: Plan, sources: Sources, records: seq<Remote>): (bundles: seq<Bundle>)
    ensures |bundles| == |records|
  {
    if records == [] then []
    else BundlesOf(a, plan, sources, records[..|records| - 1]) + [BundleOf(a, plan, sources, records[|records| - 1])]
  }

  /** A run is stopped by its budget, blocked by a population it cannot have, or has its evidence. */
  datatype Gathering = Stopped | Blocked | EvidenceSet(bundles: seq<Bundle>)

  function Population(a: Adapter, plan: Plan): Option<seq<Remote>>
  {
    CutOf(Direct(a.fetch, a.populationRequest), plan.entity)
  }

  /** Gathering with nothing remembered and nothing to spend: every request asked directly, every
      join a scan. */
  function GatherDirectly(a: Adapter, plan: Plan): (g: Gathering)
    ensures g.EvidenceSet? ==> Population(a, plan).Some? && |g.bundles| == |Population(a, plan).value|
  {
    match Population(a, plan)
    case None => Blocked
    case Some(records) => EvidenceSet(BundlesOf(a, plan, SourcesOf(a, plan.references, plan.windows), records))
  }

  // ------------------------------------------------------------------ what it asks
  function Maybe(q: Option<Request>): seq<Request>
  {
    if q.Some? then [q.value] else []
  }

  function ReferenceAsks(a: Adapter, rs: seq<Reference>): seq<Request>
  {
    if rs == [] then [] else ReferenceAsks(a, rs[..|rs| - 1]) + Maybe(RequestFor(a, rs[|rs| - 1]))
  }

  function FieldsAsk(a: Adapter, sources: Sources, record: Remote, names: seq<string>): seq<Request>
  {
    if names == [] then []
    else FieldsAsk(a, sources, record, names[..|names| - 1]) + Maybe(FieldAsks(a, sources, record, names[|names| - 1]))
  }

  function RecordsAsk(a: Adapter, plan: Plan, sources: Sources, records: seq<Remote>): seq<Request>
  {
    if records == [] then []
    else
      RecordsAsk(a, plan, sources, records[..|records| - 1])
      + FieldsAsk(a, sources, records[|records| - 1], plan.evidence)
  }

  /** The follow-up requests of a whole run. */
  function FollowUps(a: Adapter, plan: Plan): seq<Request>
  {
    match Population(a, plan)
    case None => []
    case Some(records) => RecordsAsk(a, plan, SourcesOf(a, plan.references, plan.windows), records)
  }

  /** Every request of a run, in order: the population, the references, the follow-ups. */
  function Asks(a: Adapter, plan: Plan): seq<Request>
  {
    if Population(a, plan).None? then [a.populationRequest]
    else [a.populationRequest] + ReferenceAsks(a, plan.references) + FollowUps(a, plan)
  }

  lemma {:induction false} DistinctGrows(xs: seq<Request>, ys: seq<Request>)
    ensures |Distinct(xs)| <= |Distinct(xs + ys)|
  {
    if ys == [] {
      assert xs + ys == xs;
    } else {
      DistinctGrows(xs, ys[..|ys| - 1]);
      assert (xs + ys)[..|xs + ys| - 1] == xs + ys[..|ys| - 1];
    }
  }

  lemma {:induction false} DistinctAdds(xs: seq<Request>, ys: seq<Request>)
    ensures |Distinct(xs + ys)| <= |Distinct(xs)| + |Distinct(ys)|
  {
    if ys == [] {
      assert xs + ys == xs;
    } else {
      var front, r := ys[..|ys| - 1], ys[|ys| - 1];
      DistinctAdds(xs, front);
      assert (xs + ys)[..|xs + ys| - 1] == xs + front;
      if r in Distinct(front) {
        DistinctMeans(front);
        DistinctMeans(xs + front);
        assert r in xs + front;
      }
    }
  }

  /** The requests of a run, part after part: no part has more distinct requests than the whole. */
  lemma AsksInOrder(a: Adapter, plan: Plan)
    ensures var first, refs, all := [] + [a.populationRequest], ReferenceAsks(a, plan.references), Asks(a, plan);
            && all == (if Population(a, plan).None? then first else (first + refs) + FollowUps(a, plan))
            && |Distinct(first)| <= |Distinct(all)|
            && (Population(a, plan).Some? ==> |Distinct(first + refs)| <= |Distinct(all)|)
  {
    hide ReferenceAsks, FollowUps, Population, Distinct;
    var first, refs, all := [] + [a.populationRequest], ReferenceAsks(a, plan.references), Asks(a, plan);
    assert all == first + all[1..];
    DistinctGrows(first, all[1..]);
    if Population(a, plan).Some? {
      assert all == (first + refs) + FollowUps(a, plan);
      DistinctGrows(first + refs, FollowUps(a, plan));
    }
  }

  lemma PopulationIs(a: Adapter, plan: Plan, records: Option<seq<Remote>>)
    requires records == CutOf(Direct(a.fetch, a.populationRequest), plan.entity)
    ensures records == Population(a, plan)
    ensures records.Some? ==>
              FollowUps(a, plan) == RecordsAsk(a, plan, SourcesOf(a, plan.references, plan.windows), records.value)
  {
    hide RecordsAsk, SourcesOf, CutOf;
  }

  lemma {:induction false} FewReferenceAsks(a: Adapter, rs: seq<Reference>)
    ensures |ReferenceAsks(a, rs)| <= |rs|
  {
    if rs != [] {
      FewReferenceAsks(a, rs[..|rs| - 1]);
    }
  }

  /** A whole run needs at most one call for its population, one for each reference, and one for each
      distinct follow-up. */
  lemma AsksAreFew(a: Adapter, plan: Plan)
    ensures |Distinct(Asks(a, plan))| <= 1 + |plan.references| + |Distinct(FollowUps(a, plan))|
  {
    hide FollowUps, ReferenceAsks, Population;
    var one, refs := [a.populationRequest], ReferenceAsks(a, plan.references);
    DistinctAdds(one, refs);
    DistinctAdds(one + refs, FollowUps(a, plan));
    DistinctMeans(one);
    DistinctMeans(refs);
    FewReferenceAsks(a, plan.references);
  }

  // ------------------------------------------------------------------ as it runs
  /** A reference as the run keeps it: joinable records are indexed by their key. */
  datatype Built = Absent(kind: Kind) | Values(items: seq<Payload>)
    | Indexed(index: Index, local: string, window: Option<Window>)

  ghost predicate Represents(b: Built, s: Source)
  {
    match s
    case Missing(kind) => b == Absent(kind)
    case Listed(items) => b == Values(items)
    case Joinable(kind, records, local, remote, window) =>
      b.Indexed? && b.local == local && b.window == window && b.index.kind == kind && b.index.available
      && b.index.remoteField == remote && Indexes(b.index, records)
  }

  ghost predicate AllRepresent(bs: map<string, Built>, sources: Sources)
  {
    bs.Keys == sources.Keys && forall entity :: entity in bs ==> Represents(bs[entity], sources[entity])
  }

  class Run {
    const adapter: Adapter
    const plan: Plan
    const cache: ResponseCache<Request, Response>

    /** Nothing has been asked that was not answered: the calls made are the distinct requests. */
    ghost predicate Asked(asked: seq<Request>)
      reads cache, cache.budget
    {
      cache.Valid() && cache.fetch == adapter.fetch
        && cache.Made() == Distinct(asked) && |Distinct(asked)| <= cache.Room()
    }

    /** The budget has stopped the run, and it was spent to the last call. */
    ghost predicate Spent(asked: seq<Request>)
      reads cache, cache.budget
    {
      cache.Valid() && |Distinct(asked)| > cache.Room() && |cache.Made()| == cache.Room()
    }

    constructor (a: Adapter, plan: Plan, budget: CallBudget<Request>)
      requires budget.Valid()
      ensures adapter == a && this.plan == plan && Asked([]) && fresh(cache) && cache.budget == budget
      ensures cache.before == budget.spent
    {
      adapter, this.plan := a, plan;
      cache := new ResponseCache(a.fetch, budget);
    }

    method Ask(q: Request, ghost asked: seq<Request>) returns (answer: Answer<Response>)
      requires Asked(asked)
      modifies cache, cache.budget
      ensures answer == OverBudget ==> Spent(asked + [q])
      ensures answer != OverBudget ==> Asked(asked + [q]) && answer == Direct(adapter.fetch, q)
    {
      assert (asked + [q])[..|asked|] == asked;
      answer := cache.Get(q);
    }

    method AskMaybe(q: Option<Request>, ghost asked: seq<Request>) returns (answer: Option<Answer<Response>>)
      requires Asked(asked)
      modifies cache, cache.budget
      ensures answer == Some(OverBudget) ==> q.Some? && Spent(asked + Maybe(q))
      ensures answer != Some(OverBudget) ==> Asked(asked + Maybe(q))
      ensures answer != Some(OverBudget) ==> answer == if q.Some? then Some(Direct(adapter.fetch, q.value)) else None
    {
      if q.None? {
        assert asked + [] == asked;
        return None;
      }
      var a := Ask(q.value, asked);
      answer := Some(a);
    }

    method CollectPayloads(records: seq<Remote>, field: string) returns (items: seq<Payload>)
      ensures items == KnownPayloads(records, field)
    {
      items := [];
      for i := 0 to |records|
        invariant items == KnownPayloads(records[..i], field)
      {
        assert records[..i + 1][..i] == records[..i];
        var v := Resolve(field, records[i]);
        if v.Known? {
          items := items + [v.payload];
        }
      }
      assert records[..|records|] == records;
    }

    method BuildReference(r: Reference, cut: Option<seq<Remote>>) returns (b: Built)
      ensures Represents(b, SourceIn(r, cut, plan.windows))
    {
      hide Indexes;
      if cut.None? {
        return Absent(r.kind);
      }
      if r.kind.ValueSet? {
        var items := CollectPayloads(cut.value, ValueOr(r.setField));
        return Values(items);
      }
      var index := BuildIndex(r.kind, ValueOr(r.remoteField), cut.value);
      b := Indexed(index, ValueOr(r.localField), Declared(plan.windows, r.entity));
    }

    /** `build_references`: one call each, at most; None when the budget stops the run. */
    method BuildReferences(ghost asked: seq<Request>) returns (built: Option<map<string, Built>>)
      requires Asked(asked)
      modifies cache, cache.budget
      ensures built.None? ==> Spent(asked + ReferenceAsks(adapter, plan.references))
      ensures built.Some? ==> Asked(asked + ReferenceAsks(adapter, plan.references))
      ensures built.Some? ==> AllRepresent(built.value, SourcesOf(adapter, plan.references, plan.windows))
    {
      hide Asked, Spent, Represents, SourceIn, SourceOf, RequestFor, CutOf, ReferenceAsks, SourcesOf, Distinct;
      NoReferences(adapter, plan.windows);
      var rs := plan.references;
      var bs := map[];
      assert asked + [] == asked;
      for i := 0 to |rs|
        invariant Asked(asked + ReferenceAsks(adapter, rs[..i]))
        invariant AllRepresent(bs, SourcesOf(adapter, rs[..i], plan.windows))
      {
        NextReference(adapter, rs, plan.windows, i, asked);
        ghost var before := asked + ReferenceAsks(adapter, rs[..i]);
        var q := RequestFor(adapter, rs[i]);
        var answer := AskMaybe(q, before);
        if answer == Some(OverBudget) {
          ReferenceAsksGrow(adapter, rs, i + 1);
          StillSpent(asked, ReferenceAsks(adapter, rs[..i + 1]), ReferenceAsks(adapter, rs));
          return None;
        }
        var b := BuildReference(rs[i], if answer.Some? then CutOf(answer.value, rs[i].entity) else None);
        ReferenceRepresented(adapter, rs[i], plan.windows, b, answer);
        bs := bs[rs[i].entity := b];
      }
      assert rs[..|rs|] == rs;
      built := Some(bs);
    }

    /** More requests cannot bring a spent budget back. */
    lemma StillSpent(asked: seq<Request>, some: seq<Request>, all: seq<Request>)
      requires Spent(asked + some) && some <= all
      ensures Spent(asked + all)
    {
      assert all == some + all[|some|..];
      assert asked + all == (asked + some) + all[|some|..];
      DistinctGrows(asked + some, all[|some|..]);
    }

    /** One field of one record. */
    method ReadField(name: string, record: Remote, built: map<string, Built>, ghost sources: Sources,
                     ghost asked: seq<Request>)
      returns (v: Option<Value>)
      requires Asked(asked) && AllRepresent(built, sources)
      modifies cache, cache.budget
      ensures v.None? ==> Spent(asked + Maybe(FieldAsks(adapter, sources, record, name)))
      ensures v.Some? ==> Asked(asked + Maybe(FieldAsks(adapter, sources, record, name)))
      ensures v.Some? ==> v.value == FieldValue(adapter, sources, record, name)
    {
      hide Represents, FollowUpRequest, FollowUpValue, ThroughReference;
      var entity := EntityOf(name);
      assert asked + [] == asked;
      if entity in built {
        var through := ReadThrough(name, record, built[entity], sources[entity]);
        return Some(through);
      }
      if adapter.sourceKey(name) == adapter.populationKey {
        return Some(Resolve(name, record));
      }
      var q := FollowUpRequest(adapter, record, name);
      var answer := AskMaybe(q, asked);
      if answer == Some(OverBudget) {
        return None;
      }
      v := Some(if answer.Some? then FollowUpValue(name, answer.value) else NOT_FETCHED);
    }

    method ReadThrough(name: string, record: Remote, b: Built, ghost s: Source) returns (v: Value)
      requires Represents(b, s)
      ensures v == ThroughReference(name, record, s)
    {
      match b {
        case Absent(_) => v := UNAVAILABLE;
        case Values(items) => v := Known(Tuple(items), None);
        case Indexed(index, local, _) =>
          var key := Resolve(local, record);
          MatchIsScan(index, s.records, key);
          var found := Match(index, key);
          if !HasKey(key) {
            v := NO_KEY;
          } else if found.None? {
            v := NO_MATCH;
          } else if index.kind.Collection? {
            v := MANY;
          } else {
            v := Resolve(name, found.value[0]);
          }
      }
    }

    /** `_assemble`: the fields of one record; None when the budget stops the run. */
    method Assemble(record: Remote, built: map<string, Built>, ghost sources: Sources, ghost asked: seq<Request>)
      returns (fields: Option<Record>)
      requires Asked(asked) && AllRepresent(built, sources)
      modifies cache, cache.budget
      ensures fields.None? ==> Spent(asked + FieldsAsk(adapter, sources, record, plan.evidence))
      ensures fields.Some? ==> Asked(asked + FieldsAsk(adapter, sources, record, plan.evidence))
      ensures fields.Some? ==> fields.value == FieldsOf(adapter, sources, record, plan.evidence)
    {
      hide Asked, Spent, AllRepresent, FieldAsks, FieldValue, FieldsAsk, FieldsOf, Distinct;
      NoFields(adapter, sources, record);
      var names := plan.evidence;
      var resolved: Record := map[];
      assert asked + [] == asked;
      for i := 0 to |names|
        invariant Asked(asked + FieldsAsk(adapter, sources, record, names[..i]))
        invariant resolved == FieldsOf(adapter, sources, record, names[..i])
      {
        NextField(adapter, sources, record, names, i, asked);
        ghost var before := asked + FieldsAsk(adapter, sources, record, names[..i]);
        var v := ReadField(names[i], record, built, sources, before);
        if v.None? {
          FieldsAskGrow(adapter, sources, record, names, i + 1);
          StillSpent(asked, FieldsAsk(adapter, sources, record, names[..i + 1]),
            FieldsAsk(adapter, sources, record, names));
          return None;
        }
        resolved := resolved[names[i] := v.value];
      }
      assert names[..|names|] == names;
      fields := Some(resolved);
    }

    method JoinedRecords(b: Built, record: Remote, ghost s: Source) returns (found: seq<Remote>)
      requires Represents(b, s)
      ensures found == Matches(s, record)
    {
      if !b.Indexed? {
        return [];
      }
      var key := Resolve(b.local, record);
      MatchIsScan(b.index, s.records, key);
      var m := Match(b.index, key);
      found := if m.Some? then m.value else [];
    }

    /** `_related`, `_joins`, `_unplaced` and the windows, entity by entity. */
    method Relate(record: Remote, built: map<string, Built>, ghost sources: Sources)
      returns (related: map<string, seq<Record>>, joins: map<string, Value>,
               unplaced: map<string, seq<Record>>, windows: map<string, Window>)
      requires AllRepresent(built, sources)
      ensures related == RelatedOf(plan, sources, record) && joins == JoinsOf(sources, record)
      ensures unplaced == UnplacedOf(plan, sources) && windows == WindowsOf(sources)
    {
      hide Represents, ThroughReference, Matches, JoinValue, UnplacedIn, WindowIn, Wanted, RelatedOf, JoinsOf,
        UnplacedOf, WindowsOf;
      NothingRelated(plan, record, Without(sources, built.Keys));
      related, joins, unplaced, windows := map[], map[], map[], map[];
      var left := built.Keys;
      while left != {}
        invariant left <= built.Keys
        invariant related == RelatedOf(plan, Without(sources, left), record)
        invariant joins == JoinsOf(Without(sources, left), record)
        invariant unplaced == UnplacedOf(plan, Without(sources, left))
        invariant windows == WindowsOf(Without(sources, left))
        decreases left
      {
        var entity :| entity in left;
        var b := built[entity];
        ghost var s := sources[entity];
        assert Represents(b, s);
        var found := JoinedRecords(b, record, s);
        var join, loose, window := JoinOne(b, record, s);
        if IsCollection(b) {
          related := related[entity := ProjectAll(found, Wanted(plan, entity))];
        }
        joins := joins[entity := join];
        if loose != [] {
          unplaced := unplaced[entity := ProjectAll(loose, Wanted(plan, entity))];
        }
        if window.Some? {
          windows := windows[entity := window.value];
        }
        CollectionKind(b, s);
        assert Without(sources, left - {entity}) == Without(sources, left)[entity := s];
        OneMoreRelated(plan, record, Without(sources, left), entity, s);
        OneMoreUnplaced(plan, Without(sources, left), entity, s);
        left := left - {entity};
      }
      assert Without(sources, {}) == sources;
    }

    method JoinOne(b: Built, record: Remote, ghost s: Source)
      returns (join: Value, loose: seq<Remote>, window: Option<Window>)
      requires Represents(b, s)
      ensures join == JoinValue(s, record) && loose == UnplacedIn(s) && window == WindowIn(s)
    {
      match b {
        case Absent(kind) => return if kind.ValueSet? then Known(Flag(false), None) else UNAVAILABLE, [], None;
        case Values(_) => return Known(Flag(true), None), [], None;
        case Indexed(index, local, declared) =>
          var key := Resolve(local, record);
          MatchIsScan(index, s.records, key);
          join := if !HasKey(key) then NO_KEY else Known(Flag(Str(key.payload) in index.byKey), None);
          loose := if index.kind.Collection? then index.unplaced else [];
          window := if index.kind.Collection? then declared else None;
      }
    }

    /** `gather`, once the population is known. */
    method GatherRecords(records: seq<Remote>, built: map<string, Built>, ghost sources: Sources,
                         ghost asked: seq<Request>)
      returns (bundles: Option<seq<Bundle>>)
      requires Asked(asked) && AllRepresent(built, sources)
      modifies cache, cache.budget
      ensures bundles.None? ==> Spent(asked + RecordsAsk(adapter, plan, sources, records))
      ensures bundles.Some? ==> Asked(asked + RecordsAsk(adapter, plan, sources, records))
      ensures bundles.Some? ==> bundles.value == BundlesOf(adapter, plan, sources, records)
    {
      hide Asked, Spent, AllRepresent, FieldsAsk, FieldsOf, RelatedOf, JoinsOf, UnplacedOf, WindowsOf, Distinct;
      var gathered := [];
      assert asked + [] == asked;
      for i := 0 to |records|
        invariant Asked(asked + RecordsAsk(adapter, plan, sources, records[..i]))
        invariant gathered == BundlesOf(adapter, plan, sources, records[..i])
      {
        assert records[..i + 1][..i] == records[..i];
        ghost var before := asked + RecordsAsk(adapter, plan, sources, records[..i]);
        assert asked + RecordsAsk(adapter, plan, sources, records[..i + 1])
            == before + FieldsAsk(adapter, sources, records[i], plan.evidence);
        var fields := Assemble(records[i], built, sources, before);
        if fields.None? {
          RecordsAskGrow(adapter, plan, sources, records, i + 1);
          StillSpent(asked, RecordsAsk(adapter, plan, sources, records[..i + 1]),
            RecordsAsk(adapter, plan, sources, records));
          return None;
        }
        var related, joins, unplaced, windows := Relate(records[i], built, sources);
        var id := RecordIdOf(adapter.identity(records[i]));
        gathered := gathered + [Bundle(plan.entity, id, fields.value, related, joins, windows, unplaced)];
      }
      assert records[..|records|] == records;
      bundles := Some(gathered);
    }

    /** A whole run's evidence: what gathering directly gives, or a stop - exactly when its distinct
        requests do not fit the budget - and never a part of it. */
    method GatherAll() returns (r: Gathering)
      requires Asked([])
      modifies cache, cache.budget
      ensures cache.Valid() && |cache.Made()| == Least(cache.Room(), |Distinct(Asks(adapter, plan))|)
      ensures r == if |Distinct(Asks(adapter, plan))| <= cache.Room() then GatherDirectly(adapter, plan) else Stopped
    {
      hide AllRepresent, ReferenceAsks, RecordsAsk, FollowUps, BundlesOf, SourcesOf, Asks, Distinct, Population;
      ghost var first := [] + [adapter.populationRequest];
      AsksInOrder(adapter, plan);
      var answer := Ask(adapter.populationRequest, []);
      if answer == OverBudget {
        return Stopped;
      }
      var records := CutOf(answer, plan.entity);
      PopulationIs(adapter, plan, records);
      if records.None? {
        return Blocked;
      }
      var built := BuildReferences(first);
      if built.None? {
        return Stopped;
      }
      ghost var refs := ReferenceAsks(adapter, plan.references);
      ghost var sources := SourcesOf(adapter, plan.references, plan.windows);
      var bundles := GatherRecords(records.value, built.value, sources, first + refs);
      r := if bundles.Some? then EvidenceSet(bundles.value) else Stopped;
    }
  }

  function Without(sources: Sources, left: set<string>): Sources
  {
    sources - left
  }

  lemma NothingRelated(plan: Plan, record: Remote, none: Sources)
    requires none == map[]
    ensures RelatedOf(plan, none, record) == map[] && JoinsOf(none, record) == map[]
    ensures UnplacedOf(plan, none) == map[] && WindowsOf(none) == map[]
  {
  }

  lemma OneMoreRelated(plan: Plan, record: Remote, sources: Sources, entity: string, s: Source)
    requires entity !in sources
    ensures RelatedOf(plan, sources[entity := s], record)
            == if KindOf(s).Collection?
               then RelatedOf(plan, sources, record)[entity := ProjectAll(Matches(s, record), Wanted(plan, entity))]
               else RelatedOf(plan, sources, record)
    ensures JoinsOf(sources[entity := s], record) == JoinsOf(sources, record)[entity := JoinValue(s, record)]
  {
    hide Matches, Wanted, JoinValue, KindOf;
  }

  lemma OneMoreUnplaced(plan: Plan, sources: Sources, entity: string, s: Source)
    requires entity !in sources
    ensures UnplacedOf(plan, sources[entity := s])
            == if UnplacedIn(s) != []
              then UnplacedOf(plan, sources)[entity := ProjectAll(UnplacedIn(s), Wanted(plan, entity))]
               else UnplacedOf(plan, sources)
    ensures WindowsOf(sources[entity := s])
            == if WindowIn(s).Some? then WindowsOf(sources)[entity := WindowIn(s).value] else WindowsOf(sources)
  {
    hide UnplacedIn, WindowIn, Wanted;
  }

  predicate IsCollection(b: Built)
  {
    match b
    case Absent(kind) => kind.Collection?
    case Values(_) => false
    case Indexed(index, _, _) => index.kind.Collection?
  }

  lemma CollectionKind(b: Built, s: Source)
    requires Represents(b, s)
    ensures IsCollection(b) <==> KindOf(s).Collection?
  {
    hide Indexes;
  }

  lemma ReferenceRepresented(a: Adapter, r: Reference, windows: map<string, Window>, b: Built,
                             answer: Option<Answer<Response>>)
    requires answer == if RequestFor(a, r).Some? then Some(Direct(a.fetch, RequestFor(a, r).value)) else None
    requires Represents(b, SourceIn(r, if answer.Some? then CutOf(answer.value, r.entity) else None, windows))
    ensures Represents(b, SourceOf(a, r, windows))
  {
    hide Represents;
  }

  lemma {:induction false} ReferenceAsksGrow(a: Adapter, rs: seq<Reference>, n: nat)
    requires n <= |rs|
    ensures ReferenceAsks(a, rs[..n]) <= ReferenceAsks(a, rs)
    decreases |rs|
  {
    if n < |rs| {
      ReferenceAsksGrow(a, rs[..|rs| - 1], n);
      assert rs[..|rs| - 1][..n] == rs[..n];
    } else {
      assert rs[..n] == rs;
    }
  }

  lemma {:induction false} FieldsAskGrow(a: Adapter, sources: Sources, record: Remote, names: seq<string>, n: nat)
    requires n <= |names|
    ensures FieldsAsk(a, sources, record, names[..n]) <= FieldsAsk(a, sources, record, names)
    decreases |names|
  {
    if n < |names| {
      FieldsAskGrow(a, sources, record, names[..|names| - 1], n);
      assert names[..|names| - 1][..n] == names[..n];
    } else {
      assert names[..n] == names;
    }
  }

  lemma NoReferences(a: Adapter, windows: map<string, Window>)
    ensures ReferenceAsks(a, []) == [] && SourcesOf(a, [], windows) == map[]
  {
  }

  lemma NextReference(a: Adapter, rs: seq<Reference>, windows: map<string, Window>, i: nat, asked: seq<Request>)
    requires i < |rs|
    ensures asked + ReferenceAsks(a, rs[..i + 1]) == asked + ReferenceAsks(a, rs[..i]) + Maybe(RequestFor(a, rs[i]))
    ensures SourcesOf(a, rs[..i + 1], windows)
              == SourcesOf(a, rs[..i], windows)[rs[i].entity := SourceOf(a, rs[i], windows)]
  {
    hide RequestFor, SourceOf;
    assert rs[..i + 1][..i] == rs[..i];
  }

  lemma NoFields(a: Adapter, sources: Sources, record: Remote)
    ensures FieldsAsk(a, sources, record, []) == [] && FieldsOf(a, sources, record, []) == map[]
  {
  }

  lemma NextField(a: Adapter, sources: Sources, record: Remote, names: seq<string>, i: nat, asked: seq<Request>)
    requires i < |names|
    ensures asked + FieldsAsk(a, sources, record, names[..i + 1])
            == asked + FieldsAsk(a, sources, record, names[..i]) + Maybe(FieldAsks(a, sources, record, names[i]))
    ensures FieldsOf(a, sources, record, names[..i + 1])
            == FieldsOf(a, sources, record, names[..i])[names[i] := FieldValue(a, sources, record, names[i])]
  {
    hide FieldAsks, FieldValue;
    assert names[..i + 1][..i] == names[..i];
  }

  lemma {:induction false} RecordsAskGrow(a: Adapter, plan: Plan, sources: Sources, records: seq<Remote>, n: nat)
    requires n <= |records|
    ensures RecordsAsk(a, plan, sources, records[..n]) <= RecordsAsk(a, plan, sources, records)
    decreases |records|
  {
    if n < |records| {
      RecordsAskGrow(a, plan, sources, records[..|records| - 1], n);
      assert records[..|records| - 1][..n] == records[..n];
    } else {
      assert records[..n] == records;
    }
  }

  // ------------------------------------------------------------------ what a bundle then says
  /** Every collection of every bundle is gathered as the theorems about the unfetched world ask: the
      verdicts of a run rest on them. */
  lemma GatherFillsCollections(a: Adapter, plan: Plan, sources: Sources, record: Remote, entity: string)
    requires entity in sources && sources[entity].Joinable? && sources[entity].kind.Collection?
    ensures var s := sources[entity];
            Gathered(BundleOf(a, plan, sources, record), entity, s.remote, Resolve(s.local, record), s.records,
              Wanted(plan, entity))
    ensures sources[entity].window.Some? ==>
              BundleOf(a, plan, sources, record).windows[entity] == sources[entity].window.value
  {
    hide FieldsOf, Scan, Unreadable;
    var b, s := BundleOf(a, plan, sources, record), sources[entity];
    assert entity in b.related && entity in b.joins;
    assert entity !in b.unplaced ==> Unreadable(s.records, s.remote) == [];
    assert ProjectAll([], Wanted(plan, entity)) == [];
  }
}
