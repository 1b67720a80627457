/** From a response to a verdict: what a record's verdict owes to what the provider sent
    (hotelcontrols/evidence/gather.py, hotelcontrols/evaluator/record.py). */
module Verdicts {
  import opened Basics
  import opened Texts
  import opened Values
  import opened Rules
  import opened Bundles
  import opened Predicates
  import opened Collections
  import opened Records
  import opened References
  import opened World
  import opened Cache
  import opened Gather

  // ------------------------------------------------------------------ the same requests, read further
  /** One reference whose response reads further. A lookup must have found, for this record, what no
      record with an unread key can still replace; one that could not be had may since be had. */
  ghost predicate SourceRefines(s: Source, s': Source, record: Remote)
  {
    if s.Joinable? then
      && s'.Joinable? && s'.kind == s.kind && s'.local == s.local && s'.remote == s.remote && s'.window == s.window
      && ResponseRefines(s.records, s'.records)
      && (!s.kind.Collection? && HasKey(Resolve(s.local, record)) ==>
            !UnreadBefore(s.records, s.remote, Str(Resolve(s.local, record).payload)))
    else if s.Missing? && !s.kind.ValueSet? then
      KindOf(s') == s.kind && WindowIn(s').None?
    else s' == s
  }

  ghost predicate SourcesRefine(sources: Sources, sources': Sources, record: Remote)
  {
    && sources.Keys == sources'.Keys && "" !in sources
    && forall entity :: entity in sources ==> SourceRefines(sources[entity], sources'[entity], record)
  }

  /** The same provider asked again: it names the same calls, and whatever it answered it answers
      again, more of it readable. */
  ghost predicate AnswersAgain(a: Adapter, a': Adapter)
  {
    && a'.sourceKey == a.sourceKey && a'.populationKey == a.populationKey && a'.followUp == a.followUp
    && (forall r, r' | FieldsRefine(r, r') :: Refines(a.identity(r), a'.identity(r')))
    && (forall q | a.fetch(q).Ok? :: a'.fetch(q).Ok? && FieldsRefine(a.fetch(q).value.body, a'.fetch(q).value.body))
  }

  lemma ResolveRefines(name: string, r: Remote, r': Remote)
    requires FieldsRefine(r, r')
    ensures Refines(Resolve(name, r), Resolve(name, r'))
  {
  }

  lemma LookedUp(name: string, record: Remote, record': Remote, s: Source, s': Source)
    requires FieldsRefine(record, record') && SourceRefines(s, s', record)
    ensures Refines(ThroughReference(name, record, s), ThroughReference(name, record', s'))
    ensures s.Joinable? && !s.kind.Collection? ==> Refines(JoinValue(s, record), JoinValue(s', record'))
  {
    hide Str, Scan, UnreadBefore;
    if s.Joinable? && !s.kind.Collection? {
      ResolveRefines(s.local, record, record');
      if HasKey(Resolve(s.local, record)) {
        LookupStays(s.records, s'.records, s.remote, Str(Resolve(s.local, record).payload));
      }
    }
  }

  lemma FollowUpRefines(a: Adapter, a': Adapter, record: Remote, record': Remote, name: string, q: Request)
    requires AnswersAgain(a, a') && FieldsRefine(record, record') && FollowUpRequest(a, record, name) == Some(q)
    ensures FollowUpRequest(a', record', name) == Some(q)
    ensures Refines(FollowUpValue(name, Direct(a.fetch, q)), FollowUpValue(name, Direct(a'.fetch, q)))
  {
    assert Refines(a.identity(record), a'.identity(record'));
    if a.fetch(q).Ok? {
      ResolveRefines(name, a.fetch(q).value.body, a'.fetch(q).value.body);
    }
  }

  lemma FieldRefines(a: Adapter, a': Adapter, sources: Sources, sources': Sources, record: Remote, record': Remote,
                     name: string)
    requires AnswersAgain(a, a') && FieldsRefine(record, record') && SourcesRefine(sources, sources', record)
    ensures Refines(FieldValue(a, sources, record, name), FieldValue(a', sources', record', name))
  {
    hide AnswersAgain, SourceRefines, ThroughReference, FollowUpRequest, FollowUpValue;
    if EntityOf(name) in sources {
      LookedUp(name, record, record', sources[EntityOf(name)], sources'[EntityOf(name)]);
    } else {
      SameKeys(a, a', name);
      ResolveRefines(name, record, record');
      if FollowUpRequest(a, record, name).Some? {
        FollowUpRefines(a, a', record, record', name, FollowUpRequest(a, record, name).value);
      }
    }
  }

  lemma SameKeys(a: Adapter, a': Adapter, name: string)
    requires AnswersAgain(a, a')
    ensures a'.sourceKey(name) == a.sourceKey(name) && a'.populationKey == a.populationKey
  {
  }

  lemma {:induction false} AllFieldsRefine(a: Adapter, a': Adapter, sources: Sources, sources': Sources,
                                           record: Remote, record': Remote, names: seq<string>)
    requires AnswersAgain(a, a') && FieldsRefine(record, record') && SourcesRefine(sources, sources', record)
    ensures FieldsRefine(FieldsOf(a, sources, record, names), FieldsOf(a', sources', record', names))
  {
    hide AnswersAgain, SourcesRefine, FieldValue;
    if names != [] {
      var front, name := names[..|names| - 1], names[|names| - 1];
      AllFieldsRefine(a, a', sources, sources', record, record', front);
      FieldRefines(a, a', sources, sources', record, record', name);
    }
  }

  lemma SameShape(plan: Plan, sources: Sources, sources': Sources, record: Remote, record': Remote)
    requires SourcesRefine(sources, sources', record)
    ensures RelatedOf(plan, sources, record).Keys == RelatedOf(plan, sources', record').Keys
    ensures "" !in RelatedOf(plan, sources, record)
    ensures WindowsOf(sources) == WindowsOf(sources')
  {
    hide UnreadBefore, ResponseRefines, Gather.Matches, Wanted;
    forall entity | entity in sources
      ensures KindOf(sources[entity]) == KindOf(sources'[entity])
                && WindowIn(sources[entity]) == WindowIn(sources'[entity])
    {
      assert SourceRefines(sources[entity], sources'[entity], record);
    }
  }

  lemma OneCollection(a: Adapter, a': Adapter, plan: Plan, sources: Sources, sources': Sources,
                      record: Remote, record': Remote, entity: string)
    requires FieldsRefine(record, record') && SourcesRefine(sources, sources', record)
    requires entity in sources && KindOf(sources[entity]).Collection?
    ensures CollectionRefines(BundleOf(a, plan, sources, record), BundleOf(a', plan, sources', record'), entity)
  {
    hide CollectionRefines, Gathered, FieldsOf, RelatedOf, UnplacedOf, WindowsOf, Gather.Matches, UnreadBefore,
      ResponseRefines;
    var s, s' := sources[entity], sources'[entity];
    assert SourceRefines(s, s', record);
    if s.Joinable? {
      GatherFillsCollections(a, plan, sources, record, entity);
      GatherFillsCollections(a', plan, sources', record', entity);
      ResolveRefines(s.local, record, record');
      GatheredRefines(BundleOf(a, plan, sources, record), BundleOf(a', plan, sources', record'), entity, s.remote,
                      Resolve(s.local, record), Resolve(s.local, record'), s.records, s'.records, Wanted(plan, entity));
    } else {
      NothingKnown(BundleOf(a, plan, sources, record), BundleOf(a', plan, sources', record'), entity);
    }
  }

  lemma NothingKnown(b: Bundle, b': Bundle, entity: string)
    requires !JoinKnown(b, entity)
    ensures CollectionRefines(b, b', entity)
  {
  }

  /** A bundle gathered again, more of every response readable, refines the bundle gathered first. */
  lemma GatheredAgainRefines(a: Adapter, a': Adapter, plan: Plan, sources: Sources, sources': Sources, record: Remote,
                             record': Remote)
    requires AnswersAgain(a, a') && FieldsRefine(record, record') && SourcesRefine(sources, sources', record)
    ensures BundleRefines(BundleOf(a, plan, sources, record), BundleOf(a', plan, sources', record'))
  {
    hide AnswersAgain, FieldsRefine, FieldsOf, CollectionRefines, WindowsOf, ThroughReference, SourceRefines,
      JoinValue, UnplacedOf;
    var b, b' := BundleOf(a, plan, sources, record), BundleOf(a', plan, sources', record');
    AllFieldsRefine(a, a', sources, sources', record, record', plan.evidence);
    SameShape(plan, sources, sources', record, record');
    forall entity | entity in b.related
      ensures CollectionRefines(b, b', entity)
    {
      OneCollection(a, a', plan, sources, sources', record, record', entity);
    }
    forall entity | entity in b.joins && entity !in b.related
      ensures JoinRefines(b, b', entity)
    {
      JoinStays(a, a', plan, sources, sources', record, record', entity);
    }
  }

  lemma JoinStays(a: Adapter, a': Adapter, plan: Plan, sources: Sources, sources': Sources,
                  record: Remote, record': Remote, entity: string)
    requires FieldsRefine(record, record') && SourcesRefine(sources, sources', record)
    requires entity in sources && !KindOf(sources[entity]).Collection?
    ensures JoinRefines(BundleOf(a, plan, sources, record), BundleOf(a', plan, sources', record'), entity)
  {
    hide FieldsOf, RelatedOf, UnplacedOf, WindowsOf, Gather.Matches, UnreadBefore, ResponseRefines;
    var s, s' := sources[entity], sources'[entity];
    assert SourceRefines(s, s', record);
    LookedUp("", record, record', s, s');
  }

  /** From a response read further to a kept verdict: PASS, FAIL and EXCLUDED survive gathering the
      record's evidence again, unless evaluating it then raises. */
  lemma VerdictKept(rule: Rule, a: Adapter, a': Adapter, plan: Plan, sources: Sources, sources': Sources,
                    record: Remote, record': Remote, s: Settings, s': Settings)
    requires AnswersAgain(a, a') && FieldsRefine(record, record') && SourcesRefine(sources, sources', record)
    requires SettingsRefine(s, s') && Conclusive(RecordOutcome(rule, BundleOf(a, plan, sources, record), s))
    ensures RecordOutcome(rule, BundleOf(a', plan, sources', record'), s')
            in {RecordOutcome(rule, BundleOf(a, plan, sources, record), s), RAISED}
  {
    hide RecordOutcome, AnswersAgain, SourcesRefine, BundleOf;
    GatheredAgainRefines(a, a', plan, sources, sources', record, record');
    RecordStable(rule, BundleOf(a, plan, sources, record), BundleOf(a', plan, sources', record'), s, s');
  }

  // ------------------------------------------------------------------ what a run's PASS says
  lemma {:induction false} BundlesInOrder(a: Adapter, plan: Plan, sources: Sources, records: seq<Remote>, n: nat)
    requires n < |records|
    ensures BundlesOf(a, plan, sources, records)[n] == BundleOf(a, plan, sources, records[n])
    decreases |records|
  {
    hide BundleOf;
    var front := records[..|records| - 1];
    if n < |front| {
      BundlesInOrder(a, plan, sources, front, n);
    }
  }

  // ------------------------------------------------------------------ one run after another
  /** A provider asked the same of, a second time: every response it gave it gives again, cut into the
      same records, more of each readable. */
  ghost predicate AsksAgain(a: Adapter, a': Adapter)
  {
    && AnswersAgain(a, a') && a'.populationRequest == a.populationRequest && a'.referenceRequests == a.referenceRequests
    && forall q, entity | a.fetch(q).Ok? && entity in a.fetch(q).value.cuts ::
         && entity in a'.fetch(q).value.cuts
         && ResponseRefines(a.fetch(q).value.cuts[entity], a'.fetch(q).value.cuts[entity])
  }

  /** What the first run got of one reference is final for this record: a lookup found what no unread
      key can replace, every value of a set could be read, and a set or a collection that could not be
      had still cannot. */
  ghost predicate FinalFor(a: Adapter, a': Adapter, r: Reference, windows: map<string, Window>, record: Remote)
  {
    match SourceOf(a, r, windows)
    case Missing(kind) => kind.Lookup? || SourceOf(a', r, windows) == SourceOf(a, r, windows)
    case Listed(_) =>
      var cut := CutOf(Direct(a.fetch, RequestFor(a, r).value), r.entity).value;
      forall x :: x in cut ==> Resolve(ValueOr(r.setField), x).Known?
    case Joinable(kind, records, local, remote, _) =>
      !kind.Collection? && HasKey(Resolve(local, record)) ==>
        !UnreadBefore(records, remote, Str(Resolve(local, record).payload))
  }

  lemma CutAgain(a: Adapter, a': Adapter, q: Request, entity: string)
    requires AsksAgain(a, a') && CutOf(Direct(a.fetch, q), entity).Some?
    ensures CutOf(Direct(a'.fetch, q), entity).Some?
    ensures ResponseRefines(CutOf(Direct(a.fetch, q), entity).value, CutOf(Direct(a'.fetch, q), entity).value)
  {
    hide ResponseRefines, FieldsRefine;
  }

  lemma {:induction false} SameListing(records: seq<Remote>, later: seq<Remote>, field: string)
    requires ResponseRefines(records, later) && forall r :: r in records ==> Resolve(field, r).Known?
    ensures KnownPayloads(later, field) == KnownPayloads(records, field)
  {
    if records != [] {
      var n := |records| - 1;
      SameListing(records[..n], later[..n], field);
      assert records[n] in records;
      ResolveRefines(field, records[n], later[n]);
    }
  }

  lemma SameRequest(a: Adapter, a': Adapter, r: Reference)
    requires AsksAgain(a, a')
    ensures RequestFor(a', r) == RequestFor(a, r)
  {
  }

  lemma SourceAgain(a: Adapter, a': Adapter, r: Reference, windows: map<string, Window>, record: Remote)
    requires AsksAgain(a, a') && FinalFor(a, a', r, windows, record)
    ensures SourceRefines(SourceOf(a, r, windows), SourceOf(a', r, windows), record)
  {
    hide AsksAgain, ResponseRefines, UnreadBefore, KnownPayloads, Str, Direct;
    SameRequest(a, a', r);
    if RequestFor(a, r).Some? {
      var q := RequestFor(a, r).value;
      if CutOf(Direct(a.fetch, q), r.entity).Some? {
        CutAgain(a, a', q, r.entity);
        if r.kind.ValueSet? {
          SameListing(CutOf(Direct(a.fetch, q), r.entity).value, CutOf(Direct(a'.fetch, q), r.entity).value,
                      ValueOr(r.setField));
        }
      }
    }
  }

  lemma {:induction false} SourcesAgain(a: Adapter, a': Adapter, rs: seq<Reference>, windows: map<string, Window>,
                                        record: Remote)
    requires AsksAgain(a, a') && forall r :: r in rs ==> FinalFor(a, a', r, windows, record) && r.entity != ""
    ensures SourcesRefine(SourcesOf(a, rs, windows), SourcesOf(a', rs, windows), record)
  {
    hide AsksAgain, FinalFor, SourceRefines, SourceOf;
    if rs != [] {
      var front, r := rs[..|rs| - 1], rs[|rs| - 1];
      assert r in rs;
      SourcesAgain(a, a', front, windows, record);
      SourceAgain(a, a', r, windows, record);
    }
  }

  /** From one run to the next. Every record of the first run is a record of the second, and a
      conclusive verdict it had is the verdict it has - unless evaluating it now raises - when the
      provider reads further and what its references came to was final. */
  lemma RunVerdictKept(rule: Rule, a: Adapter, a': Adapter, plan: Plan, n: nat, s: Settings, s': Settings)
    requires AsksAgain(a, a') && SettingsRefine(s, s') && GatherDirectly(a, plan).EvidenceSet?
    requires n < |Population(a, plan).value|
    requires forall r | r in plan.references ::
               FinalFor(a, a', r, plan.windows, Population(a, plan).value[n]) && r.entity != ""
    requires Conclusive(RecordOutcome(rule, GatherDirectly(a, plan).bundles[n], s))
    ensures GatherDirectly(a', plan).EvidenceSet?
    ensures |GatherDirectly(a', plan).bundles| == |GatherDirectly(a, plan).bundles|
    ensures RecordOutcome(rule, GatherDirectly(a', plan).bundles[n], s')
            in {RecordOutcome(rule, GatherDirectly(a, plan).bundles[n], s), RAISED}
  {
    hide RecordOutcome, AnswersAgain, SourcesRefine, BundleOf, FinalFor, SourcesOf, Direct, CutOf, FieldsRefine;
    CutAgain(a, a', a.populationRequest, plan.entity);
    var records, records' := Population(a, plan).value, Population(a', plan).value;
    var sources, sources' := SourcesOf(a, plan.references, plan.windows), SourcesOf(a', plan.references, plan.windows);
    BundlesInOrder(a, plan, sources, records, n);
    BundlesInOrder(a', plan, sources', records', n);
    SourcesAgain(a, a', plan.references, plan.windows, records[n]);
    VerdictKept(rule, a, a', plan, sources, sources', records[n], records'[n], s, s');
  }

  /** A PASS of a `none` rule that reads a collection is that collection's judgement. */
  lemma PassIsJudged(rule: Rule, b: Bundle, s: Settings, k: nat, entity: string)
    requires rule.assertion.mode.NoneOf? && RecordOutcome(rule, b, s).PASS?
    requires k < |rule.assertion.predicates| && Reads(rule.assertion.predicates[k], entity) && entity in b.related
    ensures Judged(rule.assertion.predicates, b, s).PASS?
  {
    hide Judged, Combined, Reads;
    assert CollectionRead(rule.assertion.predicates, b, entity);
    assert entity in CollectionsRead(rule.assertion.predicates, b);
  }

  /** What a run makes of a record speaks for the world nobody fetched. Gather a whole run's
      evidence and evaluate one record of it: if a rule about its related records PASSes, then any
      record of the world that is this record's and satisfies one of the rule's questions does so
      before the day of asking, and touches no day of the window it was fetched for - however the
      record's own evidence and the settings turn out to read. */
  lemma RunPassHoldsOfTheWorld(rule: Rule, a: Adapter, plan: Plan, s: Settings, n: nat, k: nat, entity: string,
                               dates: set<string>, world: iset<Remote>, truth: Remote, b': Bundle, s': Settings)
    requires GatherDirectly(a, plan).EvidenceSet?
    requires n < |Population(a, plan).value|
    requires rule.assertion.mode.NoneOf? && RecordOutcome(rule, GatherDirectly(a, plan).bundles[n], s).PASS?
    requires k < |rule.assertion.predicates| && Reads(rule.assertion.predicates[k], entity)
    requires ReadsOnly(rule.assertion.predicates[k], entity, Wanted(plan, entity), dates)
    requires var sources := SourcesOf(a, plan.references, plan.windows);
             && entity in sources && sources[entity].Joinable? && sources[entity].kind.Collection?
             && var key := Resolve(sources[entity].local, Population(a, plan).value[n]);
             && (sources[entity].window.Some? ==>
                HoldsAllTouching(sources[entity].records, world, dates, sources[entity].window.value))
             && truth in world && HasKey(key) && KeyedBy(truth, sources[entity].remote, Str(key.payload))
    requires var b := GatherDirectly(a, plan).bundles[n];
             FieldsRefine(b.fields, b'.fields) && b'.related.Keys == b.related.Keys && SettingsRefine(s, s')
    ensures var b := GatherDirectly(a, plan).bundles[n];
            && entity in b.windows
            && var v := View(b', entity, Project(truth, Wanted(plan, entity)));
               Evaluate(rule.assertion.predicates[k], v, s').Yes? ==>
                 Lt(DayAsked(rule.assertion.predicates[k], v), b.windows[entity].askedOn)
                 && !Touches(truth, dates, b.windows[entity])
  {
    hide Judged, RecordOutcome, Evaluate, Touches, HoldsAllTouching, FieldsOf, UnplacedOf, Gather.Matches, ReadsOnly,
      Gathered, Reads;
    var records, sources := Population(a, plan).value, SourcesOf(a, plan.references, plan.windows);
    var src, record := sources[entity], records[n];
    BundlesInOrder(a, plan, sources, records, n);
    var b := BundleOf(a, plan, sources, record);
    GatherFillsCollections(a, plan, sources, record, entity);
    PassIsJudged(rule, b, s, k, entity);
    PassHoldsOfTheWorld(rule.assertion.predicates, k, b, b', s, s', entity, src.remote, Resolve(src.local, record),
                        src.records, Wanted(plan, entity), dates, world, truth);
  }
}
