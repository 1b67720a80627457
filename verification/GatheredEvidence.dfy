/** What a run's evidence holds, read off the provider's own responses
    (hotelcontrols/evidence/gather.py, hotelcontrols/evidence/reference.py). */
module GatheredEvidence {
  import opened Basics
  import opened Texts
  import opened Values
  import opened Rules
  import opened Bundles
  import opened References
  import opened World
  import opened Cache
  import opened Gather

  // ------------------------------------------------------------------ one reference
  /** The provider is asked for this reference, answers, and its answer can be cut into the entity. */
  predicate Had(a: Adapter, r: Reference)
  {
    && !r.fromTenant && r.entity in a.referenceRequests
    && a.fetch(a.referenceRequests[r.entity]).Ok?
    && r.entity in a.fetch(a.referenceRequests[r.entity]).value.cuts
  }

  function RecordsOf(a: Adapter, r: Reference): seq<Remote>
    requires Had(a, r)
  {
    a.fetch(a.referenceRequests[r.entity]).value.cuts[r.entity]
  }

  /** The last reference to an entity is the one that counts. */
  predicate LastTo(rs: seq<Reference>, i: nat, entity: string)
  {
    i < |rs| && rs[i].entity == entity && forall j :: i < j < |rs| ==> rs[j].entity != entity
  }

  predicate Referenced(rs: seq<Reference>, entity: string)
  {
    exists i :: 0 <= i < |rs| && rs[i].entity == entity
  }

  // ------------------------------------------------------------------ keys
  /** This field is read, says neither "no" nor "not applicable", and its text is the key. */
  predicate Keyed(record: Remote, field: string, key: string)
  {
    && field in record && record[field].Known?
    && record[field].payload != Flag(false) && !record[field].payload.NotApplicable?
    && Str(record[field].payload) == key
  }

  ghost predicate Keyless(record: Remote, field: string)
  {
    forall key :: !Keyed(record, field, key)
  }

  function NameOr(name: Option<string>): string
  {
    match name
    case Some(text) => text
    case None => ""
  }

  predicate Joins(record: Remote, r: Reference, other: Remote, key: string)
  {
    Keyed(record, NameOr(r.localField), key) && Keyed(other, NameOr(r.remoteField), key)
  }

  /** Some key joins these two records. */
  ghost predicate Joined(record: Remote, r: Reference, other: Remote)
  {
    exists key :: Joins(record, r, other, key)
  }

  ghost predicate FirstJoined(record: Remote, r: Reference, others: seq<Remote>, k: nat)
  {
    k < |others| && Joined(record, r, others[k]) && forall j: nat :: j < k ==> !Joined(record, r, others[j])
  }

  ghost predicate SomeJoined(record: Remote, r: Reference, others: seq<Remote>)
  {
    exists k :: 0 <= k < |others| && Joined(record, r, others[k])
  }

  // ------------------------------------------------------------------ what is said
  /** A field of a response: what it says there, or nothing known. */
  predicate ReadSays(record: Remote, name: string, v: Value)
  {
    if name in record then v == record[name] else v.Unknown?
  }

  /** The known values of one field across a response. */
  ghost predicate ValuesSay(records: seq<Remote>, field: string, items: seq<Payload>)
  {
    forall p :: p in items <==>
      exists k :: 0 <= k < |records| && field in records[k]
        && records[k][field].Known? && records[k][field].payload == p
  }

  /** A field that lives in a reference. */
  ghost predicate ThroughSays(a: Adapter, r: Reference, record: Remote, name: string, v: Value)
  {
    if !Had(a, r) then v.Unknown?
    else if r.kind.ValueSet? then
      v.Known? && v.payload.Tuple? && v.unit.None? && ValuesSay(RecordsOf(a, r), NameOr(r.setField), v.payload.items)
    else if r.kind.Collection? || !SomeJoined(record, r, RecordsOf(a, r)) then v.Unknown?
    else exists k: nat :: FirstJoined(record, r, RecordsOf(a, r), k) && ReadSays(RecordsOf(a, r)[k], name, v)
  }

  /** A field that lives in a response of the record's own. */
  predicate FollowSays(a: Adapter, record: Remote, name: string, v: Value)
  {
    var id := a.identity(record);
    if id.Known? && a.followUp(name, id.payload).Some? && a.fetch(a.followUp(name, id.payload).value).Ok?
    then ReadSays(a.fetch(a.followUp(name, id.payload).value).value.body, name, v)
    else v.Unknown?
  }

  ghost predicate FieldSays(a: Adapter, plan: Plan, record: Remote, name: string, v: Value)
  {
    if Referenced(plan.references, EntityOf(name)) then
      exists i: nat ::
        LastTo(plan.references, i, EntityOf(name)) && ThroughSays(a, plan.references[i], record, name, v)
    else if a.sourceKey(name) == a.populationKey then ReadSays(record, name, v)
    else FollowSays(a, record, name, v)
  }

  /** Whether a reference resolves for a record. */
  ghost predicate JoinSays(a: Adapter, r: Reference, record: Remote, v: Value)
  {
    if r.kind.ValueSet? then v == Known(Flag(Had(a, r)), None)
    else if !Had(a, r) || Keyless(record, NameOr(r.localField)) then v.Unknown?
    else if SomeJoined(record, r, RecordsOf(a, r)) then v == Known(Flag(true), None)
    else v == Known(Flag(false), None)
  }

  /** A record of a collection, as far as the rule reads it. */
  ghost predicate Shown(plan: Plan, entity: string, other: Remote, x: Record)
  {
    && (forall name :: name in x <==> name in plan.evidence && EntityOf(name) == entity)
    && (forall name :: name in x ==> ReadSays(other, name, x[name]))
  }

  /** Each of these records that is meant is shown, and nothing else is. */
  ghost predicate ShowJust(plan: Plan, entity: string, records: seq<Remote>, meant: iset<Remote>, xs: seq<Record>)
  {
    && (forall x :: x in xs ==> exists k ::
          0 <= k < |records| && records[k] in meant && Shown(plan, entity, records[k], x))
    && (forall k :: 0 <= k < |records| && records[k] in meant ==>
          exists x :: x in xs && Shown(plan, entity, records[k], x))
  }

  /** The records of a collection that join to this one. */
  ghost predicate RelatedSay(a: Adapter, plan: Plan, r: Reference, record: Remote, xs: seq<Record>)
  {
    if !Had(a, r) then xs == []
    else ShowJust(plan, r.entity, RecordsOf(a, r), (iset other: Remote | Joined(record, r, other)), xs)
  }

  predicate KeyUnread(other: Remote, field: string)
  {
    field !in other || other[field].Unknown?
  }

  /** The records of a collection whose own key cannot be read. */
  ghost predicate UnplacedSay(a: Adapter, plan: Plan, r: Reference, xs: seq<Record>)
  {
    if !Had(a, r) then xs == []
    else ShowJust(plan, r.entity, RecordsOf(a, r), (iset other: Remote | KeyUnread(other, NameOr(r.remoteField))), xs)
  }

  /** What the evidence says of one reference of one record. */
  ghost predicate ReferenceSays(a: Adapter, plan: Plan, r: Reference, record: Remote, b: Bundle)
  {
    && r.entity in b.joins && JoinSays(a, r, record, b.joins[r.entity])
    && (r.entity in b.related <==> r.kind.Collection?)
    && (r.kind.Collection? ==> RelatedSay(a, plan, r, record, b.related[r.entity]))
    && UnplacedSays(a, plan, r, b)
    && (r.entity in b.windows <==> r.kind.Collection? && Had(a, r) && r.entity in plan.windows)
    && (r.entity in b.windows ==> b.windows[r.entity] == plan.windows[r.entity])
  }

  ghost predicate UnplacedSays(a: Adapter, plan: Plan, r: Reference, b: Bundle)
  {
    if r.kind.Collection? then UnplacedSay(a, plan, r, Unplaced(b, r.entity)) else Unplaced(b, r.entity) == []
  }

  /** A record's evidence: who it is, each field the rule names and each reference. */
  ghost predicate BundleSays(a: Adapter, plan: Plan, record: Remote, b: Bundle)
  {
    var id := a.identity(record);
    && b.entity == plan.entity && b.recordId == (if id.Known? then Some(Str(id.payload)) else None)
    && (forall name :: name in b.fields <==> name in plan.evidence)
    && (forall name :: name in b.fields ==> FieldSays(a, plan, record, name, b.fields[name]))
    && (forall entity :: entity in b.joins <==> Referenced(plan.references, entity))
    && (forall i: nat :: i < |plan.references| && LastTo(plan.references, i, plan.references[i].entity) ==>
          ReferenceSays(a, plan, plan.references[i], record, b))
  }

  // ------------------------------------------------------------------ references
  lemma {:induction false} LastIsSource(a: Adapter, rs: seq<Reference>, windows: map<string, Window>, entity: string)
    returns (i: nat)
    requires entity in SourcesOf(a, rs, windows)
    ensures LastTo(rs, i, entity) && SourcesOf(a, rs, windows)[entity] == SourceOf(a, rs[i], windows)
  {
    hide SourceOf;
    var n := |rs| - 1;
    if rs[n].entity == entity {
      i := n;
    } else {
      i := LastIsSource(a, rs[..n], windows, entity);
      assert rs[..n][i] == rs[i];
      forall j | i < j < |rs| ensures rs[j].entity != entity {
        assert j < n ==> rs[..n][j] == rs[j];
      }
    }
  }

  lemma {:induction false} SourcesAre(a: Adapter, rs: seq<Reference>, windows: map<string, Window>, entity: string)
    ensures entity in SourcesOf(a, rs, windows) <==> Referenced(rs, entity)
  {
    hide SourceOf;
    if rs != [] {
      var n := |rs| - 1;
      SourcesAre(a, rs[..n], windows, entity);
      assert forall i :: 0 <= i < n ==> rs[..n][i] == rs[i];
      if Referenced(rs, entity) && rs[n].entity != entity {
        var i :| 0 <= i < |rs| && rs[i].entity == entity;
        assert rs[..n][i].entity == entity;
      }
    }
  }

  lemma OneLast(rs: seq<Reference>, i: nat, j: nat, entity: string)
    requires LastTo(rs, i, entity) && LastTo(rs, j, entity)
    ensures i == j
  {
  }

  /** What a reference comes to. */
  lemma SourceMeans(a: Adapter, r: Reference, windows: map<string, Window>)
    ensures var s := SourceOf(a, r, windows);
            if !Had(a, r) then s == Missing(r.kind)
            else if r.kind.ValueSet? then s.Listed? && ValuesSay(RecordsOf(a, r), NameOr(r.setField), s.items)
            else s == Joinable(r.kind, RecordsOf(a, r), NameOr(r.localField), NameOr(r.remoteField),
                               if r.entity in windows then Some(windows[r.entity]) else None)
  {
    hide KnownPayloads, ValuesSay;
    if Had(a, r) && r.kind.ValueSet? {
      KnownPayloadsAre(RecordsOf(a, r), NameOr(r.setField));
    }
  }

  lemma {:induction false} KnownPayloadsAre(records: seq<Remote>, field: string)
    ensures ValuesSay(records, field, KnownPayloads(records, field))
  {
    if records != [] {
      var n := |records| - 1;
      KnownPayloadsAre(records[..n], field);
      assert forall k :: 0 <= k < n ==> records[..n][k] == records[k];
      forall p ensures p in KnownPayloads(records, field) <==>
        exists k :: 0 <= k < |records| && field in records[k]
          && records[k][field].Known? && records[k][field].payload == p
      {
        if p in KnownPayloads(records[..n], field) {
          var k :| 0 <= k < n && field in records[..n][k] && records[..n][k][field].Known?
            && records[..n][k][field].payload == p;
          assert records[k][field].payload == p;
        }
        if k :| 0 <= k < n && field in records[k] && records[k][field].Known? && records[k][field].payload == p {
          assert records[..n][k][field].payload == p;
        }
      }
    }
  }

  // ------------------------------------------------------------------ keys
  lemma KeyMeans(record: Remote, field: string, key: string)
    ensures KeyedBy(record, field, key) <==> Keyed(record, field, key)
  {
  }

  lemma HasKeyMeans(record: Remote, field: string)
    ensures HasKey(Resolve(field, record)) <==> !Keyless(record, field)
    ensures HasKey(Resolve(field, record)) ==> Keyed(record, field, Str(Resolve(field, record).payload))
  {
    if HasKey(Resolve(field, record)) {
      KeyMeans(record, field, Str(Resolve(field, record).payload));
    }
  }

  /** Two records are joined by the one key this record names. */
  lemma JoinedMeans(record: Remote, r: Reference, other: Remote)
    ensures Joined(record, r, other) <==>
              HasKey(Resolve(NameOr(r.localField), record))
              && KeyedBy(other, NameOr(r.remoteField), Str(Resolve(NameOr(r.localField), record).payload))
  {
    var local := NameOr(r.localField);
    HasKeyMeans(record, local);
    if HasKey(Resolve(local, record)) {
      var key := Str(Resolve(local, record).payload);
      KeyMeans(other, NameOr(r.remoteField), key);
      assert Joins(record, r, other, key) <==> Keyed(other, NameOr(r.remoteField), key);
    }
  }

  predicate MatchedIn(s: Source, record: Remote, other: Remote)
  {
    && s.Joinable? && HasKey(Resolve(s.local, record))
    && KeyedBy(other, s.remote, Str(Resolve(s.local, record).payload))
  }

  /** The records a source joins to are those some key joins. */
  lemma MatchesMean(record: Remote, r: Reference, s: Source)
    requires s.Joinable? && s.local == NameOr(r.localField) && s.remote == NameOr(r.remoteField)
    ensures forall other :: other in Matches(s, record) <==> other in s.records && Joined(record, r, other)
    ensures Matches(s, record) != [] <==> SomeJoined(record, r, s.records)
    ensures Keyless(record, s.local) ==> Matches(s, record) == []
  {
    hide Joined, KeyedBy, Keyless;
    HasKeyMeans(record, s.local);
    forall other ensures other in Matches(s, record) <==> other in s.records && Joined(record, r, other) {
      JoinedMeans(record, r, other);
    }
    if Matches(s, record) != [] {
      assert Matches(s, record)[0] in Matches(s, record);
    }
  }

  lemma FirstMatch(record: Remote, r: Reference, s: Source)
    requires s.Joinable? && s.local == NameOr(r.localField) && s.remote == NameOr(r.remoteField)
    requires Matches(s, record) != []
    ensures exists k: nat ::
              k < |s.records| && FirstJoined(record, r, s.records, k) && Matches(s, record)[0] == s.records[k]
  {
    hide Joined, KeyedBy, Scan;
    var key := Str(Resolve(s.local, record).payload);
    var k := FirstExists(s.records, s.remote, key);
    FirstIsScanned(s.records, s.remote, key, k);
    forall j: nat | j <= k ensures Joined(record, r, s.records[j]) <==> j == k {
      JoinedMeans(record, r, s.records[j]);
    }
    assert FirstJoined(record, r, s.records, k);
  }

  // ------------------------------------------------------------------ fields
  lemma ReadMeans(record: Remote, name: string)
    ensures ReadSays(record, name, Resolve(name, record))
  {
  }

  lemma ThroughMeans(a: Adapter, r: Reference, windows: map<string, Window>, record: Remote, name: string)
    ensures ThroughSays(a, r, record, name, ThroughReference(name, record, SourceOf(a, r, windows)))
  {
    hide Matches, SomeJoined, FirstJoined, ValuesSay, Had, SourceOf, Keyless, ReadSays, Resolve;
    var s := SourceOf(a, r, windows);
    SourceMeans(a, r, windows);
    if s.Joinable? {
      MatchesMean(record, r, s);
      HasKeyMeans(record, s.local);
      if Matches(s, record) != [] {
        FirstMatch(record, r, s);
        var k: nat :| k < |s.records| && FirstJoined(record, r, s.records, k) && Matches(s, record)[0] == s.records[k];
        ReadMeans(s.records[k], name);
      }
    }
  }

  lemma FieldMeans(a: Adapter, plan: Plan, record: Remote, name: string)
    ensures FieldSays(a, plan, record, name, FieldValue(a, SourcesOf(a, plan.references, plan.windows), record, name))
  {
    hide SourcesOf, SourceOf, ThroughReference, ThroughSays, LastTo, Referenced;
    SourcesAre(a, plan.references, plan.windows, EntityOf(name));
    if EntityOf(name) in SourcesOf(a, plan.references, plan.windows) {
      var i := LastIsSource(a, plan.references, plan.windows, EntityOf(name));
      LastIsThere(plan.references, i, EntityOf(name));
      ThroughMeans(a, plan.references[i], plan.windows, record, name);
    }
  }

  lemma LastIsThere(rs: seq<Reference>, i: nat, entity: string)
    requires LastTo(rs, i, entity)
    ensures i < |rs| && rs[i].entity == entity
  {
  }

  lemma {:induction false} FieldsAre(a: Adapter, sources: Sources, record: Remote, names: seq<string>)
    ensures var fields := FieldsOf(a, sources, record, names);
            && (forall name :: name in fields <==> name in names)
            && (forall name :: name in fields ==> fields[name] == FieldValue(a, sources, record, name))
  {
    hide FieldValue;
    if names != [] {
      var n := |names| - 1;
      FieldsAre(a, sources, record, names[..n]);
      assert names == names[..n] + [names[n]];
    }
  }

  // ------------------------------------------------------------------ references
  lemma JoinMeans(a: Adapter, r: Reference, windows: map<string, Window>, record: Remote)
    ensures JoinSays(a, r, record, JoinValue(SourceOf(a, r, windows), record))
  {
    hide Matches, SomeJoined, ValuesSay, Had, SourceOf, Keyless, Resolve;
    var s := SourceOf(a, r, windows);
    SourceMeans(a, r, windows);
    if s.Joinable? {
      MatchesMean(record, r, s);
      HasKeyMeans(record, s.local);
    }
  }

  lemma ShownMeans(plan: Plan, entity: string, other: Remote)
    ensures Shown(plan, entity, other, Project(other, Wanted(plan, entity)))
  {
  }

  lemma RelatedMeans(a: Adapter, plan: Plan, r: Reference, record: Remote)
    requires r.kind.Collection?
    ensures RelatedSay(a, plan, r, record,
                       ProjectAll(Matches(SourceOf(a, r, plan.windows), record), Wanted(plan, r.entity)))
  {
    hide Matches, ValuesSay, Had, SourceOf, Keyless, Joined, ShowJust, Wanted;
    var s := SourceOf(a, r, plan.windows);
    SourceMeans(a, r, plan.windows);
    if s.Joinable? {
      MatchesMean(record, r, s);
      ShownAll(plan, r.entity, s.records, Matches(s, record), (iset other: Remote | Joined(record, r, other)));
    } else {
      NoMatches(s, record);
    }
  }

  lemma NoMatches(s: Source, record: Remote)
    requires !s.Joinable?
    ensures Matches(s, record) == []
  {
  }

  /** Some of a response's records, shown. */
  lemma ShownAll(plan: Plan, entity: string, records: seq<Remote>, some: seq<Remote>, meant: iset<Remote>)
    requires forall other :: other in some <==> other in records && other in meant
    ensures ShowJust(plan, entity, records, meant, ProjectAll(some, Wanted(plan, entity)))
  {
    hide Shown, Project, Wanted;
    var wanted := Wanted(plan, entity);
    var xs := ProjectAll(some, wanted);
    forall x | x in xs
      ensures exists k :: 0 <= k < |records| && records[k] in meant && Shown(plan, entity, records[k], x)
    {
      var i :| 0 <= i < |xs| && xs[i] == x;
      assert some[i] in some;
      var k :| 0 <= k < |records| && records[k] == some[i];
      ShownMeans(plan, entity, records[k]);
    }
    forall k | 0 <= k < |records| && records[k] in meant
      ensures exists x :: x in xs && Shown(plan, entity, records[k], x)
    {
      assert records[k] in some;
      var i :| 0 <= i < |some| && some[i] == records[k];
      ShownMeans(plan, entity, records[k]);
      assert xs[i] == Project(records[k], wanted) && xs[i] in xs;
    }
  }

  lemma UnreadMeans(records: seq<Remote>, field: string)
    ensures forall other :: other in Unreadable(records, field) <==> other in records && KeyUnread(other, field)
  {
  }

  lemma UnplacedMeans(a: Adapter, plan: Plan, r: Reference)
    requires r.kind.Collection?
    ensures UnplacedSay(a, plan, r, ProjectAll(UnplacedIn(SourceOf(a, r, plan.windows)), Wanted(plan, r.entity)))
  {
    hide ValuesSay, Had, SourceOf, ShowJust, Wanted, KeyUnread, Unreadable;
    var s := SourceOf(a, r, plan.windows);
    SourceMeans(a, r, plan.windows);
    if s.Joinable? {
      UnreadMeans(s.records, s.remote);
      ShownAll(plan, r.entity, s.records, UnplacedIn(s), (iset other: Remote | KeyUnread(other, s.remote)));
    }
  }

  lemma ReferenceMeans(a: Adapter, plan: Plan, record: Remote, i: nat)
    requires i < |plan.references| && LastTo(plan.references, i, plan.references[i].entity)
    ensures ReferenceSays(a, plan, plan.references[i], record,
                          BundleOf(a, plan, SourcesOf(a, plan.references, plan.windows), record))
  {
    hide SourcesOf, SourceOf, LastTo, FieldsOf, JoinValue, JoinSays, RelatedSay, UnplacedSay, Matches, UnplacedIn,
      Wanted,
      ValuesSay, Had;
    var r := plan.references[i];
    var sources := SourcesOf(a, plan.references, plan.windows);
    SourcesAre(a, plan.references, plan.windows, r.entity);
    var j := LastIsSource(a, plan.references, plan.windows, r.entity);
    OneLast(plan.references, i, j, r.entity);
    SourceMeans(a, r, plan.windows);
    JoinMeans(a, r, plan.windows, record);
    if r.kind.Collection? {
      RelatedMeans(a, plan, r, record);
      UnplacedMeans(a, plan, r);
      assert ProjectAll([], Wanted(plan, r.entity)) == [];
    } else {
      OnlyCollections(sources[r.entity]);
    }
  }

  lemma OnlyCollections(s: Source)
    requires !KindOf(s).Collection?
    ensures UnplacedIn(s) == []
  {
  }

  // ------------------------------------------------------------------ the whole run
  lemma BundleMeans(a: Adapter, plan: Plan, record: Remote)
    ensures BundleSays(a, plan, record, BundleOf(a, plan, SourcesOf(a, plan.references, plan.windows), record))
  {
    hide SourcesOf, FieldsOf, FieldValue, FieldSays, JoinValue, Referenced, ReferenceSays, LastTo, RelatedOf,
      UnplacedOf,
      WindowsOf;
    var sources := SourcesOf(a, plan.references, plan.windows);
    FieldsAre(a, sources, record, plan.evidence);
    forall name ensures FieldSays(a, plan, record, name, FieldValue(a, sources, record, name)) {
      FieldMeans(a, plan, record, name);
    }
    forall entity ensures entity in sources <==> Referenced(plan.references, entity) {
      SourcesAre(a, plan.references, plan.windows, entity);
    }
    forall i: nat | i < |plan.references| && LastTo(plan.references, i, plan.references[i].entity)
      ensures ReferenceSays(a, plan, plan.references[i], record, BundleOf(a, plan, sources, record))
    {
      ReferenceMeans(a, plan, record, i);
    }
  }

  /** The provider answers the population, and its answer can be cut into the rule's entity. */
  predicate PopulationHad(a: Adapter, plan: Plan)
  {
    a.fetch(a.populationRequest).Ok? && plan.entity in a.fetch(a.populationRequest).value.cuts
  }

  /** Gathering is blocked exactly where the population cannot be had, and otherwise has the evidence
      of each of its records, in order, as the provider's responses say. */
  lemma GatheredMeans(a: Adapter, plan: Plan)
    ensures GatherDirectly(a, plan) == Blocked <==> !PopulationHad(a, plan)
    ensures PopulationHad(a, plan) ==>
              var records := a.fetch(a.populationRequest).value.cuts[plan.entity];
              var g := GatherDirectly(a, plan);
              && g.EvidenceSet? && |g.bundles| == |records|
              && forall i :: 0 <= i < |records| ==> BundleSays(a, plan, records[i], g.bundles[i])
  {
    hide BundlesOf, BundleSays, SourcesOf;
    if PopulationHad(a, plan) {
      var records := a.fetch(a.populationRequest).value.cuts[plan.entity];
      BundlesMean(a, plan, records);
    }
  }

  lemma {:induction false} BundlesMean(a: Adapter, plan: Plan, records: seq<Remote>)
    ensures var bundles := BundlesOf(a, plan, SourcesOf(a, plan.references, plan.windows), records);
            forall i :: 0 <= i < |records| ==> BundleSays(a, plan, records[i], bundles[i])
  {
    hide BundleSays, SourcesOf, BundleOf;
    if records != [] {
      var n := |records| - 1;
      BundlesMean(a, plan, records[..n]);
      BundleMeans(a, plan, records[n]);
    }
  }

  // ------------------------------------------------------------------ what is asked
  predicate AsksForReference(a: Adapter, plan: Plan, q: Request)
  {
    exists r :: r in plan.references && !r.fromTenant
      && r.entity in a.referenceRequests && a.referenceRequests[r.entity] == q
  }

  /** A field of this record lives in a response of its own. */
  predicate NeedsItsOwn(a: Adapter, plan: Plan, record: Remote, name: string, q: Request)
  {
    && !Referenced(plan.references, EntityOf(name)) && a.sourceKey(name) != a.populationKey
    && a.identity(record).Known? && a.followUp(name, a.identity(record).payload) == Some(q)
  }

  predicate RecordAsks(a: Adapter, plan: Plan, record: Remote, names: seq<string>, q: Request)
  {
    exists name :: name in names && NeedsItsOwn(a, plan, record, name, q)
  }

  predicate SomeRecordAsks(a: Adapter, plan: Plan, records: seq<Remote>, q: Request)
  {
    exists record :: record in records && RecordAsks(a, plan, record, plan.evidence, q)
  }

  lemma {:induction false} ReferencesAsk(a: Adapter, rs: seq<Reference>, q: Request)
    ensures q in ReferenceAsks(a, rs) <==>
              exists r :: r in rs && !r.fromTenant
                && r.entity in a.referenceRequests && a.referenceRequests[r.entity] == q
  {
    if rs != [] {
      var n := |rs| - 1;
      ReferencesAsk(a, rs[..n], q);
      assert rs == rs[..n] + [rs[n]];
    }
  }

  lemma FieldAsksMeans(a: Adapter, plan: Plan, record: Remote, name: string, q: Request)
    ensures FieldAsks(a, SourcesOf(a, plan.references, plan.windows), record, name) == Some(q) <==>
              NeedsItsOwn(a, plan, record, name, q)
  {
    hide SourcesOf, Referenced;
    SourcesAre(a, plan.references, plan.windows, EntityOf(name));
  }

  lemma {:induction false} FieldsAskMean(a: Adapter, plan: Plan, record: Remote, names: seq<string>, q: Request)
    ensures q in FieldsAsk(a, SourcesOf(a, plan.references, plan.windows), record, names) <==>
              RecordAsks(a, plan, record, names, q)
  {
    hide SourcesOf, NeedsItsOwn, FieldAsks;
    if names != [] {
      var n := |names| - 1;
      FieldsAskMean(a, plan, record, names[..n], q);
      FieldAsksMeans(a, plan, record, names[n], q);
      assert names == names[..n] + [names[n]];
    }
  }

  lemma {:induction false} RecordsAskMean(a: Adapter, plan: Plan, records: seq<Remote>, q: Request)
    ensures q in RecordsAsk(a, plan, SourcesOf(a, plan.references, plan.windows), records) <==>
              SomeRecordAsks(a, plan, records, q)
  {
    hide SourcesOf, RecordAsks, FieldsAsk;
    if records != [] {
      var n := |records| - 1;
      RecordsAskMean(a, plan, records[..n], q);
      FieldsAskMean(a, plan, records[n], plan.evidence, q);
      assert records == records[..n] + [records[n]];
    }
  }

  /** A run asks for its population and, where that can be had, for each reference the provider offers
      and for each field of each record that lives in a response of its own; and for nothing else. */
  lemma AskedIff(a: Adapter, plan: Plan, q: Request)
    ensures q in Asks(a, plan) <==>
              || q == a.populationRequest
              || (PopulationHad(a, plan)
                  && (AsksForReference(a, plan, q)
                      || SomeRecordAsks(a, plan, a.fetch(a.populationRequest).value.cuts[plan.entity], q)))
  {
    hide RecordsAsk, SourcesOf, SomeRecordAsks, ReferenceAsks;
    ReferencesAsk(a, plan.references, q);
    if PopulationHad(a, plan) {
      RecordsAskMean(a, plan, a.fetch(a.populationRequest).value.cuts[plan.entity], q);
    }
  }
}
