/** When a verdict about a group can no longer change (hotelcontrols/evaluator/population.py). */
module PopulationFinality {
  import opened Basics
  import opened Texts
  import opened Values
  import opened Rules
  import opened Bundles
  import opened Predicates
  import opened Collections
  import opened Records
  import opened Population
  import opened PopulationTheorems

  ghost predicate RaisesOn(pop: Population)
  {
    PopulationRaises(pop.rule, pop.bundles, pop.settings)
  }

  ghost function Told(pop: Population, i: nat): Outcome
    requires i < |pop.bundles| && (pop.rule.assertion.mode.Aggregate? ==> AggregateRule(pop.rule))
  {
    PopulationOutcome(pop.rule, pop.bundles, pop.settings, i)
  }

  // ------------------------------------------------------------------ every verdict, either kind of rule
  /** The verdicts of a whole evaluation survive completion, unless evaluating the completed evidence
      raises: FAIL and EXCLUDED always, a PASS of one record always, and a PASS of a group wherever
      no record with an unread key, not already excluded, turns out to share the key. */
  lemma PopulationVerdictsStable(a: Population, b: Population, i: nat)
    requires PopulationRefines(a, b) && i < |a.bundles| && !RaisesOn(a)
    requires a.rule.assertion.mode.Aggregate? ==> AggregateRule(a.rule)
    requires Conclusive(Told(a, i))
    requires a.rule.assertion.mode.Aggregate? && Told(a, i).PASS? ==> a.Key(i).Some? && KeysHeld(a, b, a.Key(i).value)
    ensures RaisesOn(b) || Told(b, i) == Told(a, i)
  {
    hide RecordOutcome, Settles;
    if a.rule.assertion.mode.Aggregate? {
      PopulationStable(a, b, i);
    } else {
      RecordStable(a.rule, a.bundles[i], b.bundles[i], a.settings, b.settings);
    }
  }

  /** Every clause the evaluation applies is well-typed on every record. */
  ghost predicate WellTypedPopulation(pop: Population)
  {
    var rule, s := pop.rule, pop.settings;
    if rule.assertion.mode.Aggregate? then
      forall n, b | b in pop.bundles ::
        && (0 <= n < |rule.scope| ==> WellTyped(rule.scope[n], b, s))
        && (0 <= n < |rule.exceptions| ==> WellTyped(rule.exceptions[n], b, s))
    else
      forall b :: b in pop.bundles ==> WellTypedRule(rule, b, s)
  }

  lemma TypedClause(clause: seq<Predicate>, b: Bundle, s: Settings, through: Holds)
    requires forall n :: 0 <= n < |clause| ==> WellTyped(clause[n], b, s)
    ensures Broken(Answers(clause, b, s), through) != Some(RAISED)
  {
    forall n | 0 <= n < |clause|
      ensures !Answers(clause, b, s)[n].Raises?
    {
      WellTypedNeverRaises(clause[n], b, s);
    }
  }

  lemma TypedNeverRaisesOn(pop: Population)
    requires WellTypedPopulation(pop)
    ensures !RaisesOn(pop)
  {
    hide RecordOutcome, WellTyped, WellTypedRule;
    forall i: nat | i < |pop.bundles|
      ensures pop.rule.assertion.mode.Aggregate? ==> Settles(pop.rule, pop.bundles[i], pop.settings) != Some(RAISED)
      ensures !pop.rule.assertion.mode.Aggregate? ==> !RecordOutcome(pop.rule, pop.bundles[i], pop.settings).RAISED?
    {
      var b := pop.bundles[i];
      assert b in pop.bundles;
      if pop.rule.assertion.mode.Aggregate? {
        TypedClause(pop.rule.scope, b, pop.settings, Yes);
        TypedClause(pop.rule.exceptions, b, pop.settings, No);
      } else {
        TypedNeverRaises(pop.rule, b, pop.settings);
      }
    }
  }

  /** With well-typed later evidence the verdicts survive exactly. */
  lemma TypedPopulationStable(a: Population, b: Population, i: nat)
    requires PopulationRefines(a, b) && i < |a.bundles| && !RaisesOn(a) && WellTypedPopulation(b)
    requires a.rule.assertion.mode.Aggregate? ==> AggregateRule(a.rule)
    requires Conclusive(Told(a, i))
    requires a.rule.assertion.mode.Aggregate? && Told(a, i).PASS? ==> a.Key(i).Some? && KeysHeld(a, b, a.Key(i).value)
    ensures !RaisesOn(b) && Told(b, i) == Told(a, i)
  {
    TypedNeverRaisesOn(b);
    PopulationVerdictsStable(a, b, i);
  }

  // ------------------------------------------------------------------ reading the unread keys
  /** Some records' unread keys, read as values that name this key. */
  ghost predicate KeyReading(a: Population, key: string, read: map<nat, Value>)
    requires AggregateRule(a.rule)
  {
    forall i | i in read ::
      i < |a.bundles| && a.Key(i).None? && read[i].Known? && Str(read[i].payload) == key
  }

  function WithKey(b: Bundle, name: string, v: Value): Bundle
  {
    b.(fields := b.fields[name := v])
  }

  /** The same population with those keys read, and nothing else. */
  function ReadAs(a: Population, read: map<nat, Value>): (r: Population)
    requires AggregateRule(a.rule)
    ensures r.rule == a.rule && r.settings == a.settings && |r.bundles| == |a.bundles|
    ensures forall i :: 0 <= i < |a.bundles| ==>
              r.bundles[i] == if i in read then WithKey(a.bundles[i], a.rule.assertion.groupBy.value, read[i])
                else a.bundles[i]
  {
    var name := a.rule.assertion.groupBy.value;
    a.(bundles := seq(|a.bundles|, i requires 0 <= i < |a.bundles| =>
         if i in read then WithKey(a.bundles[i], name, read[i]) else a.bundles[i]))
  }

  /** Every collection belongs to a named entity. */
  ghost predicate Collected(a: Population)
  {
    forall i :: 0 <= i < |a.bundles| ==> "" !in a.bundles[i].related
  }

  lemma WithKeyRefines(b: Bundle, name: string, v: Value)
    requires "" !in b.related && IdOf(name, b).None?
    ensures BundleRefines(b, WithKey(b, name, v))
  {
    hide CollectionRefines;
    BundleRefinesItself(b);
    var c := WithKey(b, name, v);
    forall entity | entity in b.related
      ensures CollectionRefines(b, c, entity)
    {
      assert CollectionRefines(b, b, entity);
      SameCollection(b, c, entity);
    }
  }

  lemma SameCollection(b: Bundle, c: Bundle, entity: string)
    requires CollectionRefines(b, b, entity)
    requires c.related == b.related && c.unplaced == b.unplaced && c.joins == b.joins
    ensures CollectionRefines(b, c, entity)
  {
  }

  lemma ReadingRefines(a: Population, key: string, read: map<nat, Value>)
    requires AggregateRule(a.rule) && Collected(a) && KeyReading(a, key, read)
    ensures PopulationRefines(a, ReadAs(a, read))
  {
    hide BundleRefines;
    var r := ReadAs(a, read);
    forall i | 0 <= i < |a.bundles|
      ensures BundleRefines(a.bundles[i], r.bundles[i])
    {
      if i in read {
        WithKeyRefines(a.bundles[i], a.rule.assertion.groupBy.value, read[i]);
      } else {
        BundleRefinesItself(a.bundles[i]);
      }
    }
  }

  // ------------------------------------------------------------------ what raises goes on raising
  lemma RaisesStable(p: Predicate, b: Bundle, b': Bundle, s: Settings, s': Settings)
    requires BundleRefines(b, b') && SettingsRefine(s, s') && Evaluate(p, b, s).Raises?
    ensures Evaluate(p, b', s').Raises?
  {
    hide CollectionRefines, ComparablePair, Less;
    if IsOrdering(p.operator) {
      var left, right := b.fields[p.field], RightHandSide(p, b, s).value;
      RightHandSideRefines(p, b, b', s, s');
      UnknownSides(p.operator, left, right);
      assert b'.fields[p.field] == left && RightHandSide(p, b', s').value == right;
    }
  }

  lemma UnknownSides(op: Operator, left: Value, right: Operand)
    requires IsOrdering(op)
    ensures Ordered(op, left, right).Raises? ==> left.Known? && (right.Evidence? ==> right.value.Known?)
  {
  }

  lemma BrokenRaises(hs: seq<Holds>, hs': seq<Holds>, through: Holds)
    requires |hs| == |hs'| && Definite(through) && Broken(hs, through) == Some(RAISED)
    requires forall j :: 0 <= j < |hs| && !hs[j].CannotTell? ==> hs'[j] == hs[j]
    ensures Broken(hs', through) == Some(RAISED)
  {
    var k, k' := FirstBreak(hs, through, 0), FirstBreak(hs', through, 0);
    assert forall j :: 0 <= j < k ==> hs'[j] == hs[j] == through;
    assert hs'[k] == hs[k];
    assert k' == k;
  }

  lemma ClauseRaises(clause: seq<Predicate>, b: Bundle, b': Bundle, s: Settings, s': Settings, through: Holds)
    requires BundleRefines(b, b') && SettingsRefine(s, s') && Definite(through)
    requires Broken(Answers(clause, b, s), through) == Some(RAISED)
    ensures Broken(Answers(clause, b', s'), through) == Some(RAISED)
  {
    hide Evaluate, BundleRefines, Broken;
    forall j | 0 <= j < |clause| && !Answers(clause, b, s)[j].CannotTell?
      ensures Answers(clause, b', s')[j] == Answers(clause, b, s)[j]
    {
      if Answers(clause, b, s)[j].Raises? {
        RaisesStable(clause[j], b, b', s, s');
      } else {
        AnswersStable(clause, b, b', s, s', j);
      }
    }
    BrokenRaises(Answers(clause, b, s), Answers(clause, b', s'), through);
  }

  /** A record on which evaluating raises goes on raising, however much more is read. */
  lemma RaisedStays(rule: Rule, b: Bundle, b': Bundle, s: Settings, s': Settings)
    requires BundleRefines(b, b') && SettingsRefine(s, s') && Settles(rule, b, s) == Some(RAISED)
    ensures Settles(rule, b', s') == Some(RAISED)
  {
    hide Evaluate, BundleRefines, Broken;
    if Broken(Answers(rule.scope, b, s), Yes).Some? {
      ClauseRaises(rule.scope, b, b', s, s', Yes);
    } else {
      BrokenStable(rule.scope, b, b', s, s', Yes);
      ClauseRaises(rule.exceptions, b, b', s, s', No);
    }
  }

  lemma RaisingStays(a: Population, b: Population)
    requires a.rule.assertion.mode.Aggregate? && PopulationRefines(a, b) && RaisesOn(a)
    ensures RaisesOn(b)
  {
    hide Settles, BundleRefines;
    var i: nat :| i < |a.bundles| && Settles(a.rule, a.bundles[i], a.settings) == Some(RAISED);
    RaisedStays(a.rule, a.bundles[i], b.bundles[i], a.settings, b.settings);
  }

  // ------------------------------------------------------------------ when a PASS of a group is final
  /** However much more is read, this record passes, unless evaluating raises. */
  ghost predicate Final(a: Population, i: nat)
    requires AggregateRule(a.rule) && i < |a.bundles|
  {
    forall b | PopulationRefines(a, b) && !RaisesOn(b) :: b.OutcomeOf(i).PASS?
  }

  /** A refinement, as far as it reads this key where `a` could not. */
  function KeysRead(a: Population, b: Population, key: string): map<nat, Value>
    requires AggregateRule(a.rule) && a.rule == b.rule && |a.bundles| == |b.bundles|
  {
    map i: nat | i < |a.bundles| && a.Key(i).None? && b.Key(i) == Some(key) ::
      b.bundles[i].fields[a.rule.assertion.groupBy.value]
  }

  lemma WithKeyRefinesTo(b: Bundle, c: Bundle, name: string)
    requires BundleRefines(b, c) && name in c.fields
    ensures BundleRefines(WithKey(b, name, c.fields[name]), c)
  {
    hide CollectionRefines;
    forall entity | entity in b.related
      ensures CollectionRefines(WithKey(b, name, c.fields[name]), c, entity)
    {
      SameStart(b, WithKey(b, name, c.fields[name]), c, entity);
    }
  }

  lemma SameStart(b: Bundle, d: Bundle, c: Bundle, entity: string)
    requires CollectionRefines(b, c, entity)
    requires d.related == b.related && d.unplaced == b.unplaced && d.joins == b.joins
    ensures CollectionRefines(d, c, entity)
  {
  }

  lemma KeysReadRefines(a: Population, b: Population, key: string)
    requires AggregateRule(a.rule) && PopulationRefines(a, b)
    ensures KeyReading(a, key, KeysRead(a, b, key)) && PopulationRefines(ReadAs(a, KeysRead(a, b, key)), b)
    ensures KeysHeld(ReadAs(a, KeysRead(a, b, key)), b, key)
  {
    hide BundleRefines, Settles;
    var name, read := a.rule.assertion.groupBy.value, KeysRead(a, b, key);
    var r := ReadAs(a, read);
    forall i | 0 <= i < |a.bundles|
      ensures BundleRefines(r.bundles[i], b.bundles[i])
    {
      if i in read {
        WithKeyRefinesTo(a.bundles[i], b.bundles[i], name);
      }
    }
    forall i: nat | i < |r.bundles| && r.Key(i).None?
      ensures b.Key(i) != Some(key)
    {
      assert i !in read;
    }
  }

  /** A record that passes is counted under a readable key that is certain. */
  lemma PassesInGroup(a: Population, i: nat)
    requires AggregateRule(a.rule) && i < |a.bundles| && a.OutcomeOf(i).PASS?
    ensures a.SettledAs(i).None? && a.Key(i).Some? && i in a.Group(a.Key(i).value) && !a.Uncertain(a.Key(i).value)
    ensures a.GroupOutcome(a.Group(a.Key(i).value), i).PASS?
  {
    hide Evaluate;
  }

  /** A PASS is final exactly when it stands however the unread keys alone are read as its own. */
  lemma FinalIffKeys(a: Population, i: nat)
    requires a.rule.assertion.mode.Aggregate? && AggregateRule(a.rule) && Collected(a)
    requires i < |a.bundles| && a.OutcomeOf(i).PASS?
    ensures a.Key(i).Some? && (Final(a, i) <==>
              forall read | KeyReading(a, a.Key(i).value, read)
                && !RaisesOn(ReadAs(a, read)) :: ReadAs(a, read).OutcomeOf(i).PASS?)
  {
    hide BundleRefines, Settles, KeysHeld;
    PassesInGroup(a, i);
    var key := a.Key(i).value;
    forall read | KeyReading(a, key, read)
      ensures PopulationRefines(a, ReadAs(a, read))
    {
      ReadingRefines(a, key, read);
    }
    if forall read | KeyReading(a, key, read) && !RaisesOn(ReadAs(a, read)) :: ReadAs(a, read).OutcomeOf(i).PASS? {
      forall b | PopulationRefines(a, b) && !RaisesOn(b)
        ensures b.OutcomeOf(i).PASS?
      {
        StandsWhenRead(a, b, i);
      }
    }
  }

  lemma StandsWhenRead(a: Population, b: Population, i: nat)
    requires a.rule.assertion.mode.Aggregate? && AggregateRule(a.rule) && PopulationRefines(a, b) && !RaisesOn(b)
    requires i < |a.bundles| && a.SettledAs(i).None? && a.Key(i).Some?
    requires !RaisesOn(ReadAs(a, KeysRead(a, b, a.Key(i).value))) ==>
               ReadAs(a, KeysRead(a, b, a.Key(i).value)).OutcomeOf(i).PASS?
    ensures b.OutcomeOf(i).PASS?
  {
    hide BundleRefines, Settles, KeysHeld;
    var key := a.Key(i).value;
    var r := ReadAs(a, KeysRead(a, b, key));
    KeysReadRefines(a, b, key);
    if RaisesOn(r) {
      RaisingStays(r, b);
    }
    assert r.Key(i) == Some(key);
    PopulationStable(r, b, i);
  }

  // ------------------------------------------------------------------ one reading decides
  /** Every unread key, read as this one. */
  function Reading(a: Population, key: string): (r: Population)
    requires AggregateRule(a.rule)
    ensures r.rule == a.rule && r.settings == a.settings && |r.bundles| == |a.bundles|
  {
    ReadAs(a, map i: nat | i < |a.bundles| && a.Key(i).None? :: Known(Text(key), None))
  }

  /** A record that may belong and whose key is unread is not settled by reading that key. */
  ghost predicate StaysUnsure(a: Population, key: string)
    requires AggregateRule(a.rule)
  {
    forall i: nat | i < |a.bundles| && a.Key(i).None? && a.SettledAs(i) == Some(UNKNOWN) ::
      Reading(a, key).SettledAs(i) == Some(UNKNOWN)
  }

  lemma MissingShrinks(r: Population, g: set<nat>, h: set<nat>)
    requires AggregateRule(r.rule) && h <= g && forall i :: i in g ==> i < |r.bundles|
    ensures |r.Identifiers(h)| + |h - r.Readable(h)| <= |r.Identifiers(g)| + |g - r.Readable(g)|
  {
    assert r.Identifiers(h) <= r.Identifiers(g);
    Subset(r.Identifiers(h), r.Identifiers(g));
    assert h - r.Readable(h) <= g - r.Readable(g);
    Subset(h - r.Readable(h), g - r.Readable(g));
  }

  /** A PASS of a group is a PASS of every part of it, read further. */
  lemma PassNarrows(r: Population, b: Population, g: set<nat>, h: set<nat>, i: nat)
    requires AggregateRule(r.rule) && r.rule == b.rule && |r.bundles| == |b.bundles|
    requires i in h && h <= g && forall j :: j in g ==> j < |r.bundles|
    requires ReadAlike(r, b, h) && r.GroupOutcome(g, i).PASS?
    ensures b.GroupOutcome(h, i).PASS?
  {
    if r.Ask().operator.CountLte? {
      MissingShrinks(r, g, h);
      RangeNarrows(r, b, h);
    }
  }

  lemma PieceAlike(name: string, group: string, b: Bundle, c: Bundle, v: Value)
    requires FieldsRefine(b.fields, c.fields) && v.Known? && IdOf(group, c) == Some(Str(v.payload))
    ensures IdOf(name, WithKey(b, group, v)).Some? ==> IdOf(name, c) == IdOf(name, WithKey(b, group, v))
  {
    IdStable(name, b, c);
  }

  lemma MemberAlike(a: Population, b: Population, key: string, j: nat)
    requires AggregateRule(a.rule) && PopulationRefines(a, b) && j < |a.bundles| && b.Key(j) == Some(key)
    ensures ReadAlike(Reading(a, key), b, {j}) && Reading(a, key).Key(j) == Some(key)
  {
    hide BundleRefines, Settles;
    var r, name, p := Reading(a, key), a.rule.assertion.groupBy.value, a.Ask();
    if a.Key(j).None? {
      var v := Known(Text(key), None);
      assert r.bundles[j] == WithKey(a.bundles[j], name, v);
      RefinedFields(a.bundles[j], b.bundles[j]);
      PieceAlike(p.field, name, a.bundles[j], b.bundles[j], v);
      if p.operator.NoOverlap? {
        PieceAlike(p.interval.value.start, name, a.bundles[j], b.bundles[j], v);
        PieceAlike(p.interval.value.end, name, a.bundles[j], b.bundles[j], v);
      }
    } else {
      assert r.bundles[j] == a.bundles[j];
      MemberStable(a, b, j);
    }
  }

  lemma RefinedFields(b: Bundle, c: Bundle)
    requires BundleRefines(b, c)
    ensures FieldsRefine(b.fields, c.fields)
  {
  }

  lemma SettledSomehow(rule: Rule, b: Bundle, s: Settings)
    ensures Settles(rule, b, s) in {None, Some(EXCLUDED), Some(UNKNOWN), Some(RAISED)}
  {
    hide Evaluate;
  }

  /** Where one reading passes, whoever holds the key in a refinement is in the reading's group. */
  lemma HolderIsCounted(a: Population, b: Population, key: string, j: nat)
    requires a.rule.assertion.mode.Aggregate? && AggregateRule(a.rule) && Collected(a) && !RaisesOn(a)
    requires PopulationRefines(a, b) && StaysUnsure(a, key) && !Reading(a, key).Uncertain(key)
    requires j < |a.bundles| && b.Key(j) == Some(key) && b.SettledAs(j) in {None, Some(UNKNOWN)}
    ensures b.SettledAs(j).None? && j in Reading(a, key).Group(key)
  {
    hide BundleRefines, Settles;
    var r := Reading(a, key);
    var reading := r.SettledAs(j);
    MemberAlike(a, b, key, j);
    MemberStable(a, b, j);
    SettledSomehow(a.rule, a.bundles[j], a.settings);
    assert a.SettledAs(j) == Some(UNKNOWN) ==> reading == Some(UNKNOWN);
    ReadingRefines(a, key, map i: nat | i < |a.bundles| && a.Key(i).None? :: Known(Text(key), None));
    MemberStable(a, r, j);
  }

  lemma GroupIsPart(a: Population, b: Population, key: string)
    requires a.rule.assertion.mode.Aggregate? && AggregateRule(a.rule) && Collected(a) && !RaisesOn(a)
    requires PopulationRefines(a, b) && StaysUnsure(a, key) && !Reading(a, key).Uncertain(key)
    ensures b.Group(key) <= Reading(a, key).Group(key) && !b.Uncertain(key)
    ensures ReadAlike(Reading(a, key), b, b.Group(key))
  {
    hide BundleRefines, Settles, Reading, RaisesOn, StaysUnsure;
    var r := Reading(a, key);
    forall j: nat | j < |a.bundles| && b.Key(j) == Some(key) && b.SettledAs(j) in {None, Some(UNKNOWN)}
      ensures b.SettledAs(j).None? && j in r.Group(key)
      ensures ReadAlike(r, b, {j})
    {
      HolderIsCounted(a, b, key, j);
      MemberAlike(a, b, key, j);
    }
    assert forall j :: j in b.Group(key) ==> j in {j} && ReadAlike(r, b, {j});
  }

  lemma OneReadingIsEnough(a: Population, b: Population, key: string, i: nat)
    requires a.rule.assertion.mode.Aggregate? && AggregateRule(a.rule) && Collected(a) && !RaisesOn(a)
    requires PopulationRefines(a, b) && StaysUnsure(a, key)
    requires i < |a.bundles| && a.SettledAs(i).None? && a.Key(i) == Some(key) && Reading(a, key).OutcomeOf(i).PASS?
    ensures b.OutcomeOf(i).PASS?
  {
    hide BundleRefines, Settles, RaisesOn, StaysUnsure, ReadAlike;
    var r := Reading(a, key);
    PassesInGroup(r, i);
    assert r.Key(i) == Some(key);
    GroupIsPart(a, b, key);
    MemberStable(a, b, i);
    PassNarrows(r, b, r.Group(key), b.Group(key), i);
  }

  lemma NobodyRaises(a: Population, key: string, j: nat)
    requires a.rule.assertion.mode.Aggregate? && AggregateRule(a.rule)
               && Collected(a) && !RaisesOn(a) && StaysUnsure(a, key)
    requires j < |a.bundles|
    ensures Reading(a, key).SettledAs(j) != Some(RAISED)
  {
    hide BundleRefines, Settles;
    var r := Reading(a, key);
    ReadingRefines(a, key, map i: nat | i < |a.bundles| && a.Key(i).None? :: Known(Text(key), None));
    SettledSomehow(a.rule, a.bundles[j], a.settings);
    MemberStable(a, r, j);
    assert a.SettledAs(j) != Some(RAISED);
    if a.Key(j).Some? {
      assert r.bundles[j] == a.bundles[j];
    }
  }

  lemma ReadingDoesNotRaise(a: Population, key: string)
    requires a.rule.assertion.mode.Aggregate? && AggregateRule(a.rule)
               && Collected(a) && !RaisesOn(a) && StaysUnsure(a, key)
    ensures PopulationRefines(a, Reading(a, key)) && !RaisesOn(Reading(a, key))
  {
    hide BundleRefines, Settles, StaysUnsure, ReadAs;
    var r := Reading(a, key);
    ReadingRefines(a, key, map i: nat | i < |a.bundles| && a.Key(i).None? :: Known(Text(key), None));
    forall j: nat | j < |a.bundles|
      ensures Settles(r.rule, r.bundles[j], r.settings) != Some(RAISED)
    {
      NobodyRaises(a, key, j);
      assert r.SettledAs(j) == Settles(r.rule, r.bundles[j], r.settings);
    }
  }

  /** A PASS is final exactly when it stands with every unread key read as its own: the one
      population to look at before trusting it, wherever reading that key settles nobody. */
  lemma PassIsFinalIff(a: Population, i: nat)
    requires a.rule.assertion.mode.Aggregate? && AggregateRule(a.rule) && Collected(a) && !RaisesOn(a)
    requires i < |a.bundles| && a.OutcomeOf(i).PASS? && a.Key(i).Some? && StaysUnsure(a, a.Key(i).value)
    ensures Final(a, i) <==> Reading(a, a.Key(i).value).OutcomeOf(i).PASS?
    ensures Final(a, i) ==> forall b | PopulationRefines(a, b) :: b.OutcomeOf(i).PASS?
  {
    hide BundleRefines, Settles;
    var key := a.Key(i).value;
    PassesInGroup(a, i);
    ReadingDoesNotRaise(a, key);
    if Reading(a, key).OutcomeOf(i).PASS? {
      forall b | PopulationRefines(a, b)
        ensures b.OutcomeOf(i).PASS?
      {
        OneReadingIsEnough(a, b, key, i);
      }
    }
  }

  // ------------------------------------------------------------------ without reading anything
  predicate Mentions(p: Predicate, name: string)
  {
    p.field == name || p.compareTo == Some(name)
    || (p.interval.Some? && (p.interval.value.start == name || p.interval.value.end == name))
  }

  /** No scope or exception clause, and not the question itself, is about the grouping key. */
  predicate KeyOnlyGroups(rule: Rule)
    requires AggregateRule(rule)
  {
    var name := rule.assertion.groupBy.value;
    && (forall k :: 0 <= k < |rule.scope| ==> !Mentions(rule.scope[k], name))
    && (forall k :: 0 <= k < |rule.exceptions| ==> !Mentions(rule.exceptions[k], name))
    && !Mentions(rule.assertion.predicates[0], name)
  }

  lemma UnmentionedUnread(p: Predicate, b: Bundle, name: string, v: Value, s: Settings)
    requires !Mentions(p, name)
    ensures Evaluate(p, WithKey(b, name, v), s) == Evaluate(p, b, s)
  {
    hide Apply, WithinWindow;
  }

  lemma UnmentionedSettles(rule: Rule, b: Bundle, v: Value, s: Settings)
    requires AggregateRule(rule) && KeyOnlyGroups(rule)
    ensures Settles(rule, WithKey(b, rule.assertion.groupBy.value, v), s) == Settles(rule, b, s)
  {
    hide Evaluate, Broken;
    var name := rule.assertion.groupBy.value;
    var c := WithKey(b, name, v);
    forall k | 0 <= k < |rule.scope|
      ensures Answers(rule.scope, c, s)[k] == Answers(rule.scope, b, s)[k]
    {
      UnmentionedUnread(rule.scope[k], b, name, v, s);
    }
    forall k | 0 <= k < |rule.exceptions|
      ensures Answers(rule.exceptions, c, s)[k] == Answers(rule.exceptions, b, s)[k]
    {
      UnmentionedUnread(rule.exceptions[k], b, name, v, s);
    }
    assert Answers(rule.scope, c, s) == Answers(rule.scope, b, s);
    assert Answers(rule.exceptions, c, s) == Answers(rule.exceptions, b, s);
  }

  /** The records in play that are counted against no group, their key being unread. */
  function Keyless(a: Population): (g: set<nat>)
    requires AggregateRule(a.rule)
    ensures forall i :: i in g ==> i < |a.bundles|
  {
    set i: nat | i < |a.bundles| && a.SettledAs(i) == None && a.Key(i) == None
  }

  lemma SameInReading(a: Population, key: string, j: nat)
    requires AggregateRule(a.rule) && KeyOnlyGroups(a.rule) && j < |a.bundles|
    ensures Reading(a, key).SettledAs(j) == a.SettledAs(j) && Reading(a, key).Id(j) == a.Id(j)
    ensures Reading(a, key).Key(j) == if a.Key(j).None? then Some(key) else a.Key(j)
    ensures a.Ask().operator.NoOverlap? ==> Reading(a, key).Stay(j) == a.Stay(j)
  {
    hide Settles;
    UnmentionedSettles(a.rule, a.bundles[j], Known(Text(key), None), a.settings);
  }

  lemma SameAnswer(a: Population, b: Population, g: set<nat>, i: nat)
    requires AggregateRule(a.rule) && a.rule == b.rule && |a.bundles| == |b.bundles|
    requires i in g && forall j :: j in g ==> j < |a.bundles|
    requires ReadAlike(a, b, g) && ReadAlike(b, a, g) && b.GroupOutcome(g, i).PASS?
    ensures a.GroupOutcome(g, i).PASS?
  {
    PassNarrows(b, a, g, g, i);
  }

  /** The same, of the verdicts' own evidence: where the grouping key only groups, a PASS is final
      exactly when no record that may belong has an unread key and the group still passes with every
      keyless record counted in. */
  lemma PassIsFinalIffKeyless(a: Population, i: nat)
    requires a.rule.assertion.mode.Aggregate? && AggregateRule(a.rule) && KeyOnlyGroups(a.rule)
    requires Collected(a) && !RaisesOn(a)
    requires i < |a.bundles| && a.OutcomeOf(i).PASS? && a.Key(i).Some? && i in a.Group(a.Key(i).value)
    ensures Final(a, i) <==>
              && (forall j: nat | j < |a.bundles| && a.SettledAs(j) == Some(UNKNOWN) :: a.Key(j).Some?)
              && a.GroupOutcome(a.Group(a.Key(i).value) + Keyless(a), i).PASS?
  {
    hide BundleRefines, Settles;
    var key := a.Key(i).value;
    var r := Reading(a, key);
    forall j: nat | j < |a.bundles|
      ensures r.SettledAs(j) == a.SettledAs(j) && r.Id(j) == a.Id(j)
      ensures r.Key(j) == if a.Key(j).None? then Some(key) else a.Key(j)
      ensures a.Ask().operator.NoOverlap? ==> r.Stay(j) == a.Stay(j)
    {
      SameInReading(a, key, j);
    }
    PassIsFinalIff(a, i);
    PassesInGroup(a, i);
    var g := a.Group(key) + Keyless(a);
    assert r.Group(key) == g;
    assert ReadAlike(a, r, g) && ReadAlike(r, a, g);
    if a.GroupOutcome(g, i).PASS? { SameAnswer(r, a, g, i); }
    if r.GroupOutcome(g, i).PASS? { SameAnswer(a, r, g, i); }
    assert r.OutcomeOf(i).PASS? <==> !r.Uncertain(key) && r.GroupOutcome(g, i).PASS?;
    forall j: nat | j < |a.bundles| && a.SettledAs(j) == Some(UNKNOWN) && a.Key(j).None?
      ensures r.Uncertain(key)
    {
      assert r.SettledAs(j) == Some(UNKNOWN) && r.Key(j) == Some(key);
    }
    if r.Uncertain(key) {
      var j: nat :| j < |a.bundles| && r.SettledAs(j) == Some(UNKNOWN) && r.Key(j) == Some(key);
      assert a.Key(j).None?;
    }
  }
}
