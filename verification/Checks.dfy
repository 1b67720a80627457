/** The structural half of the validator, and the evidence the compiler derives
    (hotelcontrols/spec/ir.py, hotelcontrols/compiler/grammar.py). */
module Checks {
  import opened Basics
  import opened Rules
  import opened Grammar
  import opened WellFormed

  // ------------------------------------------------------------------ the fields a rule names
  function Given(name: Option<string>): seq<string>
  {
    if name.Some? then [name.value] else []
  }

  function PredicateFields(p: Predicate): seq<string>
  {
    [p.field] + Given(p.compareTo) + if p.interval.Some? then [p.interval.value.start, p.interval.value.end] else []
  }

  function AllPredicateFields(ps: seq<Predicate>): seq<string>
  {
    if ps == [] then [] else AllPredicateFields(ps[..|ps| - 1]) + PredicateFields(ps[|ps| - 1])
  }

  function ReferenceFields(r: Reference): seq<string>
  {
    Given(r.localField) + Given(r.remoteField) + Given(r.setField)
  }

  function AllReferenceFields(rs: seq<Reference>): seq<string>
  {
    if rs == [] then [] else AllReferenceFields(rs[..|rs| - 1]) + ReferenceFields(rs[|rs| - 1])
  }

  /** Every field the rule names, in the order the compiler visits them. */
  function NamesInOrder(l: Logic): seq<string>
  {
    AllReferenceFields(l.rule.references)
    + AllPredicateFields(l.rule.scope) + AllPredicateFields(l.rule.exceptions)
    + Given(l.rule.assertion.groupBy) + AllPredicateFields(l.rule.assertion.predicates)
    + l.showing
  }

  /** Each name once, where it first stands; empty names are nothing. */
  function Once(names: seq<string>): seq<string>
  {
    if names == [] then []
    else
      var before, last := Once(names[..|names| - 1]), names[|names| - 1];
      if last != "" && last !in before then before + [last] else before
  }

  lemma {:induction false} OnceMeans(names: seq<string>)
    ensures forall n :: n in Once(names) <==> n != "" && n in names
    ensures forall i, j :: 0 <= i < j < |Once(names)| ==> Once(names)[i] != Once(names)[j]
  {
    if names != [] {
      OnceMeans(names[..|names| - 1]);
      assert names == names[..|names| - 1] + [names[|names| - 1]];
    }
  }

  lemma OnceNext(names: seq<string>, name: string)
    ensures Once(names + [name]) == if name != "" && name !in Once(names) then Once(names) + [name] else Once(names)
  {
    assert (names + [name])[..|names|] == names;
  }

  method AddAll(names: seq<string>, more: seq<string>, ghost seen: seq<string>) returns (names': seq<string>)
    requires names == Once(seen)
    ensures names' == Once(seen + more)
  {
    names' := names;
    ghost var all := seen;
    assert seen + more[..0] == seen;
    for i := 0 to |more|
      invariant all == seen + more[..i] && names' == Once(all)
    {
      var name := more[i];
      OnceNext(all, name);
      all := all + [name];
      assert seen + more[..i + 1] == seen + more[..i] + [name];
      if name != "" && name !in names' {
        names' := names' + [name];
      }
    }
    assert more[..|more|] == more;
  }

  lemma NextPredicateFields(seen: seq<string>, ps: seq<Predicate>, k: nat)
    requires k < |ps|
    ensures seen + AllPredicateFields(ps[..k]) + PredicateFields(ps[k]) == seen + AllPredicateFields(ps[..k + 1])
  {
    assert ps[..k + 1][..k] == ps[..k];
  }

  method AddPredicates(names: seq<string>, ps: seq<Predicate>, ghost seen: seq<string>) returns (names': seq<string>)
    requires names == Once(seen)
    ensures names' == Once(seen + AllPredicateFields(ps))
  {
    names' := names;
    ghost var all := seen;
    assert seen + AllPredicateFields([]) == seen;
    for k := 0 to |ps|
      invariant all == seen + AllPredicateFields(ps[..k]) && names' == Once(all)
    {
      var named := PredicateFields(ps[k]);
      NextPredicateFields(seen, ps, k);
      names' := AddAll(names', named, all);
      all := all + named;
    }
    assert ps[..|ps|] == ps;
  }

  method AddReferences(rs: seq<Reference>) returns (names: seq<string>)
    ensures names == Once(AllReferenceFields(rs))
  {
    names := [];
    for k := 0 to |rs|
      invariant names == Once(AllReferenceFields(rs[..k]))
    {
      names := AddAll(names, ReferenceFields(rs[k]), AllReferenceFields(rs[..k]));
      assert rs[..k + 1][..k] == rs[..k];
    }
    assert rs[..|rs|] == rs;
  }

  /** `_fields_in_order`: the evidence the compiler derives for a sentence. */
  method FieldsInOrder(l: Logic) returns (names: seq<string>)
    ensures names == Once(NamesInOrder(l))
  {
    names := AddReferences(l.rule.references);
    ghost var seen := AllReferenceFields(l.rule.references);
    names := AddPredicates(names, l.rule.scope, seen);
    seen := seen + AllPredicateFields(l.rule.scope);
    names := AddPredicates(names, l.rule.exceptions, seen);
    seen := seen + AllPredicateFields(l.rule.exceptions);
    names := AddAll(names, Given(l.rule.assertion.groupBy), seen);
    seen := seen + Given(l.rule.assertion.groupBy);
    names := AddPredicates(names, l.rule.assertion.predicates, seen);
    seen := seen + AllPredicateFields(l.rule.assertion.predicates);
    names := AddAll(names, l.showing, seen);
  }

  // ------------------------------------------------------------------ check 2: declared evidence
  /** Every canonical field the rule mentions anywhere. */
  function ReferencedFields(rule: Rule): set<string>
  {
    (set n | n in AllPredicateFields(rule.scope)
      + AllPredicateFields(rule.exceptions) + AllPredicateFields(rule.assertion.predicates))
    + (set n | n in AllReferenceFields(rule.references) && n != "")
    + (if rule.assertion.mode.Aggregate? then set n | n in Given(rule.assertion.groupBy) && n != "" else {})
  }

  predicate NamesField(p: Predicate, n: string)
  {
    || p.field == n || p.compareTo == Some(n)
    || (p.interval.Some? && (p.interval.value.start == n || p.interval.value.end == n))
  }

  predicate NamesKey(r: Reference, n: string)
  {
    r.localField == Some(n) || r.remoteField == Some(n) || r.setField == Some(n)
  }

  predicate SomeNames(ps: seq<Predicate>, n: string)
  {
    exists p :: p in ps && NamesField(p, n)
  }

  predicate SomeKey(rs: seq<Reference>, n: string)
  {
    exists r :: r in rs && NamesKey(r, n)
  }

  lemma {:induction false} PredicatesName(ps: seq<Predicate>, n: string)
    ensures n in AllPredicateFields(ps) <==> SomeNames(ps, n)
  {
    if ps != [] {
      PredicatesName(ps[..|ps| - 1], n);
      assert ps == ps[..|ps| - 1] + [ps[|ps| - 1]];
      assert n in PredicateFields(ps[|ps| - 1]) <==> NamesField(ps[|ps| - 1], n);
    }
  }

  lemma {:induction false} ReferencesName(rs: seq<Reference>, n: string)
    ensures n in AllReferenceFields(rs) <==> SomeKey(rs, n)
  {
    if rs != [] {
      ReferencesName(rs[..|rs| - 1], n);
      assert rs == rs[..|rs| - 1] + [rs[|rs| - 1]];
      assert n in ReferenceFields(rs[|rs| - 1]) <==> NamesKey(rs[|rs| - 1], n);
    }
  }

  /** A sentence names a field as a key or set of a reference, in a condition, as the key it groups by
      or among the fields to show. */
  lemma NamesMean(l: Logic, n: string)
    ensures n in NamesInOrder(l) <==>
              || SomeKey(l.rule.references, n)
              || SomeNames(l.rule.scope, n) || SomeNames(l.rule.exceptions, n)
                 || SomeNames(l.rule.assertion.predicates, n)
              || l.rule.assertion.groupBy == Some(n) || n in l.showing
  {
    hide AllPredicateFields, AllReferenceFields, SomeNames, SomeKey;
    ReferencesName(l.rule.references, n);
    PredicatesName(l.rule.scope, n);
    PredicatesName(l.rule.exceptions, n);
    PredicatesName(l.rule.assertion.predicates, n);
  }

  /** A rule references what its conditions name and, where not empty, what its references do and the
      key an aggregate groups by. */
  lemma ReferencedMeans(rule: Rule, n: string)
    ensures n in ReferencedFields(rule) <==>
              || SomeNames(rule.scope, n) || SomeNames(rule.exceptions, n) || SomeNames(rule.assertion.predicates, n)
              || (n != "" && SomeKey(rule.references, n))
              || (n != "" && rule.assertion.mode.Aggregate? && rule.assertion.groupBy == Some(n))
  {
    hide AllPredicateFields, AllReferenceFields, SomeNames, SomeKey;
    ReferencesName(rule.references, n);
    PredicatesName(rule.scope, n);
    PredicatesName(rule.exceptions, n);
    PredicatesName(rule.assertion.predicates, n);
  }

  datatype Problem =
    | UndeclaredEvidence(field: string)
    | GroupByMissing | GroupByStray
    | TakesNoValue(p: Predicate) | BoundedByItsInterval(p: Predicate) | NeedsOneSide(p: Predicate)
    | IntervalMissing(p: Predicate) | IntervalStray(p: Predicate)
    | AggregateInClause(p: Predicate) | AggregateModeNeeded(p: Predicate) | NotAnAggregate(p: Predicate)
    | NotAnOrdering(p: Predicate) | AbsenceNeverSeen(p: Predicate)

  method CheckEvidenceDeclared(rule: Rule, declared: set<string>) returns (problems: seq<Problem>)
    ensures problems == [] <==> ReferencedFields(rule) <= declared
    ensures forall n :: UndeclaredEvidence(n) in problems <==> n in ReferencedFields(rule) - declared
  {
    problems := [];
    var left := ReferencedFields(rule) - declared;
    while left != {}
      invariant left <= ReferencedFields(rule) - declared
      invariant forall n :: UndeclaredEvidence(n) in problems <==> n in ReferencedFields(rule) - declared - left
      invariant problems == [] <==> left == ReferencedFields(rule) - declared
      decreases left
    {
      var n :| n in left;
      problems := problems + [UndeclaredEvidence(n)];
      left := left - {n};
    }
    if ReferencedFields(rule) <= declared {
      assert ReferencedFields(rule) - declared == {};
    } else {
      var n :| n in ReferencedFields(rule) && n !in declared;
      assert n in ReferencedFields(rule) - declared;
    }
  }

  // ------------------------------------------------------------------ check 3: the grouping key
  method CheckAssertionShape(a: Assertion) returns (problems: seq<Problem>)
    ensures problems == [] <==> (a.mode.Aggregate? <==> a.groupBy.Some?)
  {
    problems := [];
    if a.mode.Aggregate? && a.groupBy.None? {
      problems := problems + [GroupByMissing];
    }
    if !a.mode.Aggregate? && a.groupBy.Some? {
      problems := problems + [GroupByStray];
    }
  }

  // ------------------------------------------------------------------ checks 4 and 5: predicates
  datatype Clause = InScope | InExceptions | InAssertion

  function Sides(p: Predicate): nat
  {
    (if p.value.Some? then 1 else 0) + (if p.compareTo.Some? then 1 else 0) + (if p.tenantSetting.Some? then 1 else 0)
  }

  /** One right-hand side, an interval where and only where the operator is bounded by one, and an
      aggregate operator exactly in an aggregate assertion. */
  predicate Sound(p: Predicate, clause: Clause, mode: Mode)
  {
    && Sides(p) == (if IsUnary(p.operator) || IsIntervalOperator(p.operator) then 0 else 1)
    && (p.interval.Some? <==> IsIntervalOperator(p.operator))
    && (IsAggregateOperator(p.operator) <==> clause.InAssertion? && mode.Aggregate?)
  }

  method CheckPredicate(p: Predicate, clause: Clause, mode: Mode) returns (problems: seq<Problem>)
    ensures problems == [] <==> Sound(p, clause, mode)
  {
    problems := [];
    var sides := Sides(p);
    if IsUnary(p.operator) {
      if sides > 0 {
        problems := problems + [TakesNoValue(p)];
      }
    } else if IsIntervalOperator(p.operator) {
      if sides > 0 {
        problems := problems + [BoundedByItsInterval(p)];
      }
    } else if sides != 1 {
      problems := problems + [NeedsOneSide(p)];
    }
    if IsIntervalOperator(p.operator) && p.interval.None? {
      problems := problems + [IntervalMissing(p)];
    }
    if p.interval.Some? && !IsIntervalOperator(p.operator) {
      problems := problems + [IntervalStray(p)];
    }
    if IsAggregateOperator(p.operator) && !clause.InAssertion? {
      problems := problems + [AggregateInClause(p)];
    }
    if IsAggregateOperator(p.operator) && !mode.Aggregate? {
      problems := problems + [AggregateModeNeeded(p)];
    }
    if mode.Aggregate? && clause.InAssertion? && !IsAggregateOperator(p.operator) {
      problems := problems + [NotAnAggregate(p)];
    }
  }

  predicate AllSound(ps: seq<Predicate>, clause: Clause, mode: Mode)
  {
    forall k :: 0 <= k < |ps| ==> Sound(ps[k], clause, mode)
  }

  lemma SoundGrows(ps: seq<Predicate>, k: nat, clause: Clause, mode: Mode)
    requires k < |ps|
    ensures AllSound(ps[..k + 1], clause, mode) <==> AllSound(ps[..k], clause, mode) && Sound(ps[k], clause, mode)
  {
    hide Sound;
    assert ps[..k + 1][k] == ps[k];
    assert forall i :: 0 <= i < k ==> ps[..k + 1][i] == ps[..k][i];
  }

  lemma NothingUnsound(clause: Clause, mode: Mode)
    ensures AllSound([], clause, mode)
  {
  }

  method CheckClause(ps: seq<Predicate>, clause: Clause, mode: Mode) returns (problems: seq<Problem>)
    ensures problems == [] <==> AllSound(ps, clause, mode)
  {
    hide Sound, AllSound;
    problems := [];
    NothingUnsound(clause, mode);
    for k := 0 to |ps|
      invariant problems == [] <==> AllSound(ps[..k], clause, mode)
    {
      var more := CheckPredicate(ps[k], clause, mode);
      SoundGrows(ps, k, clause, mode);
      problems := problems + more;
    }
    assert ps[..|ps|] == ps;
  }

  predicate SoundRule(rule: Rule)
  {
    && AllSound(rule.scope, InScope, rule.assertion.mode)
    && AllSound(rule.exceptions, InExceptions, rule.assertion.mode)
    && AllSound(rule.assertion.predicates, InAssertion, rule.assertion.mode)
  }

  method CheckPredicates(rule: Rule) returns (problems: seq<Problem>)
    ensures problems == [] <==> SoundRule(rule)
  {
    var scope := CheckClause(rule.scope, InScope, rule.assertion.mode);
    var exceptions := CheckClause(rule.exceptions, InExceptions, rule.assertion.mode);
    var assertion := CheckClause(rule.assertion.predicates, InAssertion, rule.assertion.mode);
    problems := scope + exceptions + assertion;
  }

  // ------------------------------------------------------------------ check 9: what an absence answers
  function AllPredicates(rule: Rule): seq<Predicate>
  {
    rule.scope + rule.exceptions + rule.assertion.predicates
  }

  /** `absent` is an ordering's, of a field whose absence is a fact and not a gap in the evidence. */
  predicate AbsentSound(p: Predicate, gaps: set<string>)
  {
    p.absent.Some? ==> IsOrdering(p.operator) && p.field !in gaps
  }

  /** `gaps` are the registered fields whose absence means unknown. */
  method CheckAbsent(rule: Rule, gaps: set<string>) returns (problems: seq<Problem>)
    ensures problems == [] <==> forall p :: p in AllPredicates(rule) ==> AbsentSound(p, gaps)
    ensures forall p :: NotAnOrdering(p) in problems <==>
              p in AllPredicates(rule) && p.absent.Some? && !IsOrdering(p.operator)
    ensures forall p :: AbsenceNeverSeen(p) in problems <==>
              p in AllPredicates(rule) && p.absent.Some? && IsOrdering(p.operator) && p.field in gaps
  {
    problems := [];
    var ps := AllPredicates(rule);
    for k := 0 to |ps|
      invariant problems == [] <==> forall p :: p in ps[..k] ==> AbsentSound(p, gaps)
      invariant forall p :: NotAnOrdering(p) in problems <==> p in ps[..k] && p.absent.Some? && !IsOrdering(p.operator)
      invariant forall p :: AbsenceNeverSeen(p) in problems <==>
                  p in ps[..k] && p.absent.Some? && IsOrdering(p.operator) && p.field in gaps
    {
      var p := ps[k];
      assert ps[..k + 1] == ps[..k] + [p];
      assert p in ps[..k + 1];
      if p.absent.Some? {
        if !IsOrdering(p.operator) {
          problems := problems + [NotAnOrdering(p)];
        } else if p.field in gaps {
          problems := problems + [AbsenceNeverSeen(p)];
        }
      }
    }
    assert ps[..|ps|] == ps;
  }

  /** What the structural checks ask of a rule and its declared evidence. */
  predicate Passes(rule: Rule, declared: set<string>, gaps: set<string>)
  {
    && ReferencedFields(rule) <= declared
    && (rule.assertion.mode.Aggregate? <==> rule.assertion.groupBy.Some?)
    && SoundRule(rule)
    && forall p :: p in AllPredicates(rule) ==> AbsentSound(p, gaps)
  }

  /** Checks 2 to 5 and 9, in order, every problem of each. */
  method CheckStructure(rule: Rule, declared: set<string>, gaps: set<string>) returns (problems: seq<Problem>)
    ensures problems == [] <==> Passes(rule, declared, gaps)
  {
    hide ReferencedFields, SoundRule, AbsentSound;
    var undeclared := CheckEvidenceDeclared(rule, declared);
    var shape := CheckAssertionShape(rule.assertion);
    var predicates := CheckPredicates(rule);
    var absent := CheckAbsent(rule, gaps);
    problems := undeclared + shape + predicates + absent;
  }

  // ------------------------------------------------------------------ accepted sentences pass
  lemma ConditionIsSound(p: Predicate, clause: Clause, mode: Mode, ok: iset<string>)
    requires WFCondition(p, ok) && (clause.InAssertion? ==> !mode.Aggregate?)
    ensures Sound(p, clause, mode)
  {
  }

  lemma WellFormedIsSound(l: Logic, v: Vocabulary, ok: iset<string>)
    requires WFLogic(l, v, ok)
    ensures SoundRule(l.rule)
    ensures l.rule.assertion.mode.Aggregate? <==> l.rule.assertion.groupBy.Some?
  {
    var a := l.rule.assertion;
    forall k | 0 <= k < |l.rule.scope| ensures Sound(l.rule.scope[k], InScope, a.mode) {
      ConditionIsSound(l.rule.scope[k], InScope, a.mode, ok);
    }
    forall k | 0 <= k < |l.rule.exceptions| ensures Sound(l.rule.exceptions[k], InExceptions, a.mode) {
      ConditionIsSound(l.rule.exceptions[k], InExceptions, a.mode, ok);
    }
    if !a.mode.Aggregate? {
      forall k | 0 <= k < |a.predicates| ensures Sound(a.predicates[k], InAssertion, a.mode) {
        ConditionIsSound(a.predicates[k], InAssertion, a.mode, ok);
      }
    }
  }

  lemma {:induction false} PredicateFieldsNamed(ps: seq<Predicate>, ok: iset<string>)
    requires WFConditions(ps, ok) || (|ps| == 1 && WFAggregate(ps[0], ok))
    ensures "" !in AllPredicateFields(ps)
  {
    if ps != [] {
      var n := |ps| - 1;
      assert "" !in PredicateFields(ps[n]);
      PredicateFieldsNamed(ps[..n], ok);
    }
  }

  /** The derived evidence covers every field the rule mentions. */
  lemma DerivedEvidenceCovers(l: Logic, v: Vocabulary, ok: iset<string>)
    requires WFLogic(l, v, ok)
    ensures forall n :: n in ReferencedFields(l.rule) ==> n in Once(NamesInOrder(l))
  {
    OnceMeans(NamesInOrder(l));
    PredicateFieldsNamed(l.rule.scope, ok);
    PredicateFieldsNamed(l.rule.exceptions, ok);
    PredicateFieldsNamed(l.rule.assertion.predicates, ok);
  }

  /** Every sentence the parser accepts, over all token sequences, passes checks 2 to 5: what it
      reads it has declared, it groups exactly when it aggregates, and each predicate has the one
      right-hand side its operator needs. */
  lemma AcceptedPassesChecks(texts: seq<string>, v: Vocabulary)
    requires Parse(Read(texts), v).Done?
    ensures var l := Parse(Read(texts), v).value;
            && (forall n :: n in ReferencedFields(l.rule) ==> n in Once(NamesInOrder(l)))
            && (l.rule.assertion.mode.Aggregate? <==> l.rule.assertion.groupBy.Some?)
            && SoundRule(l.rule)
  {
    ReadIsMadeOf(texts);
    AcceptedIsWellFormed(Read(texts), v, AnyText());
    var l := Parse(Read(texts), v).value;
    DerivedEvidenceCovers(l, v, AnyText());
    WellFormedIsSound(l, v, AnyText());
  }
}
