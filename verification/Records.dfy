/** One rule applied to one record (hotelcontrols/evaluator/record.py). */
module Records {
  import opened Basics
  import opened Values
  import opened Rules
  import opened Bundles
  import opened Operators
  import opened Predicates
  import opened Judgements
  import opened Collections

  /** Some predicate of the clause gives this answer. */
  ghost predicate Gives(predicates: seq<Predicate>, b: Bundle, s: Settings, h: Holds)
  {
    exists k :: 0 <= k < |predicates| && Evaluate(predicates[k], b, s) == h
  }

  /** Kleene combination, one mode each. */
  ghost function Combined(mode: Mode, predicates: seq<Predicate>, b: Bundle, s: Settings): Outcome
    requires !mode.Aggregate?
  {
    if Gives(predicates, b, s, Raises) then RAISED
    else match mode
      case AllOf => if Gives(predicates, b, s, No) then FAIL
        else if Gives(predicates, b, s, CannotTell) then UNKNOWN else PASS
      case AnyOf => if Gives(predicates, b, s, Yes) then PASS
        else if Gives(predicates, b, s, CannotTell) then UNKNOWN else FAIL
      case NoneOf => if Gives(predicates, b, s, Yes) then FAIL
        else if Gives(predicates, b, s, CannotTell) then UNKNOWN else PASS
  }

  ghost function AssertionOutcome(a: Assertion, b: Bundle, s: Settings): Outcome
  {
    if a.mode.Aggregate? then UNKNOWN
    else if a.mode.NoneOf? && CollectionsRead(a.predicates, b) != {} then Judged(a.predicates, b, s)
    else Combined(a.mode, a.predicates, b, s)
  }

  /** Scope, then exceptions, then the assertion. */
  ghost function RecordOutcome(rule: Rule, b: Bundle, s: Settings): Outcome
  {
    if Gives(rule.scope, b, s, Raises) then RAISED
    else if Gives(rule.scope, b, s, No) then EXCLUDED
    else if Gives(rule.scope, b, s, CannotTell) then UNKNOWN
    else if Gives(rule.exceptions, b, s, Raises) then RAISED
    else if Gives(rule.exceptions, b, s, Yes) then EXCLUDED
    else if Gives(rule.exceptions, b, s, CannotTell) then UNKNOWN
    else AssertionOutcome(rule.assertion, b, s)
  }

  // ------------------------------------------------------------------ what the outcomes mean
  lemma GivesMeans(predicates: seq<Predicate>, b: Bundle, s: Settings)
    ensures forall h :: Gives(predicates, b, s, h) <==> SomeAnswer(predicates, b, s, h)
    ensures AllAnswer(predicates, b, s, Yes) <==>
              !Gives(predicates, b, s, No) && !Gives(predicates, b, s, CannotTell) && !Gives(predicates, b, s, Raises)
    ensures AllAnswer(predicates, b, s, No) <==>
              !Gives(predicates, b, s, Yes) && !Gives(predicates, b, s, CannotTell) && !Gives(predicates, b, s, Raises)
  {
    hide Evaluate;
    forall k | 0 <= k < |predicates|
      ensures Gives(predicates, b, s, Evaluate(predicates[k], b, s))
    {
    }
  }

  lemma AssertionMeans(a: Assertion, b: Bundle, s: Settings)
    ensures AssertionSays(a, b, s, AssertionOutcome(a, b, s))
  {
    hide Evaluate, Judged, Gives, SomeAnswer, AllAnswer, NoneSays, Reads;
    GivesMeans(a.predicates, b, s);
    JudgedMeans(a.predicates, b, s);
    ReadsSome(a.predicates, b);
  }

  lemma ReadsSome(predicates: seq<Predicate>, b: Bundle)
    ensures CollectionsRead(predicates, b) != {} <==>
              exists entity, k :: entity in b.related && Asks(predicates, entity, k)
  {
    hide Reads;
    var read := CollectionsRead(predicates, b);
    if entity :| entity in read {
      assert CollectionRead(predicates, b, entity);
      var k :| 0 <= k < |predicates| && Reads(predicates[k], entity);
      assert Asks(predicates, entity, k);
    }
    if entity, k :| entity in b.related && Asks(predicates, entity, k) {
      assert CollectionRead(predicates, b, entity);
      assert entity in read;
    }
  }

  /** What each outcome of a record means. */
  lemma RecordMeans(rule: Rule, b: Bundle, s: Settings)
    ensures RecordSays(rule, b, s, RecordOutcome(rule, b, s))
  {
    hide Evaluate, AssertionOutcome, AssertionSays, Gives, SomeAnswer, AllAnswer;
    GivesMeans(rule.scope, b, s);
    GivesMeans(rule.exceptions, b, s);
    AssertionMeans(rule.assertion, b, s);
  }

  // ------------------------------------------------------------------ the loops
  method Run(predicates: seq<Predicate>, b: Bundle, s: Settings) returns (results: seq<Holds>)
    ensures forall h :: h in results <==> Gives(predicates, b, s, h)
  {
    results := [];
    for k := 0 to |predicates|
      invariant |results| == k
      invariant forall j :: 0 <= j < k ==> results[j] == Evaluate(predicates[j], b, s)
    {
      results := results + [Evaluate(predicates[k], b, s)];
    }
  }

  method First(results: seq<Holds>, h: Holds) returns (found: bool)
    ensures found <==> h in results
  {
    for k := 0 to |results|
      invariant h !in results[..k]
    {
      if results[k] == h {
        return true;
      }
    }
    return false;
  }

  /** Apply one control to one record's evidence. */
  method EvaluateRecord(rule: Rule, b: Bundle, s: Settings) returns (outcome: Outcome)
    ensures outcome == RecordOutcome(rule, b, s) && RecordSays(rule, b, s, outcome)
  {
    RecordMeans(rule, b, s);
    var scope := Run(rule.scope, b, s);
    var raised := First(scope, Raises);
    if raised { return RAISED; }
    var failed := First(scope, No);
    if failed { return EXCLUDED; }
    var unsure := First(scope, CannotTell);
    if unsure { return UNKNOWN; }

    var exceptions := Run(rule.exceptions, b, s);
    raised := First(exceptions, Raises);
    if raised { return RAISED; }
    var exempt := First(exceptions, Yes);
    if exempt { return EXCLUDED; }
    unsure := First(exceptions, CannotTell);
    if unsure { return UNKNOWN; }

    var a := rule.assertion;
    if a.mode.Aggregate? {
      return UNKNOWN;
    }
    if a.mode.NoneOf? && CollectionsRead(a.predicates, b) != {} {
      var judgement := JudgeCollection(a.predicates, b, s);
      return judgement.outcome;
    }
    var results := Run(a.predicates, b, s);
    raised := First(results, Raises);
    if raised { return RAISED; }
    unsure := First(results, CannotTell);
    match a.mode {
      case AllOf =>
        var violated := First(results, No);
        return if violated then FAIL else if unsure then UNKNOWN else PASS;
      case AnyOf =>
        var satisfied := First(results, Yes);
        return if satisfied then PASS else if unsure then UNKNOWN else FAIL;
      case NoneOf =>
        var satisfied := First(results, Yes);
        return if satisfied then FAIL else if unsure then UNKNOWN else PASS;
    }
  }

  // ------------------------------------------------------------------ monotone in information
  lemma PredicateStable(p: Predicate, b: Bundle, b': Bundle, s: Settings, s': Settings)
    requires BundleRefines(b, b') && SettingsRefine(s, s')
    requires Definite(Evaluate(p, b, s))
    ensures Evaluate(p, b', s') == Evaluate(p, b, s)
  {
    EvaluateStable(p, b, b', s, s');
  }

  lemma DefiniteStays(predicates: seq<Predicate>, b: Bundle, b': Bundle, s: Settings, s': Settings)
    requires BundleRefines(b, b') && SettingsRefine(s, s')
    ensures forall h :: Definite(h) && Gives(predicates, b, s, h) ==> Gives(predicates, b', s', h)
    ensures !Gives(predicates, b, s, CannotTell) && !Gives(predicates, b, s, Raises) ==>
              forall h :: Gives(predicates, b', s', h) ==> Definite(h) && Gives(predicates, b, s, h)
  {
    forall k | 0 <= k < |predicates| && Definite(Evaluate(predicates[k], b, s))
      ensures Evaluate(predicates[k], b', s') == Evaluate(predicates[k], b, s)
    {
      PredicateStable(predicates[k], b, b', s, s');
    }
    if !Gives(predicates, b, s, CannotTell) && !Gives(predicates, b, s, Raises) {
      forall k | 0 <= k < |predicates|
        ensures Definite(Evaluate(predicates[k], b, s))
      {
        assert Gives(predicates, b, s, Evaluate(predicates[k], b, s));
      }
    }
  }

  lemma AssertionStable(a: Assertion, b: Bundle, b': Bundle, s: Settings, s': Settings)
    requires BundleRefines(b, b') && SettingsRefine(s, s')
    requires Conclusive(AssertionOutcome(a, b, s))
    ensures AssertionOutcome(a, b', s') in {AssertionOutcome(a, b, s), RAISED}
  {
    DefiniteStays(a.predicates, b, b', s, s');
    JudgedStable(a.predicates, b, b', s, s');
    assert CollectionsRead(a.predicates, b) == CollectionsRead(a.predicates, b') by {
      forall entity
        ensures CollectionRead(a.predicates, b, entity) <==> CollectionRead(a.predicates, b', entity)
      {
      }
    }
  }

  /** A record's PASS, FAIL or EXCLUDED is what every refinement of the evidence, the joins, the
      collections and the undecided settings answers too, unless evaluating it raises. */
  lemma RecordStable(rule: Rule, b: Bundle, b': Bundle, s: Settings, s': Settings)
    requires BundleRefines(b, b') && SettingsRefine(s, s')
    requires Conclusive(RecordOutcome(rule, b, s))
    ensures RecordOutcome(rule, b', s') in {RecordOutcome(rule, b, s), RAISED}
  {
    DefiniteStays(rule.scope, b, b', s, s');
    DefiniteStays(rule.exceptions, b, b', s, s');
    if !Gives(rule.scope, b, s, No) && !Gives(rule.exceptions, b, s, Yes) {
      AssertionStable(rule.assertion, b, b', s, s');
    }
  }

  // ------------------------------------------------------------------ when evaluating cannot raise
  /** Payloads an ordering can compare, or refuses by name. */
  predicate SameFamily(a: Payload, b: Payload)
  {
    (a.Text? && b.Text?) || ((Numeric(a) || a.Amount?) && (Numeric(b) || b.Amount?)) || a.Amount? || b.Amount?
  }

  /** An interval operator carries an interval, and an ordering compares like with like. */
  ghost predicate WellTyped(p: Predicate, b: Bundle, s: Settings)
  {
    && (IsWindowOperator(p.operator) ==> p.interval.Some?)
    && (IsOrdering(p.operator) && p.field in b.fields && b.fields[p.field].Known? && !IsAbsence(b.fields[p.field])
        && RightHandSide(p, b, s).Some?
        ==> match RightHandSide(p, b, s).value
            case Evidence(v) => v.Unknown? || SameFamily(b.fields[p.field].payload, v.payload)
            case Literal(payload) => SameFamily(b.fields[p.field].payload, payload))
  }

  lemma OrderedNeverRaises(op: Operator, left: Value, right: Operand)
    requires IsOrdering(op) && left.Known?
    requires match right
             case Evidence(v) => v.Unknown? || SameFamily(left.payload, v.payload)
             case Literal(payload) => SameFamily(left.payload, payload)
    ensures !Ordered(op, left, right).Raises?
  {
  }

  lemma OthersNeverRaise(op: Operator, left: Value, right: Operand)
    requires !IsOrdering(op)
    ensures !Apply(op, left, right).Raises?
  {
  }

  lemma WellTypedNeverRaises(p: Predicate, b: Bundle, s: Settings)
    requires WellTyped(p, b, s)
    ensures !Evaluate(p, b, s).Raises?
  {
    if p.field in b.fields && RightHandSide(p, b, s).Some? {
      var left, right := b.fields[p.field], RightHandSide(p, b, s).value;
      if !IsOrdering(p.operator) {
        OthersNeverRaise(p.operator, left, right);
      } else if left.Known? && !IsAbsence(left) {
        OrderedNeverRaises(p.operator, left, right);
      } else if left.Unknown? {
        assert ComparablePair(left, right) == UnknownSide;
      }
    }
  }

  /** Every predicate is well-typed on the record, and on each record of a collection it is judged by. */
  ghost predicate WellTypedRule(rule: Rule, b: Bundle, s: Settings)
  {
    && (forall k :: 0 <= k < |rule.scope| ==> WellTyped(rule.scope[k], b, s))
    && (forall k :: 0 <= k < |rule.exceptions| ==> WellTyped(rule.exceptions[k], b, s))
    && (forall k :: 0 <= k < |rule.assertion.predicates| ==> WellTyped(rule.assertion.predicates[k], b, s))
    && (forall k, entity, r |
          0 <= k < |rule.assertion.predicates| && entity in b.related
            && (r in Related(b, entity) || r in Unplaced(b, entity)) ::
            WellTyped(rule.assertion.predicates[k], View(b, entity, r), s))
  }

  lemma TypedNeverRaises(rule: Rule, b: Bundle, s: Settings)
    requires WellTypedRule(rule, b, s)
    ensures !RecordOutcome(rule, b, s).RAISED?
  {
    forall k | 0 <= k < |rule.scope| ensures !Evaluate(rule.scope[k], b, s).Raises? {
      WellTypedNeverRaises(rule.scope[k], b, s);
    }
    forall k | 0 <= k < |rule.exceptions| ensures !Evaluate(rule.exceptions[k], b, s).Raises? {
      WellTypedNeverRaises(rule.exceptions[k], b, s);
    }
    var predicates := rule.assertion.predicates;
    forall k | 0 <= k < |predicates| ensures !Evaluate(predicates[k], b, s).Raises? {
      WellTypedNeverRaises(predicates[k], b, s);
    }
    forall k, r | 0 <= k < |predicates| ensures !Yields(predicates[k], b, s, Raises, r) {
      var read := ReadBy(predicates[k], b);
      if |read| == 1 && r.Some? && (r.value in Related(b, Only(read)) || r.value in Unplaced(b, Only(read))) {
        WellTypedNeverRaises(predicates[k], View(b, Only(read), r.value), s);
      }
    }
  }

  /** With well-typed evidence a conclusive answer survives every refinement exactly. */
  lemma TypedRecordStable(rule: Rule, b: Bundle, b': Bundle, s: Settings, s': Settings)
    requires BundleRefines(b, b') && SettingsRefine(s, s')
    requires Conclusive(RecordOutcome(rule, b, s))
    requires WellTypedRule(rule, b', s')
    ensures RecordOutcome(rule, b', s') == RecordOutcome(rule, b, s)
  {
    RecordStable(rule, b, b', s, s');
    TypedNeverRaises(rule, b', s');
  }

  // ------------------------------------------------------------------ an absence on the right
  /** What an ordering says of a number against zero. */
  predicate AgainstZero(op: Operator, n: real)
    requires IsOrdering(op)
  {
    match op
    case LessThan => n < 0.0
    case AtMost => n <= 0.0
    case MoreThan => n > 0.0
    case AtLeast => n >= 0.0
  }

  /** A comparison with this absence is refused: of an amount always, and of a bare number whose
      unit the absence does not share, unless one of the two is a unitless zero. */
  predicate RefusedAgainst(left: Value, absence: Value)
    requires left.Known? && absence.Known?
  {
    left.payload.Amount?
    || (IsBareNumber(left.payload) && !SameUnit(left.unit, absence.unit)
        && !(Unitless(absence.unit) && absence.payload == Flag(false))
        && !(left.unit.None? && IsZero(left.payload)))
  }

  lemma OrderedAgainstAbsence(op: Operator, left: Value, absence: Value)
    requires IsOrdering(op) && left.Known? && IsAbsence(absence)
    ensures var h := Ordered(op, left, Evidence(absence));
            && (h == CannotTell <==> RefusedAgainst(left, absence))
            && (Definite(h) <==>
                  !RefusedAgainst(left, absence) && Numeric(left.payload) && absence.payload == Flag(false))
            && (Definite(h) ==> h == Answer(AgainstZero(op, Number(left.payload))))
  {
    var pair := ComparablePair(left, Evidence(absence));
    if RefusedAgainst(left, absence) {
      assert pair == Mismatch;
    } else {
      assert pair == Comparable(left.payload, absence.payload);
      assert Number(Flag(false)) == 0.0;
      assert Less(left.payload, absence.payload).Some? <==> Numeric(left.payload) && absence.payload == Flag(false);
    }
  }

  /** An ordering has an answer of its own for an absence on its left side only. On the right, a
      provider's False is zero to every number, either absence is refused by an amount or by a number
      of another unit, and everything else raises - through every ordering. */
  lemma AbsentRightSide(p: Predicate, b: Bundle, s: Settings)
    requires IsOrdering(p.operator) && p.compareTo.Some? && !FromCollection(p, b)
    requires p.field in b.fields && b.fields[p.field].Known? && !IsAbsence(b.fields[p.field])
    requires p.compareTo.value in b.fields && IsAbsence(b.fields[p.compareTo.value])
    ensures var left, right, h := b.fields[p.field], b.fields[p.compareTo.value], Evaluate(p, b, s);
            && (h == CannotTell <==> RefusedAgainst(left, right))
            && (Definite(h) <==> !RefusedAgainst(left, right) && Numeric(left.payload) && right.payload == Flag(false))
            && (Definite(h) ==> h == Answer(AgainstZero(p.operator, Number(left.payload))))
            && (right.unit.None? && (IsBareNumber(left.payload) ==> !Unitless(left.unit)) ==>
                  (RefusedAgainst(left, right) <==>
                     left.payload.Amount? || (IsBareNumber(left.payload) && right.payload.NotApplicable?)))
  {
    OrderedAgainstAbsence(p.operator, b.fields[p.field], b.fields[p.compareTo.value]);
  }
}
