/** The control IR: what a sentence compiles to and the evaluator executes
    (hotelcontrols/spec/ir.py). Optional dictionary keys are Options. */
module Rules {
  import opened Basics
  import opened Texts

  datatype Operator =
    | Equals | NotEquals | Exists | NotExists | In | NotIn
    | LessThan | AtMost | MoreThan | AtLeast | MatchesIgnoreCase
    | Within | NotWithin | ReferenceExists | ReferenceMissing
    | CountLte | NoOverlap

  /** A literal in a rule. A decimal literal is kept as its digits. */
  datatype RuleLiteral = TextLiteral(s: string) | WholeLiteral(n: int)
    | DecimalLiteral(text: string) | TruthLiteral(b: bool)

  datatype Interval = Interval(start: string, end: string)

  datatype Predicate = Predicate(
    field: string,
    operator: Operator,
    value: Option<RuleLiteral>,
    compareTo: Option<string>,
    tenantSetting: Option<string>,
    interval: Option<Interval>,
    absent: Option<bool>)

  datatype Kind = Lookup | Collection | ValueSet

  datatype Reference = Reference(
    entity: string,
    kind: Kind,
    localField: Option<string>,
    remoteField: Option<string>,
    setField: Option<string>,
    fromTenant: bool)

  datatype Mode = AllOf | AnyOf | NoneOf | Aggregate

  datatype Assertion = Assertion(mode: Mode, groupBy: Option<string>, predicates: seq<Predicate>)

  datatype Rule = Rule(
    entity: string,
    references: seq<Reference>,
    scope: seq<Predicate>,
    exceptions: seq<Predicate>,
    assertion: Assertion)

  predicate IsAggregateOperator(op: Operator) { op.CountLte? || op.NoOverlap? }

  predicate IsReferenceOperator(op: Operator) { op.ReferenceExists? || op.ReferenceMissing? }

  predicate IsWindowOperator(op: Operator) { op.Within? || op.NotWithin? }

  predicate IsIntervalOperator(op: Operator) { IsWindowOperator(op) || op.NoOverlap? }

  predicate IsOrdering(op: Operator) { op.LessThan? || op.AtMost? || op.MoreThan? || op.AtLeast? }

  predicate IsUnary(op: Operator) { op.Exists? || op.NotExists? || IsReferenceOperator(op) }

  predicate NameIn(name: string, entities: set<string>)
  {
    name != "" && EntityOf(name) in entities
  }

  /** Whether a predicate reads a field of one of these entities. */
  predicate ReadsFrom(p: Predicate, entities: set<string>)
  {
    NameIn(p.field, entities)
    || (p.compareTo.Some? && NameIn(p.compareTo.value, entities))
    || (p.interval.Some? && (NameIn(p.interval.value.start, entities) || NameIn(p.interval.value.end, entities)))
  }

  /** Whether a predicate reads a field of this entity. */
  predicate Reads(p: Predicate, entity: string)
  {
    ReadsFrom(p, {entity})
  }
}
