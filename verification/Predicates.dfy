/** One IR clause applied to one record's evidence (hotelcontrols/evaluator/predicates.py,
    hotelcontrols/evaluator/intervals.py). */
module Predicates {
  import opened Basics
  import opened Texts
  import opened Values
  import opened Rules
  import opened Bundles

  /** True, False, None, or the exception the handler does not catch (a TypeError from ordering
      two kinds of payload, a KeyError from an interval operator without an interval). */
  datatype Holds = Yes | No | CannotTell | Raises

  predicate Definite(h: Holds) { h.Yes? || h.No? }

  function Answer(b: bool): Holds { if b then Yes else No }

  function Negate(h: Holds): Holds
  {
    match h
    case Yes => No
    case No => Yes
    case _ => h
  }

  function LiteralPayload(l: Option<RuleLiteral>): Payload
  {
    match l
    case None => Null
    case Some(TextLiteral(s)) => Text(s)
    case Some(WholeLiteral(n)) => Int(n)
    case Some(DecimalLiteral(text)) => Float(text)
    case Some(TruthLiteral(b)) => Flag(b)
  }

  /** `^today(?:([+-])(\d+)d)?$` (hotelcontrols/kernel/dates.py). */
  predicate IsRelativeDate(s: string)
  {
    s == "today"
    || (|s| >= 8 && s[..5] == "today" && (s[5] == '+' || s[5] == '-') && s[|s| - 1] == 'd'
        && AllDigits(s[6..|s| - 1]))
  }

  // ------------------------------------------------------------------ intervals
  /** A bound that is set, as text. */
  function Bound(v: Value): Option<string>
    requires v.Known?
  {
    if Unset(v.payload) then None else Some(Str(v.payload))
  }

  /** Inclusive at both ends; a missing bound is open; no bound at all is no window. */
  predicate InWindow(moment: string, lower: Option<string>, upper: Option<string>)
  {
    !(lower.None? && upper.None?)
    && (lower.Some? ==> !Lt(moment, lower.value))
    && (upper.Some? ==> !Lt(upper.value, moment))
  }

  function WithinWindow(value: Value, start: Value, end: Value): Holds
  {
    if value.Unknown? || start.Unknown? || end.Unknown? then CannotTell
    else Answer(InWindow(Str(value.payload), Bound(start), Bound(end)))
  }

  // ------------------------------------------------------------------ operators
  function OfPair(pair: Pair, answer: (Payload, Payload) -> Holds): Holds
  {
    match pair
    case Comparable(a, b) => answer(a, b)
    case _ => CannotTell
  }

  function EqualTo(left: Value, right: Operand): (h: Holds)
    ensures !h.Raises?
  {
    OfPair(ComparablePair(left, right), (a, b) => Answer(Equal(a, b)))
  }

  function Present(left: Value): (h: Holds)
    ensures !h.Raises?
  {
    if left.Unknown? then CannotTell
    else Answer(!IsAbsence(left) && !(left.payload.Text? && Blank(left.payload.s)))
  }

  /** Python's `in`, of a tuple or a list. */
  predicate Among(x: Payload, items: seq<Payload>)
  {
    exists i :: 0 <= i < |items| && Equal(x, items[i])
  }

  function Member(left: Value, right: Operand): (h: Holds)
    ensures !h.Raises?
  {
    if right.Evidence? && right.value.Unknown? then CannotTell
    else if left.Unknown? then CannotTell
    else
      var others := if right.Evidence? then right.value.payload else right.payload;
      if others.Tuple? || others.List?
      then Answer(Among(left.payload, others.items))
      else CannotTell
  }

  function OfLess(less: Option<bool>): Holds
  {
    match less
    case None => Raises
    case Some(b) => Answer(b)
  }

  function Ordered(op: Operator, left: Value, right: Operand): Holds
    requires IsOrdering(op)
  {
    var pair := ComparablePair(left, right);
    match op
    case LessThan => OfPair(pair, (a, b) => OfLess(Less(a, b)))
    case AtMost => OfPair(pair, (a, b) => Negate(OfLess(Less(b, a))))
    case MoreThan => OfPair(pair, (a, b) => OfLess(Less(b, a)))
    case AtLeast => OfPair(pair, (a, b) => Negate(OfLess(Less(a, b))))
  }

  function Matches(left: Value, right: Operand): (h: Holds)
    ensures !h.Raises?
  {
    OfPair(ComparablePair(left, right), (a, b) => Answer(Lower(Str(a)) == Lower(Str(b))))
  }

  /** The operator table. */
  function Apply(op: Operator, left: Value, right: Operand): Holds
  {
    match op
    case Equals => EqualTo(left, right)
    case NotEquals => Negate(EqualTo(left, right))
    case Exists => Present(left)
    case NotExists => Negate(Present(left))
    case In => Member(left, right)
    case NotIn => Negate(Member(left, right))
    case MatchesIgnoreCase => Matches(left, right)
    case _ => if IsOrdering(op) then Ordered(op, left, right) else CannotTell
  }

  // ------------------------------------------------------------------ one predicate
  /** The right-hand side, or None when it cannot be established. */
  function RightHandSide(p: Predicate, b: Bundle, settings: Settings): Option<Operand>
  {
    if p.compareTo.Some? then
      if p.compareTo.value in b.fields then Some(Evidence(b.fields[p.compareTo.value])) else None
    else if p.tenantSetting.Some? then
      if settings.Some? && p.tenantSetting.value in settings.value
      then Some(Literal(settings.value[p.tenantSetting.value])) else None
    else
      match p.value
      case Some(TextLiteral(s)) => if IsRelativeDate(s) then None else Some(Literal(Text(s)))
      case _ => Some(Literal(LiteralPayload(p.value)))
  }

  /** A predicate over a collection's field has no single value to read. */
  predicate FromCollection(p: Predicate, b: Bundle)
  {
    ReadsFrom(p, b.related.Keys)
  }

  function Resolves(op: Operator, name: string, b: Bundle): Holds
  {
    var entity := EntityOf(name);
    if !JoinKnown(b, entity) then CannotTell
    else
      var matched := b.joins[entity].payload == Flag(true);
      Answer(if op.ReferenceExists? then matched else !matched)
  }

  function Placed(p: Predicate, left: Value, b: Bundle): Holds
  {
    if p.interval.None? then Raises
    else if p.interval.value.start !in b.fields || p.interval.value.end !in b.fields then CannotTell
    else if left.Known? && !IsDate(left) then CannotTell
    else
      var inside := WithinWindow(left, b.fields[p.interval.value.start], b.fields[p.interval.value.end]);
      if p.operator.Within? then inside else Negate(inside)
  }

  /** Apply one IR predicate to one record's evidence. */
  function Evaluate(p: Predicate, b: Bundle, settings: Settings): Holds
  {
    if IsAggregateOperator(p.operator) then CannotTell
    else if FromCollection(p, b) then CannotTell
    else if p.field !in b.fields then CannotTell
    else
      var left := b.fields[p.field];
      if IsReferenceOperator(p.operator) then Resolves(p.operator, p.field, b)
      else if IsWindowOperator(p.operator) then Placed(p, left, b)
      else
        match RightHandSide(p, b, settings)
        case None => CannotTell
        case Some(right) =>
          if IsOrdering(p.operator) && IsAbsence(left)
          then if p.absent.Some? then Answer(p.absent.value) else CannotTell
          else Apply(p.operator, left, right)
  }

  // ------------------------------------------------------------------ monotone in information
  lemma ApplyStable(op: Operator, left: Value, right: Operand, left': Value, right': Operand)
    requires Refines(left, left') && OperandRefines(right, right')
    requires Definite(Apply(op, left, right))
    ensures Apply(op, left', right') == Apply(op, left, right)
  {
    assert left == left';
    if !op.Exists? && !op.NotExists? {
      assert right == right';
    }
  }

  lemma RightHandSideRefines(p: Predicate, b: Bundle, b': Bundle, s: Settings, s': Settings)
    requires FieldsRefine(b.fields, b'.fields) && SettingsRefine(s, s')
    requires RightHandSide(p, b, s).Some?
    ensures RightHandSide(p, b', s').Some?
    ensures OperandRefines(RightHandSide(p, b, s).value, RightHandSide(p, b', s').value)
  {
  }

  /** A predicate that answered keeps its answer under every refinement of the evidence, the joins
      and the settings it reads - through every operator, absence and refused comparison. */
  lemma EvaluateStable(p: Predicate, b: Bundle, b': Bundle, s: Settings, s': Settings)
    requires FieldsRefine(b.fields, b'.fields) && SettingsRefine(s, s')
    requires b.related.Keys == b'.related.Keys
    requires IsReferenceOperator(p.operator) ==> JoinRefines(b, b', EntityOf(p.field))
    requires Definite(Evaluate(p, b, s))
    ensures Evaluate(p, b', s') == Evaluate(p, b, s)
  {
    var left, left' := b.fields[p.field], b'.fields[p.field];
    if IsReferenceOperator(p.operator) {
    } else if IsWindowOperator(p.operator) {
      assert left.Known?;
    } else {
      RightHandSideRefines(p, b, b', s, s');
      var right := RightHandSide(p, b, s).value;
      var right' := RightHandSide(p, b', s').value;
      if IsOrdering(p.operator) && IsAbsence(left) {
      } else {
        ApplyStable(p.operator, left, right, left', right');
      }
    }
  }

  /** A predicate reads the fields, the joins and which collections there are, and nothing else. */
  lemma EvaluateReads(p: Predicate, b: Bundle, b': Bundle, s: Settings)
    requires b.fields == b'.fields && b.joins == b'.joins && b.related.Keys == b'.related.Keys
    ensures Evaluate(p, b, s) == Evaluate(p, b', s)
  {
  }
}
