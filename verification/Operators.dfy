/** What each operator answers, read off the values it compares (hotelcontrols/evaluator/predicates.py,
    hotelcontrols/evaluator/intervals.py). */
module Operators {
  import opened Basics
  import opened Texts
  import opened Values
  import opened Rules
  import opened Bundles
  import opened Predicates

  // ------------------------------------------------------------------ what stands on the right
  /** `today`, or so many days before or after it: not a literal until somebody says what day it is. */
  ghost predicate SaysADay(text: string)
  {
    text == "today" || exists digits, sign :: IsDaysOff(text, sign, digits)
  }

  predicate IsDaysOff(text: string, sign: char, digits: string)
  {
    digits != "" && AllDigits(digits) && (sign == '+' || sign == '-') && text == "today" + [sign] + digits + "d"
  }

  lemma SaysADayMeans(text: string)
    ensures SaysADay(text) <==> IsRelativeDate(text)
  {
    if IsRelativeDate(text) && text != "today" {
      var digits, sign := text[6..|text| - 1], text[5];
      assert text == text[..5] + [text[5]] + text[6..|text| - 1] + [text[|text| - 1]];
      assert IsDaysOff(text, sign, digits);
    }
    if digits, sign :| IsDaysOff(text, sign, digits) {
      assert text[..5] == "today" && text[5] == sign && text[6..|text| - 1] == digits && text[|text| - 1] == 'd';
    }
  }

  lemma LiteralDay(l: Option<RuleLiteral>)
    ensures l.Some? && l.value.TextLiteral? ==> (SaysADay(l.value.s) <==> IsRelativeDate(l.value.s))
  {
    if l.Some? && l.value.TextLiteral? {
      SaysADayMeans(l.value.s);
    }
  }

  /** A literal as the value it stands for. */
  ghost predicate Stands(l: Option<RuleLiteral>, v: Value)
  {
    match l
    case None => v == Known(Null, None)
    case Some(TextLiteral(text)) => !SaysADay(text) && v == Known(Text(text), None)
    case Some(WholeLiteral(n)) => v == Known(Int(n), None)
    case Some(DecimalLiteral(digits)) => v == Known(Float(digits), None)
    case Some(TruthLiteral(b)) => v == Known(Flag(b), None)
  }

  /** A clause's right-hand side: the field it names, else the hotel's setting, else its literal. */
  ghost predicate Against(p: Predicate, b: Bundle, s: Settings, right: Value)
  {
    if p.compareTo.Some? then p.compareTo.value in b.fields && b.fields[p.compareTo.value] == right
    else if p.tenantSetting.Some? then
      s.Some? && p.tenantSetting.value in s.value && right == Known(s.value[p.tenantSetting.value], None)
    else Stands(p.value, right)
  }

  /** The clause reads a single value of its own record, and this is it. */
  ghost predicate Subject(p: Predicate, b: Bundle, left: Value)
  {
    !ReadsFrom(p, b.related.Keys) && p.field in b.fields && b.fields[p.field] == left
  }

  ghost predicate Compares(p: Predicate, b: Bundle, s: Settings, left: Value, right: Value)
  {
    Subject(p, b, left) && Against(p, b, s, right)
  }

  predicate TakesRight(op: Operator)
  {
    !IsAggregateOperator(op) && !IsReferenceOperator(op) && !IsWindowOperator(op)
  }

  /** Where the subject or the right-hand side cannot be had, nothing can be told. */
  lemma WithoutASideNobodyCanTell(p: Predicate, b: Bundle, s: Settings)
    requires TakesRight(p.operator)
    requires forall left, right :: !Compares(p, b, s, left, right)
    ensures Evaluate(p, b, s) == CannotTell
  {
    LiteralDay(p.value);
    if !ReadsFrom(p, b.related.Keys) && p.field in b.fields {
      var left := b.fields[p.field];
      if RightHandSide(p, b, s).Some? {
        var right := match RightHandSide(p, b, s).value case Evidence(v) => v case Literal(x) => Known(x, None);
        assert Compares(p, b, s, left, right);
      }
    }
  }

  // ------------------------------------------------------------------ when a comparison is refused
  /** The number an amount or a number is. */
  function AsNumber(p: Payload): real
    requires Numeric(p) || p.Amount?
  {
    if p.Amount? then DecimalOf(p.text) else Number(p)
  }

  /** A whole or decimal zero compares with an amount of any currency. */
  predicate Nothing(p: Payload)
  {
    p == Int(0) || (p.Dec? && DecimalOf(p.text) == 0.0)
  }

  /** An empty unit is none. */
  predicate Unitless(unit: Option<string>)
  {
    unit == None || unit == Some("")
  }

  predicate SameUnit(a: Option<string>, b: Option<string>)
  {
    a == b || (Unitless(a) && Unitless(b))
  }

  predicate UnitlessZero(v: Value)
    requires v.Known?
  {
    Unitless(v.unit) && IsZero(v.payload)
  }

  /** Two amounts of different currencies, an amount against anything but a zero, and bare numbers of
      different units are not compared. */
  predicate Refused(left: Value, right: Value)
    requires left.Known? && right.Known?
  {
    var x, y := left.payload, right.payload;
    if x.Amount? && y.Amount? then x.currency != y.currency
    else if x.Amount? then !Nothing(y)
    else if y.Amount? then !Nothing(x)
    else
      (IsBareNumber(x) || IsBareNumber(y)) && !SameUnit(left.unit, right.unit)
      && !UnitlessZero(right) && !(left.unit.None? && IsZero(x))
  }

  /** Both sides can be had and may be compared. */
  predicate Met(left: Value, right: Value)
  {
    left.Known? && right.Known? && !Refused(left, right)
  }

  predicate SomeAmount(left: Value, right: Value)
    requires left.Known? && right.Known?
  {
    left.payload.Amount? || right.payload.Amount?
  }

  lemma ZeroText()
    ensures DecimalOf("0") == 0.0
  {
  }

  /** The two as an amount compares with them. */
  lemma AmountPair(currency: string, other: Payload)
    ensures ComparableWith(currency, other).Some? <==>
              (if other.Amount? then other.currency == currency else Nothing(other))
    ensures ComparableWith(currency, other).Some? ==>
              var n := ComparableWith(currency, other).value;
              n.Dec? && (other.Amount? ==> n.text == other.text) && (!other.Amount? ==> n.text == "0")
  {
    hide DecimalOf;
  }

  lemma PairIs(left: Value, right: Operand, v: Value)
    requires right == Evidence(v) || (v.Known? && v.unit.None? && right == Literal(v.payload))
    ensures ComparablePair(left, right).Comparable? <==> Met(left, v)
    ensures Met(left, v) && !SomeAmount(left, v) ==> ComparablePair(left, right) == Comparable(left.payload, v.payload)
    ensures Met(left, v) && SomeAmount(left, v) ==>
              && (left.payload.Amount? || Nothing(left.payload)) && (v.payload.Amount? || Nothing(v.payload))
              && var pair := ComparablePair(left, right);
                 pair.left.Dec? && pair.right.Dec?
                 && DecimalOf(pair.left.text) == AsNumber(left.payload)
                    && DecimalOf(pair.right.text) == AsNumber(v.payload)
    ensures Met(left, v) && left.payload.Amount? && v.payload.Amount? ==>
              ComparablePair(left, right) == Comparable(Dec(left.payload.text), Dec(v.payload.text))
  {
    hide DecimalOf, ComparableWith;
    ZeroText();
    if left.Known? && left.payload.Amount? && v.Known? {
      AmountPair(left.payload.currency, v.payload);
    } else if left.Known? && v.Known? && v.payload.Amount? {
      AmountPair(v.payload.currency, left.payload);
    }
  }

  /** What Evaluate makes of a clause with both its sides. */
  lemma AppliedTo(p: Predicate, b: Bundle, s: Settings, left: Value, right: Value) returns (operand: Operand)
    requires TakesRight(p.operator) && Compares(p, b, s, left, right)
    requires !(IsOrdering(p.operator) && IsAbsence(left))
    ensures operand == Evidence(right) || (right.Known? && right.unit.None? && operand == Literal(right.payload))
    ensures Evaluate(p, b, s) == Apply(p.operator, left, operand)
  {
    LiteralDay(p.value);
    operand := RightHandSide(p, b, s).value;
  }

  // ------------------------------------------------------------------ equality
  /** The same number, where a side is an amount; the same value otherwise. */
  predicate SameValue(left: Value, right: Value)
    requires Met(left, right)
  {
    if SomeAmount(left, right) then AmountsAgree(left.payload, right.payload) else Equal(left.payload, right.payload)
  }

  predicate AmountsAgree(x: Payload, y: Payload)
  {
    (Numeric(x) || x.Amount?) && (Numeric(y) || y.Amount?) && AsNumber(x) == AsNumber(y)
  }

  lemma EqualToMeans(left: Value, operand: Operand, right: Value)
    requires operand == Evidence(right) || (right.Known? && right.unit.None? && operand == Literal(right.payload))
    ensures EqualTo(left, operand) ==
            if !Met(left, right) then CannotTell else if SameValue(left, right) then Yes else No
  {
    hide ComparablePair, Refused;
    PairIs(left, operand, right);
  }

  /** `equals` and `not_equals`: told exactly when both sides can be had and may be compared, and then
      by the values. */
  lemma EqualityMeans(p: Predicate, b: Bundle, s: Settings, left: Value, right: Value)
    requires Compares(p, b, s, left, right)
    ensures p.operator.Equals? ==>
              && (Evaluate(p, b, s) == Yes <==> Met(left, right) && SameValue(left, right))
              && (Evaluate(p, b, s) == No <==> Met(left, right) && !SameValue(left, right))
              && (Evaluate(p, b, s) == CannotTell <==> !Met(left, right))
    ensures p.operator.NotEquals? ==>
              && (Evaluate(p, b, s) == Yes <==> Met(left, right) && !SameValue(left, right))
              && (Evaluate(p, b, s) == No <==> Met(left, right) && SameValue(left, right))
              && (Evaluate(p, b, s) == CannotTell <==> !Met(left, right))
  {
    hide EqualTo, Met, SameValue, Evaluate;
    if p.operator.Equals? || p.operator.NotEquals? {
      var operand := AppliedTo(p, b, s, left, right);
      EqualToMeans(left, operand, right);
    }
  }

  /** The values that are the same, kind by kind: numbers by their size, a flag being one; texts by
      their letters; lists item by item, and never a list and a tuple. */
  lemma EqualMeans(x: Payload, y: Payload)
    ensures Numeric(x) && Numeric(y) ==> (Equal(x, y) <==> Number(x) == Number(y))
    ensures x.Text? && y.Text? ==> (Equal(x, y) <==> x.s == y.s)
    ensures x.Amount? && y.Amount? ==>
              (Equal(x, y) <==> x.currency == y.currency && DecimalOf(x.text) == DecimalOf(y.text))
    ensures x.Tuple? && y.Tuple? ==>
              (Equal(x, y) <==> |x.items| == |y.items| && forall i :: 0 <= i < |x.items| ==>
                Equal(x.items[i], y.items[i]))
    ensures x.List? && y.List? ==>
              (Equal(x, y) <==> |x.items| == |y.items| && forall i :: 0 <= i < |x.items| ==>
                Equal(x.items[i], y.items[i]))
    ensures x.Text? && !y.Text? ==> !Equal(x, y)
    ensures x.Tuple? && !y.Tuple? ==> !Equal(x, y)
    ensures x.List? && !y.List? ==> !Equal(x, y)
    ensures Numeric(x) && !Numeric(y) ==> !Equal(x, y)
    ensures x.Amount? && !y.Amount? ==> !Equal(x, y)
    ensures (x.Null? || x.NotApplicable?) ==> (Equal(x, y) <==> x == y)
    ensures Number(Flag(true)) == 1.0 && Number(Flag(false)) == 0.0 && (x.Int? ==> Number(x) == x.n as real)
  {
  }

  // ------------------------------------------------------------------ presence
  /** A known value that says something: not False, not not-applicable, not a blank text. */
  predicate SaysSomething(v: Value)
    requires v.Known?
  {
    v.payload != Flag(false) && !v.payload.NotApplicable? && !(v.payload.Text? && Blank(v.payload.s))
  }

  lemma PresenceMeans(p: Predicate, b: Bundle, s: Settings, left: Value, right: Value)
    requires Compares(p, b, s, left, right)
    ensures p.operator.Exists? ==>
              && (Evaluate(p, b, s) == Yes <==> left.Known? && SaysSomething(left))
              && (Evaluate(p, b, s) == No <==> left.Known? && !SaysSomething(left))
              && (Evaluate(p, b, s) == CannotTell <==> left.Unknown?)
    ensures p.operator.NotExists? ==>
              && (Evaluate(p, b, s) == Yes <==> left.Known? && !SaysSomething(left))
              && (Evaluate(p, b, s) == No <==> left.Known? && SaysSomething(left))
              && (Evaluate(p, b, s) == CannotTell <==> left.Unknown?)
  {
    if p.operator.Exists? || p.operator.NotExists? {
      var operand := AppliedTo(p, b, s, left, right);
    }
  }

  // ------------------------------------------------------------------ membership
  /** The subject and a collection of values can both be had. */
  predicate HasItems(left: Value, right: Value)
  {
    left.Known? && right.Known? && (right.payload.Tuple? || right.payload.List?)
  }

  predicate IsOneOf(left: Value, right: Value)
    requires HasItems(left, right)
  {
    exists i :: 0 <= i < |right.payload.items| && Equal(left.payload, right.payload.items[i])
  }

  lemma MemberIs(left: Value, operand: Operand, right: Value)
    requires operand == Evidence(right) || (right.Known? && right.unit.None? && operand == Literal(right.payload))
    ensures Member(left, operand)
            == if !HasItems(left, right) then CannotTell else if IsOneOf(left, right) then Yes else No
  {
  }

  /** `in`: yes exactly when an item of the known collection equals the known subject, no exactly when
      none does; `not_in` the other way about. */
  lemma MembershipMeans(p: Predicate, b: Bundle, s: Settings, left: Value, right: Value)
    requires Compares(p, b, s, left, right)
    ensures p.operator.In? ==>
              && (Evaluate(p, b, s) == Yes <==> HasItems(left, right) && IsOneOf(left, right))
              && (Evaluate(p, b, s) == No <==> HasItems(left, right) && !IsOneOf(left, right))
              && (Evaluate(p, b, s) == CannotTell <==> !HasItems(left, right))
    ensures p.operator.NotIn? ==>
              && (Evaluate(p, b, s) == Yes <==> HasItems(left, right) && !IsOneOf(left, right))
              && (Evaluate(p, b, s) == No <==> HasItems(left, right) && IsOneOf(left, right))
              && (Evaluate(p, b, s) == CannotTell <==> !HasItems(left, right))
  {
    hide Member, IsOneOf, HasItems;
    if p.operator.In? || p.operator.NotIn? {
      var operand := AppliedTo(p, b, s, left, right);
      MemberIs(left, operand, right);
    }
  }

  // ------------------------------------------------------------------ texts alike
  /** `matches_ignore_case`: the two sides read the same in lower case. */
  lemma MatchingMeans(p: Predicate, b: Bundle, s: Settings, left: Value, right: Value)
    requires Compares(p, b, s, left, right) && p.operator.MatchesIgnoreCase?
    ensures Evaluate(p, b, s) == CannotTell <==> !Met(left, right)
    ensures Met(left, right) ==> Definite(Evaluate(p, b, s))
    ensures Met(left, right) && !SomeAmount(left, right) ==>
              (Evaluate(p, b, s) == Yes <==> Lower(Str(left.payload)) == Lower(Str(right.payload)))
    ensures Met(left, right) && left.payload.Amount? && right.payload.Amount? ==>
              (Evaluate(p, b, s) == Yes <==> Lower(left.payload.text) == Lower(right.payload.text))
  {
    hide ComparablePair, Refused, Lower;
    var operand := AppliedTo(p, b, s, left, right);
    PairIs(left, operand, right);
  }

  // ------------------------------------------------------------------ orderings
  predicate Orders(op: Operator, less: bool, more: bool)
    requires IsOrdering(op)
  {
    match op
    case LessThan => less
    case AtMost => !more
    case MoreThan => more
    case AtLeast => !less
  }

  predicate BothNumbers(left: Value, right: Value)
    requires left.Known? && right.Known?
  {
    (Numeric(left.payload) || left.payload.Amount?) && (Numeric(right.payload) || right.payload.Amount?)
  }

  predicate BothTexts(left: Value, right: Value)
    requires left.Known? && right.Known?
  {
    left.payload.Text? && right.payload.Text?
  }

  lemma LessOfTwo(x: Payload, y: Payload)
    ensures Numeric(x) && Numeric(y) ==> Less(x, y) == Some(Number(x) < Number(y))
    ensures x.Text? && y.Text? ==> Less(x, y) == Some(Lt(x.s, y.s))
    ensures !(Numeric(x) && Numeric(y)) && !(x.Text? && y.Text?) ==> Less(x, y).None?
  {
    hide Lt, Number;
  }

  /** The two payloads an ordering compares, by their size where they are numbers. */
  lemma Sizes(left: Value, operand: Operand, right: Value) returns (x: Payload, y: Payload)
    requires operand == Evidence(right) || (right.Known? && right.unit.None? && operand == Literal(right.payload))
    requires Met(left, right)
    ensures ComparablePair(left, operand) == Comparable(x, y)
    ensures BothNumbers(left, right) ==>
              Numeric(x) && Numeric(y) && Number(x) == AsNumber(left.payload) && Number(y) == AsNumber(right.payload)
    ensures !BothNumbers(left, right) ==> x == left.payload && y == right.payload
  {
    hide ComparablePair, Refused, DecimalOf;
    PairIs(left, operand, right);
    var pair := ComparablePair(left, operand);
    x, y := pair.left, pair.right;
  }

  lemma OrderedPair(op: Operator, left: Value, operand: Operand, x: Payload, y: Payload)
    requires IsOrdering(op) && ComparablePair(left, operand) == Comparable(x, y)
    ensures Less(x, y).Some? && Less(y, x).Some? ==>
              Ordered(op, left, operand) == if Orders(op, Less(x, y).value, Less(y, x).value) then Yes else No
    ensures Less(x, y).None? && Less(y, x).None? ==> Ordered(op, left, operand) == Raises
  {
    hide ComparablePair, Less;
  }

  /** Each ordering, of two sides that may be compared: numbers and amounts of one currency by their
      size, texts - and so dates - by their letters, and anything else raises. */
  lemma OrderingMeans(p: Predicate, b: Bundle, s: Settings, left: Value, right: Value)
    requires Compares(p, b, s, left, right) && IsOrdering(p.operator) && !IsAbsence(left)
    ensures Evaluate(p, b, s) == CannotTell <==> !Met(left, right)
    ensures Met(left, right) && BothNumbers(left, right) ==>
              var x, y := AsNumber(left.payload), AsNumber(right.payload);
              Evaluate(p, b, s) == if Orders(p.operator, x < y, y < x) then Yes else No
    ensures Met(left, right) && BothTexts(left, right) ==>
              var x, y := left.payload.s, right.payload.s;
              Evaluate(p, b, s) == if Orders(p.operator, Lt(x, y), Lt(y, x)) then Yes else No
    ensures Met(left, right) && !BothNumbers(left, right) && !BothTexts(left, right) ==> Evaluate(p, b, s) == Raises
  {
    hide ComparablePair, Refused, Lt, Less, Ordered, Orders, AsNumber, Number;
    var operand := AppliedTo(p, b, s, left, right);
    assert Evaluate(p, b, s) == Ordered(p.operator, left, operand);
    if Met(left, right) {
      var x, y := Sizes(left, operand, right);
      LessOfTwo(x, y);
      LessOfTwo(y, x);
      OrderedPair(p.operator, left, operand, x, y);
    } else {
      PairIs(left, operand, right);
      Incomparable(p.operator, left, operand);
    }
  }

  lemma Incomparable(op: Operator, left: Value, operand: Operand)
    requires IsOrdering(op) && !ComparablePair(left, operand).Comparable?
    ensures Ordered(op, left, operand) == CannotTell
  {
    hide ComparablePair, Less;
  }

  /** An ordering of an absent subject answers what the clause says of an absence, and nothing else. */
  lemma AbsentSubjectMeans(p: Predicate, b: Bundle, s: Settings, left: Value, right: Value)
    requires Compares(p, b, s, left, right) && IsOrdering(p.operator) && IsAbsence(left)
    ensures Evaluate(p, b, s) == match p.absent case Some(true) => Yes case Some(false) => No case None => CannotTell
  {
    LiteralDay(p.value);
  }

  // ------------------------------------------------------------------ references
  /** `reference_exists` and `reference_missing`: by what the join of the field's entity is known to be. */
  lemma ReferenceMeans(p: Predicate, b: Bundle, s: Settings, left: Value)
    requires Subject(p, b, left)
    ensures var entity := EntityOf(p.field);
            var known := entity in b.joins && b.joins[entity].Known?;
            var matched := known && b.joins[entity].payload == Flag(true);
            && (p.operator.ReferenceExists? ==>
                  && (Evaluate(p, b, s) == Yes <==> matched)
                  && (Evaluate(p, b, s) == No <==> known && !matched)
                  && (Evaluate(p, b, s) == CannotTell <==> !known))
            && (p.operator.ReferenceMissing? ==>
                  && (Evaluate(p, b, s) == Yes <==> known && !matched)
                  && (Evaluate(p, b, s) == No <==> matched)
                  && (Evaluate(p, b, s) == CannotTell <==> !known))
  {
  }

  // ------------------------------------------------------------------ windows
  /** A bound that is there: not empty, not null, not zero or False. */
  predicate Bounding(v: Value)
    requires v.Known?
  {
    v.payload != Null && v.payload != Text("") && !IsZero(v.payload)
  }

  /** On or after the one bound and on or before the other, where they are there, and one of them is. */
  predicate Inside(moment: Payload, start: Value, end: Value)
    requires start.Known? && end.Known?
  {
    && (Bounding(start) || Bounding(end))
    && (Bounding(start) ==> Le(Str(start.payload), Str(moment)))
    && (Bounding(end) ==> Le(Str(moment), Str(end.payload)))
  }

  predicate Dated(v: Value)
  {
    v.Known? && (v.unit == Some("date") || v.unit == Some("datetime"))
  }

  /** The subject is a date, and both bounds can be had. */
  predicate Placeable(left: Value, start: Value, end: Value)
  {
    Dated(left) && start.Known? && end.Known?
  }

  /** `within` and `not_within`: inclusive at both ends, an empty bound open. */
  lemma WithinMeans(p: Predicate, b: Bundle, s: Settings, left: Value, start: Value, end: Value)
    requires Subject(p, b, left) && IsWindowOperator(p.operator) && p.interval.Some?
    requires p.interval.value.start in b.fields && b.fields[p.interval.value.start] == start
    requires p.interval.value.end in b.fields && b.fields[p.interval.value.end] == end
    ensures Evaluate(p, b, s) == CannotTell <==> !Placeable(left, start, end)
    ensures Placeable(left, start, end) ==>
              (Evaluate(p, b, s) == Yes <==> (p.operator.Within? <==> Inside(left.payload, start, end)))
              && (Evaluate(p, b, s) == No <==> (p.operator.NotWithin? <==> Inside(left.payload, start, end)))
  {
    hide Le, Str;
  }
}
