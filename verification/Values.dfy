/** One canonical field's worth of evidence: a known payload or a reasoned unknown
    (hotelcontrols/kernel/value.py, hotelcontrols/kernel/money.py). */
module Values {
  import opened Basics
  import opened Texts

  /** What a value or a literal may hold. Decimals and amounts keep the text Python renders them
      as; the number they denote is `DecimalOf` that text. */
  datatype Payload =
    | Null
    | Flag(b: bool)
    | Text(s: string)
    | Int(n: int)
    | Dec(text: string)
    | Float(text: string)
    | Amount(text: string, currency: string)
    | NotApplicable
    | Tuple(items: seq<Payload>)
    | List(items: seq<Payload>)
    | Dict(entries: seq<Entry>)

  datatype Entry = Entry(key: string, value: Payload)

  datatype Value =
    | Known(payload: Payload, unit: Option<string>)
    | Unknown(reason: string, risk: Option<string>)

  /** The information order: an unknown may become anything, a known value stays what it is. */
  ghost predicate Refines(a: Value, b: Value)
  {
    a.Unknown? || a == b
  }

  /** What sits on the right of a comparison: another value, or a literal or setting. */
  datatype Operand = Evidence(value: Value) | Literal(payload: Payload)

  ghost predicate OperandRefines(a: Operand, b: Operand)
  {
    a == b || (a.Evidence? && b.Evidence? && Refines(a.value, b.value))
  }

  // ------------------------------------------------------------------ payloads as Python sees them
  /** `bool` is an `int` in Python, so a flag is a number here too. */
  predicate Numeric(p: Payload)
  {
    p.Flag? || p.Int? || p.Dec? || p.Float?
  }

  function Number(p: Payload): real
    requires Numeric(p)
  {
    match p
    case Flag(b) => if b then 1.0 else 0.0
    case Int(n) => n as real
    case Dec(text) => DecimalOf(text)
    case Float(text) => DecimalOf(text)
  }

  /** Python's `==`. */
  predicate Equal(a: Payload, b: Payload)
  {
    if Numeric(a) && Numeric(b) then Number(a) == Number(b)
    else match (a, b)
      case (Amount(x, c), Amount(y, d)) => DecimalOf(x) == DecimalOf(y) && c == d
      case (Tuple(xs), Tuple(ys)) => |xs| == |ys| && forall i :: 0 <= i < |xs| ==> Equal(xs[i], ys[i])
      case (List(xs), List(ys)) => |xs| == |ys| && forall i :: 0 <= i < |xs| ==> Equal(xs[i], ys[i])
      case _ => a == b
  }

  predicate IsZero(p: Payload)
  {
    Numeric(p) && Number(p) == 0.0
  }

  /** Python's `str`. */
  function Str(p: Payload): string
  {
    match p
    case Null => "None"
    case Flag(b) => if b then "True" else "False"
    case Text(s) => s
    case Int(n) => IntText(n)
    case Dec(text) => text
    case Float(text) => text
    case Amount(text, currency) => text + " " + currency
    case NotApplicable => "NOT_APPLICABLE"
    case Tuple(items) => "(" + StrAll(items) + ")"
    case List(items) => "[" + StrAll(items) + "]"
    case Dict(entries) => "{" + StrEntries(entries) + "}"
  }

  function StrAll(items: seq<Payload>): string
  {
    if items == [] then "" else Str(items[0]) + ", " + StrAll(items[1..])
  }

  function StrEntries(entries: seq<Entry>): string
  {
    if entries == [] then "" else
      var entry := entries[0];
      entry.key + ": " + Str(entry.value) + ", " + StrEntries(entries[1..])
  }

  /** `payload in (False, None, "")`: zero is in it, because `0 == False`. */
  predicate Unset(p: Payload)
  {
    p == Null || p == Text("") || IsZero(p)
  }

  /** A known value the provider left empty: `payload is False` or not applicable. */
  predicate IsAbsence(v: Value)
  {
    v.Known? && (v.payload == Flag(false) || v.payload.NotApplicable?)
  }

  predicate IsDate(v: Value)
  {
    v.Known? && (v.unit == Some("date") || v.unit == Some("datetime"))
  }

  // ------------------------------------------------------------------ the one gate for comparisons
  datatype Pair = Comparable(left: Payload, right: Payload) | UnknownSide | Mismatch

  function UnitOf(unit: Option<string>): Option<string>
  {
    if unit == Some("") then None else unit
  }

  /** An amount against something else: the other side's number in this currency, or a refusal. */
  function ComparableWith(currency: string, other: Payload): Option<Payload>
  {
    match other
    case Amount(text, c) => if c == currency then Some(Dec(text)) else None
    case Int(n) => if n == 0 then Some(Dec("0")) else None
    case Dec(text) => if DecimalOf(text) == 0.0 then Some(Dec("0")) else None
    case _ => None
  }

  predicate IsBareNumber(p: Payload)
  {
    p.Int? || p.Dec?
  }

  function ComparablePair(left: Value, right: Operand): Pair
  {
    if left.Unknown? then UnknownSide
    else if right.Evidence? && right.value.Unknown? then UnknownSide
    else
      var other := if right.Evidence? then right.value.payload else right.payload;
      var otherUnit := if right.Evidence? then UnitOf(right.value.unit) else None;
      if left.payload.Amount? then
        match ComparableWith(left.payload.currency, other)
        case Some(n) => Comparable(Dec(left.payload.text), n)
        case None => Mismatch
      else if other.Amount? then
        match ComparableWith(other.currency, left.payload)
        case Some(n) => Comparable(n, Dec(other.text))
        case None => Mismatch
      else if (IsBareNumber(left.payload) || IsBareNumber(other))
              && UnitOf(left.unit) != otherUnit
              && !(otherUnit.None? && IsZero(other))
              && !(left.unit.None? && IsZero(left.payload)) then Mismatch
      else Comparable(left.payload, other)
  }

  /** Python's `a < b`, or None where it raises a TypeError. */
  function Less(a: Payload, b: Payload): Option<bool>
  {
    if Numeric(a) && Numeric(b) then Some(Number(a) < Number(b))
    else if a.Text? && b.Text? then Some(Lt(a.s, b.s))
    else None
  }
}
