/** The controlled language: tokens in, a rule out, scanned left to right with no backtracking
    (hotelcontrols/compiler/grammar.py). Each function is one method of the parser, as a value;
    the module Parser runs it with a cursor. */
module Grammar {
  import opened Basics
  import opened Texts
  import opened Rules
  import opened Tokens
  import opened Keywords

  /** What parsing a part gives: a value and where the next token stands, a refusal, or the report
      that the words have two readings. */
  datatype Parsed<+T> = Done(value: T, at: nat) | Refused | Ambiguous {
    predicate IsFailure() { !Done? }

    function PropagateFailure<U>(): Parsed<U>
      requires IsFailure()
    {
      if Refused? then Refused else Ambiguous
    }

    function Extract(): (T, nat)
      requires Done?
    {
      (value, at)
    }
  }

  /** The parser's result keeps to the tokens there are, and moves on by at least `least`. */
  predicate Moves<T>(r: Parsed<T>, at: nat, least: nat, ts: seq<Token>)
  {
    r.Done? ==> at + least <= r.at <= |ts|
  }

  datatype Vocabulary = Vocabulary(subjects: set<string>, references: set<string>)

  /** A token, read with the keyword it is. */
  datatype Token = Token(text: string, word: Keyword)

  function Read(texts: seq<string>): (ts: seq<Token>)
    ensures |ts| == |texts| && forall i :: 0 <= i < |ts| ==> ts[i] == Token(texts[i], KeywordOf(texts[i]))
  {
    seq(|texts|, i requires 0 <= i < |texts| => Token(texts[i], KeywordOf(texts[i])))
  }

  // ------------------------------------------------------------------ cursor
  function Word(ts: seq<Token>, at: nat): Keyword
  {
    if at < |ts| then ts[at].word else Other
  }

  function LowerWord(ts: seq<Token>, at: nat): string
  {
    if at < |ts| then Lower(ts[at].text) else ""
  }

  function Take(ts: seq<Token>, at: nat): (r: Parsed<Token>)
    ensures Moves(r, at, 1, ts)
  {
    if at < |ts| then Done(ts[at], at + 1) else Refused
  }

  // ------------------------------------------------------------------ atoms
  predicate IsQuantifier(k: Keyword)
  {
    k == EveryWord || k == EachWord || k == AllWord || k == NoWord
  }

  predicate IsJoinWord(k: Keyword)
  {
    k == JoiningWord || k == CollectingWord
  }

  predicate IsClauseWord(k: Keyword)
  {
    IsJoinWord(k) || k == WhereWord || k == UnlessWord
      || k == ExceptWord || k == MustWord || k == MayWord || k == ShowingWord
  }

  /** Words that begin a phrase about which records to look at. */
  predicate IsPopulationWord(k: Keyword)
  {
    k == ArrivingWord || k == DepartingWord || k == StayingWord || k == CheckingWord
    || k == CreatedWord || k == BookedWord || k == CancelledWord || k == InWord
  }

  predicate HasDot(t: string) { '.' in t }

  function Field(ts: seq<Token>, at: nat): (r: Parsed<string>)
    ensures Moves(r, at, 1, ts)
  {
    var (token, next) :- Take(ts, at);
    if IsClauseWord(token.word) || IsQuantifier(token.word) then Refused
    else if HasDot(token.text) then Done(token.text, next) else Refused
  }

  /** A field after a fixed word. */
  function FieldAfter(ts: seq<Token>, at: nat, k: Keyword): (r: Parsed<string>)
    requires k != Other
    ensures Moves(r, at, 2, ts)
  {
    if Word(ts, at) == k then Field(ts, at + 1) else Refused
  }

  /** `^-?\d+(\.\d+)?$`. */
  predicate IsNumber(t: string)
  {
    var body := if t != "" && t[0] == '-' then t[1..] else t;
    var point := PointAt(body);
    point > 0 && AllDigits(body[..point]) && (point < |body| ==> point + 1 < |body| && AllDigits(body[point + 1..]))
  }

  /** `<field> to <field>`. */
  function IntervalAt(ts: seq<Token>, at: nat): (r: Parsed<Interval>)
    ensures Moves(r, at, 1, ts)
  {
    var (start, next) :- Field(ts, at);
    var (end, after) :- FieldAfter(ts, next, ToWord);
    Done(Interval(start, end), after)
  }

  // ------------------------------------------------------------------ conditions
  datatype OperandShape = OneOperand | AnInterval | NoOperand

  datatype Phrase = Phrase(positive: Operator, negated: Option<Operator>, operand: OperandShape, length: nat)

  /** The operand an operator takes. */
  function OperandKind(op: Operator): OperandShape
  {
    if IsUnary(op) then NoOperand else if IsIntervalOperator(op) then AnInterval else OneOperand
  }

  predicate Fits(op: Operator, operand: OperandShape)
  {
    !IsAggregateOperator(op) && operand == OperandKind(op)
  }

  /** The operator phrase two words make, or the first of them alone. */
  function PhraseFor(first: Keyword, second: Keyword): (p: Option<Phrase>)
    ensures p.Some? ==> p.value.length in {1, 2} && first != Other && (p.value.length == 2 ==> second != Other)
    ensures p.Some? ==> Fits(p.value.positive, p.value.operand)
    ensures p.Some? && p.value.negated.Some? ==> Fits(p.value.negated.value, p.value.operand)
  {
    if first == OneWord && second == OfWord then Some(Phrase(In, Some(NotIn), OneOperand, 2))
    else if first == AtWord && second == MostWord then Some(Phrase(AtMost, None, OneOperand, 2))
    else if first == AtWord && second == LeastWord then Some(Phrase(AtLeast, None, OneOperand, 2))
    else if first == LessWord && second == ThanWord then Some(Phrase(LessThan, None, OneOperand, 2))
    else if first == MoreWord && second == ThanWord then Some(Phrase(MoreThan, None, OneOperand, 2))
    else if first == GreaterWord && second == ThanWord then Some(Phrase(MoreThan, None, OneOperand, 2))
    else match first
      case WithinWord => Some(Phrase(Within, Some(NotWithin), AnInterval, 1))
      case ExistsWord => Some(Phrase(Exists, Some(NotExists), NoOperand, 1))
      case PresentWord => Some(Phrase(Exists, Some(NotExists), NoOperand, 1))
      case MissingWord => Some(Phrase(NotExists, None, NoOperand, 1))
      case ResolvedWord => Some(Phrase(ReferenceExists, Some(ReferenceMissing), NoOperand, 1))
      case UnresolvedWord => Some(Phrase(ReferenceMissing, None, NoOperand, 1))
      case MatchingWord => Some(Phrase(MatchesIgnoreCase, None, OneOperand, 1))
      case MatchesWord => Some(Phrase(MatchesIgnoreCase, None, OneOperand, 1))
      case _ => None
  }

  /** The operator phrase that starts here. */
  function OperatorPhrase(ts: seq<Token>, at: nat): (p: Option<Phrase>)
    ensures p.Some? ==> p.value.length > 0 && at + p.value.length <= |ts|
    ensures p.Some? ==> Fits(p.value.positive, p.value.operand)
    ensures p.Some? && p.value.negated.Some? ==> Fits(p.value.negated.value, p.value.operand)
  {
    PhraseFor(Word(ts, at), Word(ts, at + 1))
  }

  /** One right-hand side and never two. */
  datatype Side = LiteralSide(literal: RuleLiteral) | FieldSide(name: string) | SettingSide(setting: string)

  function OperandOf(ts: seq<Token>, at: nat): (r: Parsed<Side>)
    ensures Moves(r, at, 1, ts)
  {
    var (token, next) :- Take(ts, at);
    var text := token.text;
    if IsQuoted(text) then Done(LiteralSide(TextLiteral(text[1..|text| - 1])), next)
    else if IsNumber(text) then
      Done(LiteralSide(if HasDot(text) then DecimalLiteral(text) else WholeLiteral(IntOf(text))), next)
    else if token.word == TrueWord then Done(LiteralSide(TruthLiteral(true)), next)
    else if token.word == FalseWord then Done(LiteralSide(TruthLiteral(false)), next)
    else if token.word == SettingWord then
      var (name, after) :- Take(ts, next);
      Done(SettingSide(name.text), after)
    else if HasDot(text) then Done(FieldSide(text), next)
    else Ambiguous
  }

  /** `or absent` and `if present`. */
  function Absence(ts: seq<Token>, at: nat): (r: Parsed<Option<bool>>)
    ensures at <= |ts| ==> Moves(r, at, 0, ts)
  {
    if Word(ts, at) == OrWord then
      if Word(ts, at + 1) == AbsentWord then Done(Some(true), at + 2) else Refused
    else if Word(ts, at) == IfWord && Word(ts, at + 1) == PresentWord then Done(Some(false), at + 2)
    else Done(None, at)
  }

  function Plain(field: string, op: Operator): Predicate
  {
    Predicate(field, op, None, None, None, None, None)
  }

  function WithSide(p: Predicate, side: Side): Predicate
  {
    match side
    case LiteralSide(l) => p.(value := Some(l))
    case FieldSide(name) => p.(compareTo := Some(name))
    case SettingSide(name) => p.(tenantSetting := Some(name))
  }

  /** The rest of a condition, once its operator is known. */
  function ConditionRest(ts: seq<Token>, at: nat, field: string, op: Operator,
                         operand: OperandShape): (r: Parsed<Predicate>)
    requires at <= |ts|
    ensures Moves(r, at, 0, ts)
  {
    match operand
    case NoOperand => Done(Plain(field, op), at)
    case AnInterval =>
      var (interval, after) :- IntervalAt(ts, at);
      Done(Plain(field, op).(interval := Some(interval)), after)
    case OneOperand =>
      var (side, next) :- OperandOf(ts, at);
      if (op.In? || op.NotIn?) && side.LiteralSide? then Refused
      else
        var (absent, after) :- Absence(ts, next);
        Done(WithSide(Plain(field, op), side).(absent := absent), after)
  }

  /** What a condition does to its field. */
  datatype Verb = Verb(op: Operator, operand: OperandShape, length: nat)

  /** `is` and `not` have been seen or not; `is` with no operator word after it means equality. */
  function VerbOf(ts: seq<Token>, at: nat, isSeen: bool, negated: bool): (r: Option<Verb>)
    requires at <= |ts|
    ensures r.Some? ==> Fits(r.value.op, r.value.operand) && at + r.value.length <= |ts|
  {
    match OperatorPhrase(ts, at)
    case None => if isSeen then Some(Verb(if negated then NotEquals else Equals, OneOperand, 0)) else None
    case Some(phrase) =>
      if !negated then Some(Verb(phrase.positive, phrase.operand, phrase.length))
      else if phrase.negated.Some? then Some(Verb(phrase.negated.value, phrase.operand, phrase.length))
      else None
  }

  /** How a condition opens: its field, and whether `is` and `not` follow it. */
  datatype Opening = Opening(field: string, isSeen: bool, negated: bool)

  function OpeningOf(ts: seq<Token>, at: nat): (r: Parsed<Opening>)
    ensures Moves(r, at, 1, ts)
  {
    var (field, a) :- Field(ts, at);
    var isSeen := Word(ts, a) == IsWord;
    var b := if isSeen then a + 1 else a;
    var negated := Word(ts, b) == NotWord;
    Done(Opening(field, isSeen, negated), if negated then b + 1 else b)
  }

  /** The rest of a condition: nothing it can do, or an operator and its operand. */
  function Applied(ts: seq<Token>, at: nat, field: string, verb: Option<Verb>): (r: Parsed<Predicate>)
    requires verb.Some? ==> at + verb.value.length <= |ts|
    ensures Moves(r, at, 0, ts)
  {
    match verb
    case None => Refused
    case Some(v) => ConditionRest(ts, at + v.length, field, v.op, v.operand)
  }

  function Condition(ts: seq<Token>, at: nat): (r: Parsed<Predicate>)
    ensures Moves(r, at, 1, ts)
  {
    var (opening, next) :- OpeningOf(ts, at);
    Applied(ts, next, opening.field, VerbOf(ts, next, opening.isSeen, opening.negated))
  }

  function Conditions(ts: seq<Token>, at: nat): (r: Parsed<seq<Predicate>>)
    ensures Moves(r, at, 1, ts)
    decreases |ts| - at
  {
    var (first, next) :- Condition(ts, at);
    if Word(ts, next) == AndWord then
      var (rest, after) :- Conditions(ts, next + 1);
      Done([first] + rest, after)
    else Done([first], next)
  }

  // ------------------------------------------------------------------ joins
  predicate AnotherJoinFollows(ts: seq<Token>, at: nat, v: Vocabulary)
  {
    Word(ts, at + 1) == TheWord || LowerWord(ts, at + 1) in v.references
  }

  function SetJoin(ts: seq<Token>, at: nat): (r: Parsed<Reference>)
    requires at <= |ts|
    ensures Moves(r, at, 1, ts)
  {
    if Word(ts, at) != SetWord then Refused
    else
      var (field, b) :- FieldAfter(ts, at + 1, OfWord);
      Done(Reference(EntityOf(field), ValueSet, None, None, Some(field), false), b)
  }

  /** `from the hotel`. */
  function Source(ts: seq<Token>, at: nat): (r: Parsed<bool>)
    requires at <= |ts|
    ensures Moves(r, at, 0, ts)
  {
    if Word(ts, at) == FromWord then
      if Word(ts, at + 1) == TheWord && Word(ts, at + 2) == HotelWord then Done(true, at + 3) else Refused
    else Done(false, at)
  }

  /** `<entity> [from the hotel] by <field> to <field>`. */
  function KeyedJoin(ts: seq<Token>, at: nat, kind: Kind, v: Vocabulary): (r: Parsed<Reference>)
    ensures Moves(r, at, 1, ts)
  {
    var (token, a) :- Take(ts, at);
    var entity := Lower(token.text);
    if entity !in v.references then Refused
    else
      var (fromTenant, b) :- Source(ts, a);
      var (local, c) :- FieldAfter(ts, b, ByWord);
      var (remote, d) :- FieldAfter(ts, c, ToWord);
      Done(Reference(entity, kind, Some(local), Some(remote), None, fromTenant), d)
  }

  function Join(ts: seq<Token>, at: nat, kind: Kind, v: Vocabulary): (r: Parsed<Reference>)
    ensures Moves(r, at, 1, ts)
  {
    if Word(ts, at) == TheWord then SetJoin(ts, at + 1) else KeyedJoin(ts, at, kind, v)
  }

  /** Joins of one kind, separated by `and`. */
  function JoinList(ts: seq<Token>, at: nat, kind: Kind, v: Vocabulary): (r: Parsed<seq<Reference>>)
    ensures Moves(r, at, 1, ts)
    decreases |ts| - at
  {
    var (first, next) :- Join(ts, at, kind, v);
    if Word(ts, next) == AndWord && AnotherJoinFollows(ts, next, v) then
      var (rest, after) :- JoinList(ts, next + 1, kind, v);
      Done([first] + rest, after)
    else Done([first], next)
  }

  function JoinKind(k: Keyword): Kind
  {
    if k == CollectingWord then Collection else Lookup
  }

  function JoinClauses(ts: seq<Token>, at: nat, v: Vocabulary): (r: Parsed<seq<Reference>>)
    requires at <= |ts|
    ensures Moves(r, at, 0, ts)
    decreases |ts| - at
  {
    if IsJoinWord(Word(ts, at)) then
      var (some, next) :- JoinList(ts, at + 1, JoinKind(Word(ts, at)), v);
      var (more, after) :- JoinClauses(ts, next, v);
      Done(some + more, after)
    else Done([], at)
  }

  function Joins(ts: seq<Token>, at: nat, v: Vocabulary): (r: Parsed<seq<Reference>>)
    requires at <= |ts|
    ensures Moves(r, at, 0, ts)
  {
    var (references, next) :- JoinClauses(ts, at, v);
    if IsPopulationWord(Word(ts, next)) then Refused else Done(references, next)
  }

  // ------------------------------------------------------------------ clauses
  function Scope(ts: seq<Token>, at: nat): (r: Parsed<seq<Predicate>>)
    requires at <= |ts|
    ensures Moves(r, at, 0, ts)
  {
    if Word(ts, at) == WhereWord then Conditions(ts, at + 1) else Done([], at)
  }

  function Exceptions(ts: seq<Token>, at: nat): (r: Parsed<seq<Predicate>>)
    requires at <= |ts|
    ensures Moves(r, at, 0, ts)
  {
    if Word(ts, at) == ExceptWord then
      if Word(ts, at + 1) == WhereWord then Conditions(ts, at + 2) else Refused
    else if Word(ts, at) == UnlessWord then Conditions(ts, at + 1)
    else Done([], at)
  }

  // ------------------------------------------------------------------ assertion
  datatype Modal = Modal(mode: Mode, negated: bool)

  /** `at least one of`. */
  predicate AtLeastOneOf(ts: seq<Token>, at: nat)
  {
    Word(ts, at) == AtWord && Word(ts, at + 1) == LeastWord && Word(ts, at + 2) == OneWord && Word(ts, at + 3) == OfWord
  }

  /** What follows `must`. */
  function MustOf(ts: seq<Token>, at: nat): (r: Parsed<Modal>)
    requires at <= |ts|
    ensures Moves(r, at, 1, ts)
    ensures r.Done? ==> !r.value.mode.Aggregate?
  {
    var negated := Word(ts, at) == NotWord;
    var a := if negated then at + 1 else at;
    if !negated && Word(ts, a) == SatisfyWord then
      if AtLeastOneOf(ts, a + 1) then Done(Modal(AnyOf, false), a + 5) else Refused
    else if Word(ts, a) == HaveWord then Done(Modal(if negated then NoneOf else AllOf, negated), a + 1)
    else Refused
  }

  function ModalOf(ts: seq<Token>, at: nat, quantifier: Keyword): (r: Parsed<Modal>)
    requires at <= |ts|
    ensures Moves(r, at, 1, ts)
    ensures r.Done? ==> !r.value.mode.Aggregate?
  {
    if Word(ts, at) == MustWord then MustOf(ts, at + 1)
    else if Word(ts, at) == MayWord && quantifier == NoWord && Word(ts, at + 1) == HaveWord then
      Done(Modal(NoneOf, true), at + 2)
    else Refused
  }

  function WholeNumber(ts: seq<Token>, at: nat): (r: Parsed<nat>)
    ensures Moves(r, at, 1, ts)
  {
    var (token, next) :- Take(ts, at);
    if token.text != "" && AllDigits(token.text) then Done(NatOf(token.text), next) else Refused
  }

  /** `at most N <field> per <field>`. */
  function CountPer(ts: seq<Token>, at: nat): (r: Parsed<Assertion>)
    requires at <= |ts|
    ensures Moves(r, at, 1, ts)
  {
    if Word(ts, at) != MostWord then Refused
    else
      var (limit, b) :- WholeNumber(ts, at + 1);
      var (field, c) :- Field(ts, b);
      var (key, d) :- FieldAfter(ts, c, PerWord);
      Grouped(ts, d, key, Plain(field, CountLte).(value := Some(WholeLiteral(limit))))
  }

  /** `<field> from <field> to <field> per <field>`. */
  function Overlapping(ts: seq<Token>, at: nat): (r: Parsed<Assertion>)
    ensures Moves(r, at, 1, ts)
  {
    var (field, c) :- Field(ts, at);
    if Word(ts, c) != FromWord then Refused
    else
      var (interval, e) :- IntervalAt(ts, c + 1);
      var (key, f) :- FieldAfter(ts, e, PerWord);
      Grouped(ts, f, key, Plain(field, NoOverlap).(interval := Some(interval)))
  }

  /** `no overlapping <field> from <field> to <field> per <field>`. */
  function OverlapPer(ts: seq<Token>, at: nat): (r: Parsed<Assertion>)
    requires at <= |ts|
    ensures Moves(r, at, 1, ts)
  {
    if Word(ts, at) != NoWord || Word(ts, at + 1) != OverlappingWord then Refused else Overlapping(ts, at + 2)
  }

  function Aggregated(ts: seq<Token>, at: nat): (r: Parsed<Assertion>)
    requires at <= |ts|
    ensures Moves(r, at, 1, ts)
  {
    if Word(ts, at) == AtWord then CountPer(ts, at + 1) else OverlapPer(ts, at)
  }

  /** One aggregate question and nothing beside it. */
  function Grouped(ts: seq<Token>, at: nat, key: string, p: Predicate): Parsed<Assertion>
  {
    if Word(ts, at) == AndWord then Refused else Done(Assertion(Aggregate, Some(key), [p]), at)
  }

  /** What the modal introduces: a question about a group, or conditions on one record. */
  function Required(ts: seq<Token>, at: nat, modal: Modal): (r: Parsed<Assertion>)
    requires at <= |ts|
    ensures Moves(r, at, 1, ts)
  {
    if Word(ts, at) == AtWord || Word(ts, at) == NoWord then
      if modal.negated then Refused else Aggregated(ts, at)
    else
      var (predicates, after) :- Conditions(ts, at);
      Done(Assertion(modal.mode, None, predicates), after)
  }

  function AssertionOf(ts: seq<Token>, at: nat, quantifier: Keyword): (r: Parsed<Assertion>)
    requires at <= |ts|
    ensures Moves(r, at, 1, ts)
  {
    var (modal, next) :- ModalOf(ts, at, quantifier);
    Required(ts, next, modal)
  }

  // ------------------------------------------------------------------ the sentence
  function FieldList(ts: seq<Token>, at: nat): (r: Parsed<seq<string>>)
    ensures Moves(r, at, 1, ts)
    decreases |ts| - at
  {
    var (first, next) :- Field(ts, at);
    if Word(ts, next) == AndWord then
      var (rest, after) :- FieldList(ts, next + 1);
      Done([first] + rest, after)
    else Done([first], next)
  }

  function Showing(ts: seq<Token>, at: nat): (r: Parsed<seq<string>>)
    requires at <= |ts|
    ensures Moves(r, at, 0, ts)
  {
    if Word(ts, at) == ShowingWord then FieldList(ts, at + 1) else Done([], at)
  }

  /** A rule, and the extra evidence its sentence asks to see. */
  datatype Logic = Logic(rule: Rule, showing: seq<string>)

  function Parse(ts: seq<Token>, v: Vocabulary): Parsed<Logic>
  {
    if !IsQuantifier(Word(ts, 0)) then Refused
    else
      var (subject, a) :- Take(ts, 1);
      if Lower(subject.text) !in v.subjects then Refused
      else
        var (references, b) :- Joins(ts, a, v);
        var (scope, c) :- Scope(ts, b);
        var (exceptions, d) :- Exceptions(ts, c);
        var (assertion, e) :- AssertionOf(ts, d, Word(ts, 0));
        var (showing, f) :- Showing(ts, e);
        if f < |ts| then Refused
        else Done(Logic(Rule(Lower(subject.text), references, scope, exceptions, assertion), showing), f)
  }
}
