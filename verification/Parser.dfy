/** The parser as it runs: one cursor moving over the tokens (hotelcontrols/compiler/grammar.py).
    Each method is proved to do what its function in Grammar says and to leave the cursor there. */
module Parser {
  import opened Basics
  import opened Texts
  import opened Rules
  import opened Tokens
  import opened Keywords
  import opened Grammar
  import Checks

  /** What a parser method gives: a value, or one of the two exceptions it can raise. */
  datatype Step<+T> = Took(value: T) | Raised(ambiguous: bool) {
    predicate IsFailure() { Raised? }

    function PropagateFailure<U>(): Step<U>
      requires IsFailure()
    {
      Raised(ambiguous)
    }

    function Extract(): T
      requires Took?
    {
      value
    }
  }

  /** A step does what the grammar says, and leaves the cursor where it says. */
  predicate Agrees<T(==)>(step: Step<T>, spec: Parsed<T>, cursor: nat)
  {
    match spec
    case Done(value, at) => step == Took(value) && cursor == at
    case Refused => step == Raised(false)
    case Ambiguous => step == Raised(true)
  }

  /** A list begun, and how it goes on. */
  function Onto<T>(begun: seq<T>, rest: Parsed<seq<T>>): Parsed<seq<T>>
  {
    match rest
    case Done(more, at) => Done(begun + more, at)
    case _ => rest
  }

  lemma OntoOnto<T>(a: seq<T>, b: seq<T>, rest: Parsed<seq<T>>)
    ensures Onto(a, Onto(b, rest)) == Onto(a + b, rest)
  {
    if rest.Done? {
      assert a + (b + rest.value) == (a + b) + rest.value;
    }
  }

  function MoreConditions(ts: seq<Token>, at: nat): Parsed<seq<Predicate>>
  {
    if Word(ts, at) == AndWord then Conditions(ts, at + 1) else Done([], at)
  }

  function MoreFields(ts: seq<Token>, at: nat): Parsed<seq<string>>
  {
    if Word(ts, at) == AndWord then FieldList(ts, at + 1) else Done([], at)
  }

  function MoreJoins(ts: seq<Token>, at: nat, kind: Kind, v: Vocabulary): Parsed<seq<Reference>>
  {
    if Word(ts, at) == AndWord && AnotherJoinFollows(ts, at, v) then JoinList(ts, at + 1, kind, v) else Done([], at)
  }

  lemma ConditionsGoOn(ts: seq<Token>, at: nat, first: Predicate, next: nat)
    requires Condition(ts, at) == Done(first, next)
    ensures Conditions(ts, at) == Onto([first], MoreConditions(ts, next))
  {
    hide Condition;
    assert [first] + [] == [first];
  }

  function Failed<T, U>(r: Parsed<T>): Parsed<U>
    requires !r.Done?
  {
    if r.Refused? then Refused else Ambiguous
  }

  lemma ConditionsStopHere(ts: seq<Token>, at: nat)
    ensures !Condition(ts, at).Done? ==> Conditions(ts, at) == Failed(Condition(ts, at))
  {
    hide Condition;
  }

  lemma FieldsStopHere(ts: seq<Token>, at: nat)
    ensures !Field(ts, at).Done? ==> FieldList(ts, at) == Failed(Field(ts, at))
  {
    hide Field;
  }

  lemma JoinsStopHere(ts: seq<Token>, at: nat, kind: Kind, v: Vocabulary)
    ensures !Join(ts, at, kind, v).Done? ==> JoinList(ts, at, kind, v) == Failed(Join(ts, at, kind, v))
  {
    hide Join;
  }

  lemma ClausesStopHere(ts: seq<Token>, at: nat, v: Vocabulary)
    requires at <= |ts| && IsJoinWord(Word(ts, at))
    ensures var list := JoinList(ts, at + 1, JoinKind(Word(ts, at)), v);
            !list.Done? ==> JoinClauses(ts, at, v) == Failed(list)
  {
    hide JoinList;
  }

  lemma NoClauses(ts: seq<Token>, at: nat, v: Vocabulary)
    requires at <= |ts| && !IsJoinWord(Word(ts, at))
    ensures JoinClauses(ts, at, v) == Done([], at)
  {
  }

  lemma OntoNothing<T>(rest: Parsed<seq<T>>)
    ensures Onto([], rest) == rest
  {
    if rest.Done? {
      assert [] + rest.value == rest.value;
    }
  }

  lemma FieldsGoOn(ts: seq<Token>, at: nat, first: string, next: nat)
    requires Field(ts, at) == Done(first, next)
    ensures FieldList(ts, at) == Onto([first], MoreFields(ts, next))
  {
    hide Field;
    assert [first] + [] == [first];
  }

  lemma JoinsGoOn(ts: seq<Token>, at: nat, kind: Kind, v: Vocabulary, first: Reference, next: nat)
    requires Join(ts, at, kind, v) == Done(first, next)
    ensures JoinList(ts, at, kind, v) == Onto([first], MoreJoins(ts, next, kind, v))
  {
    hide Join, AnotherJoinFollows;
    assert [first] + [] == [first];
  }

  lemma ClausesGoOn(ts: seq<Token>, at: nat, v: Vocabulary, some: seq<Reference>, next: nat)
    requires at <= |ts| && IsJoinWord(Word(ts, at))
    requires JoinList(ts, at + 1, JoinKind(Word(ts, at)), v) == Done(some, next)
    ensures JoinClauses(ts, at, v) == Onto(some, JoinClauses(ts, next, v))
  {
    hide JoinList;
  }

  // ------------------------------------------------------------------ the operator table
  datatype TableRow = TableRow(
    first: Keyword,
    second: Option<Keyword>,
    positive: Operator,
    negated: Option<Operator>,
    operand: OperandShape)

  /** How many phrases there are. */
  const PHRASES := 14

  /** The phrases, the longer ones first. */
  function Row(k: nat): TableRow
    requires k < PHRASES
  {
    match k
    case 0 => TableRow(OneWord, Some(OfWord), In, Some(NotIn), OneOperand)
    case 1 => TableRow(AtWord, Some(MostWord), AtMost, None, OneOperand)
    case 2 => TableRow(AtWord, Some(LeastWord), AtLeast, None, OneOperand)
    case 3 => TableRow(LessWord, Some(ThanWord), LessThan, None, OneOperand)
    case 4 => TableRow(MoreWord, Some(ThanWord), MoreThan, None, OneOperand)
    case 5 => TableRow(GreaterWord, Some(ThanWord), MoreThan, None, OneOperand)
    case 6 => TableRow(WithinWord, None, Within, Some(NotWithin), AnInterval)
    case 7 => TableRow(ExistsWord, None, Exists, Some(NotExists), NoOperand)
    case 8 => TableRow(PresentWord, None, Exists, Some(NotExists), NoOperand)
    case 9 => TableRow(MissingWord, None, NotExists, None, NoOperand)
    case 10 => TableRow(ResolvedWord, None, ReferenceExists, Some(ReferenceMissing), NoOperand)
    case 11 => TableRow(UnresolvedWord, None, ReferenceMissing, None, NoOperand)
    case 12 => TableRow(MatchingWord, None, MatchesIgnoreCase, None, OneOperand)
    case _ => TableRow(MatchesWord, None, MatchesIgnoreCase, None, OneOperand)
  }

  predicate RowMatches(row: TableRow, first: Keyword, second: Keyword)
  {
    first == row.first && (row.second.Some? ==> second == row.second.value)
  }

  function RowLength(row: TableRow): nat
  {
    if row.second.Some? then 2 else 1
  }

  function PhraseOf(row: TableRow): Phrase
  {
    Phrase(row.positive, row.negated, row.operand, RowLength(row))
  }

  /** A row that matches is the grammar's phrase, so at most one reading matches anywhere: the order
      the table is searched in does not matter. */
  lemma RowIsPhrase(first: Keyword, second: Keyword, k: nat)
    requires k < PHRASES && RowMatches(Row(k), first, second)
    ensures PhraseFor(first, second) == Some(PhraseOf(Row(k)))
  {
    hide PhraseFor, PhraseOf, Row, RowMatches;
    if k < 6 {
      LongRowIsPhrase(first, second, k);
    } else {
      ShortRowIsPhrase(first, second, k);
    }
  }

  lemma LongRowIsPhrase(first: Keyword, second: Keyword, k: nat)
    requires k < 6 && RowMatches(Row(k), first, second)
    ensures PhraseFor(first, second) == Some(PhraseOf(Row(k)))
  {
    match k {
      case 0 =>
      case 1 =>
      case 2 =>
      case 3 =>
      case 4 =>
      case _ =>
    }
  }

  lemma ShortRowIsPhrase(first: Keyword, second: Keyword, k: nat)
    requires 6 <= k < PHRASES && RowMatches(Row(k), first, second)
    ensures PhraseFor(first, second) == Some(PhraseOf(Row(k)))
  {
    match k {
      case 6 =>
      case 7 =>
      case 8 =>
      case 9 =>
      case 10 =>
      case 11 =>
      case 12 =>
      case _ =>
    }
  }

  /** Every phrase of the grammar is a row of the table. */
  lemma PhraseHasRow(first: Keyword, second: Keyword) returns (k: nat)
    requires PhraseFor(first, second).Some?
    ensures k < PHRASES && RowMatches(Row(k), first, second)
  {
    hide Row, RowMatches;
    if PhraseFor(first, second).value.length == 2 {
      k := LongPhraseHasRow(first, second);
    } else {
      k := ShortPhraseHasRow(first, second);
    }
  }

  lemma LongPhraseHasRow(first: Keyword, second: Keyword) returns (k: nat)
    requires PhraseFor(first, second).Some? && PhraseFor(first, second).value.length == 2
    ensures k < 6 && RowMatches(Row(k), first, second)
  {
    if first == OneWord { return 0; }
    if first == AtWord { return if second == MostWord then 1 else 2; }
    if first == LessWord { return 3; }
    return if first == MoreWord then 4 else 5;
  }

  lemma ShortPhraseHasRow(first: Keyword, second: Keyword) returns (k: nat)
    requires PhraseFor(first, second).Some? && PhraseFor(first, second).value.length == 1
    ensures 6 <= k < PHRASES && RowMatches(Row(k), first, second)
  {
    if first == WithinWord { return 6; }
    if first == ExistsWord { return 7; }
    if first == PresentWord { return 8; }
    if first == MissingWord { return 9; }
    if first == ResolvedWord { return 10; }
    if first == UnresolvedWord { return 11; }
    return if first == MatchingWord then 12 else 13;
  }

  lemma NoRowNoPhrase(first: Keyword, second: Keyword)
    requires forall k :: 0 <= k < PHRASES ==> !RowMatches(Row(k), first, second)
    ensures PhraseFor(first, second) == None
  {
    hide PhraseFor, RowMatches, Row;
    if PhraseFor(first, second).Some? {
      var k := PhraseHasRow(first, second);
    }
  }

  // ------------------------------------------------------------------ the parser
  class Cursor {
    const tokens: seq<Token>
    const vocabulary: Vocabulary
    var at: nat

    predicate Valid()
      reads this
    {
      at <= |tokens|
    }

    constructor (sentence: string, v: Vocabulary)
      ensures Valid() && at == 0 && tokens == Read(TokensOf(sentence)) && vocabulary == v
    {
      tokens := Read(TokensOf(sentence));
      vocabulary := v;
      at := 0;
    }

    method TakeToken() returns (r: Step<Token>)
      requires Valid()
      modifies `at
      ensures Valid() && Agrees(r, Take(tokens, old(at)), at)
    {
      if at >= |tokens| {
        return Raised(false);
      }
      at := at + 1;
      r := Took(tokens[at - 1]);
    }

    method Accept(k: Keyword) returns (seen: bool)
      requires Valid() && k != Other
      modifies `at
      ensures Valid() && seen == (Word(tokens, old(at)) == k) && at == old(at) + if seen then 1 else 0
    {
      seen := Word(tokens, at) == k;
      if seen {
        at := at + 1;
      }
    }

    method Expect(k: Keyword) returns (r: Step<()>)
      requires Valid() && k != Other
      modifies `at
      ensures Valid() && r == (if Word(tokens, old(at)) == k then Took(()) else Raised(false))
      ensures r.Took? ==> at == old(at) + 1
    {
      var seen := Accept(k);
      r := if seen then Took(()) else Raised(false);
    }

    method TakeField() returns (r: Step<string>)
      requires Valid()
      modifies `at
      ensures Valid() && Agrees(r, Field(tokens, old(at)), at)
    {
      var token :- TakeToken();
      if IsClauseWord(token.word) || IsQuantifier(token.word) || !HasDot(token.text) {
        return Raised(false);
      }
      r := Took(token.text);
    }

    method TakeFieldAfter(k: Keyword) returns (r: Step<string>)
      requires Valid() && k != Other
      modifies `at
      ensures Valid() && Agrees(r, FieldAfter(tokens, old(at), k), at)
    {
      hide Field;
      var _ :- Expect(k);
      r := TakeField();
    }

    method TakeInterval() returns (r: Step<Interval>)
      requires Valid()
      modifies `at
      ensures Valid() && Agrees(r, IntervalAt(tokens, old(at)), at)
    {
      hide Field, FieldAfter;
      var start :- TakeField();
      var end :- TakeFieldAfter(ToWord);
      r := Took(Interval(start, end));
    }

    method TakeWholeNumber() returns (r: Step<nat>)
      requires Valid()
      modifies `at
      ensures Valid() && Agrees(r, WholeNumber(tokens, old(at)), at)
    {
      var token :- TakeToken();
      if token.text == "" || !AllDigits(token.text) {
        return Raised(false);
      }
      r := Took(NatOf(token.text));
    }

    // ---------------------------------------------------------------- conditions
    method TakeOperatorPhrase() returns (matched: Option<TableRow>)
      requires Valid()
      modifies `at
      ensures Valid()
      ensures match matched
              case Some(row) => OperatorPhrase(tokens, old(at)) == Some(PhraseOf(row)) && at == old(at) + RowLength(row)
              case None => OperatorPhrase(tokens, old(at)) == None && at == old(at)
    {
      hide PhraseFor, Row, RowMatches;
      var first, second := Word(tokens, at), Word(tokens, at + 1);
      for k := 0 to PHRASES
        invariant at == old(at) && Valid()
        invariant forall j :: 0 <= j < k ==> !RowMatches(Row(j), first, second)
      {
        if RowMatches(Row(k), first, second) {
          RowIsPhrase(first, second, k);
          at := at + RowLength(Row(k));
          return Some(Row(k));
        }
      }
      NoRowNoPhrase(first, second);
      matched := None;
    }

    method TakeOperand() returns (r: Step<Side>)
      requires Valid()
      modifies `at
      ensures Valid() && Agrees(r, OperandOf(tokens, old(at)), at)
    {
      hide IsNumber, IntOf, HasDot;
      var token :- TakeToken();
      var text := token.text;
      if IsQuoted(text) {
        return Took(LiteralSide(TextLiteral(text[1..|text| - 1])));
      }
      if IsNumber(text) {
        return Took(LiteralSide(if HasDot(text) then DecimalLiteral(text) else WholeLiteral(IntOf(text))));
      }
      if token.word == TrueWord || token.word == FalseWord {
        return Took(LiteralSide(TruthLiteral(token.word == TrueWord)));
      }
      if token.word == SettingWord {
        var name :- TakeToken();
        return Took(SettingSide(name.text));
      }
      if HasDot(text) {
        return Took(FieldSide(text));
      }
      r := Raised(true);
    }

    method TakeAbsence() returns (r: Step<Option<bool>>)
      requires Valid()
      modifies `at
      ensures Valid() && Agrees(r, Absence(tokens, old(at)), at)
    {
      if Word(tokens, at) == OrWord {
        if Word(tokens, at + 1) != AbsentWord {
          return Raised(false);
        }
        at := at + 2;
        return Took(Some(true));
      }
      if Word(tokens, at) == IfWord && Word(tokens, at + 1) == PresentWord {
        at := at + 2;
        return Took(Some(false));
      }
      r := Took(None);
    }

    /** What stands to the right of an operator. */
    method TakeRest(field: string, op: Operator, operand: OperandShape) returns (r: Step<Predicate>)
      requires Valid()
      modifies `at
      ensures Valid() && Agrees(r, ConditionRest(tokens, old(at), field, op, operand), at)
    {
      hide OperandOf, Absence, IntervalAt;
      match operand {
        case NoOperand =>
          r := Took(Plain(field, op));
        case AnInterval =>
          var interval :- TakeInterval();
          r := Took(Plain(field, op).(interval := Some(interval)));
        case OneOperand =>
          var side :- TakeOperand();
          if (op.In? || op.NotIn?) && side.LiteralSide? {
            return Raised(false);
          }
          var absent :- TakeAbsence();
          r := Took(WithSide(Plain(field, op), side).(absent := absent));
      }
    }

    method TakeCondition() returns (r: Step<Predicate>)
      requires Valid()
      modifies `at
      ensures Valid() && Agrees(r, Condition(tokens, old(at)), at)
    {
      hide Field, OperatorPhrase, ConditionRest;
      var field :- TakeField();
      var isSeen := Accept(IsWord);
      var negated := Accept(NotWord);
      var matched := TakeOperatorPhrase();
      if matched == None {
        if !isSeen {
          return Raised(false);
        }
        r := TakeRest(field, if negated then NotEquals else Equals, OneOperand);
      } else {
        var row := matched.value;
        if negated && row.negated == None {
          return Raised(false);
        }
        r := TakeRest(field, if negated then row.negated.value else row.positive, row.operand);
      }
    }

    method TakeConditions() returns (r: Step<seq<Predicate>>)
      requires Valid()
      modifies `at
      ensures Valid() && Agrees(r, Conditions(tokens, old(at)), at)
    {
      hide Condition, Conditions;
      ghost var start := at;
      ConditionsStopHere(tokens, start);
      var first :- TakeCondition();
      ConditionsGoOn(tokens, start, first, at);
      var conditions := [first];
      while Word(tokens, at) == AndWord
        invariant Valid() && Conditions(tokens, start) == Onto(conditions, MoreConditions(tokens, at))
        decreases |tokens| - at
      {
        at := at + 1;
        ghost var here := at;
        ConditionsStopHere(tokens, here);
        var next :- TakeCondition();
        ConditionsGoOn(tokens, here, next, at);
        OntoOnto(conditions, [next], MoreConditions(tokens, at));
        conditions := conditions + [next];
      }
      r := Took(conditions);
      assert conditions + [] == conditions;
    }

    // ---------------------------------------------------------------- joins
    /** `set of <field>`, after `the`. */
    method TakeSetJoin() returns (r: Step<Reference>)
      requires Valid()
      modifies `at
      ensures Valid() && Agrees(r, SetJoin(tokens, old(at)), at)
    {
      hide FieldAfter;
      var _ :- Expect(SetWord);
      var field :- TakeFieldAfter(OfWord);
      r := Took(Reference(EntityOf(field), ValueSet, None, None, Some(field), false));
    }

    method TakeSource() returns (r: Step<bool>)
      requires Valid()
      modifies `at
      ensures Valid() && Agrees(r, Source(tokens, old(at)), at)
    {
      var fromTenant := Accept(FromWord);
      if fromTenant {
        var _ :- Expect(TheWord);
        var _ :- Expect(HotelWord);
      }
      r := Took(fromTenant);
    }

    method TakeKeyedJoin(kind: Kind) returns (r: Step<Reference>)
      requires Valid()
      modifies `at
      ensures Valid() && Agrees(r, KeyedJoin(tokens, old(at), kind, vocabulary), at)
    {
      hide FieldAfter, Source, Lower, Word;
      var token :- TakeToken();
      var entity := Lower(token.text);
      if entity !in vocabulary.references {
        return Raised(false);
      }
      var fromTenant :- TakeSource();
      var local :- TakeFieldAfter(ByWord);
      var remote :- TakeFieldAfter(ToWord);
      r := Took(Reference(entity, kind, Some(local), Some(remote), None, fromTenant));
    }

    method TakeJoin(kind: Kind) returns (r: Step<Reference>)
      requires Valid()
      modifies `at
      ensures Valid() && Agrees(r, Join(tokens, old(at), kind, vocabulary), at)
    {
      hide SetJoin, KeyedJoin;
      var setFollows := Accept(TheWord);
      if setFollows {
        r := TakeSetJoin();
      } else {
        r := TakeKeyedJoin(kind);
      }
    }

    /** One join and those that follow it after `and`. */
    method TakeJoinList(kind: Kind) returns (r: Step<seq<Reference>>)
      requires Valid()
      modifies `at
      ensures Valid() && Agrees(r, JoinList(tokens, old(at), kind, vocabulary), at)
    {
      hide Join, JoinList, AnotherJoinFollows;
      ghost var start := at;
      JoinsStopHere(tokens, start, kind, vocabulary);
      var first :- TakeJoin(kind);
      JoinsGoOn(tokens, start, kind, vocabulary, first, at);
      var references := [first];
      while Word(tokens, at) == AndWord && AnotherJoinFollows(tokens, at, vocabulary)
        invariant Valid() && JoinList(tokens, start, kind, vocabulary)
                    == Onto(references, MoreJoins(tokens, at, kind, vocabulary))
        decreases |tokens| - at
      {
        at := at + 1;
        ghost var here := at;
        JoinsStopHere(tokens, here, kind, vocabulary);
        var next :- TakeJoin(kind);
        JoinsGoOn(tokens, here, kind, vocabulary, next, at);
        OntoOnto(references, [next], MoreJoins(tokens, at, kind, vocabulary));
        references := references + [next];
      }
      r := Took(references);
      assert references + [] == references;
    }

    method TakeJoins() returns (r: Step<seq<Reference>>)
      requires Valid()
      modifies `at
      ensures Valid() && Agrees(r, Joins(tokens, old(at), vocabulary), at)
    {
      hide JoinList, JoinClauses;
      ghost var start := at;
      var references := [];
      OntoNothing(JoinClauses(tokens, start, vocabulary));
      while IsJoinWord(Word(tokens, at))
        invariant Valid() && JoinClauses(tokens, start, vocabulary)
                    == Onto(references, JoinClauses(tokens, at, vocabulary))
        decreases |tokens| - at
      {
        ghost var here := at;
        ClausesStopHere(tokens, here, vocabulary);
        var kind := JoinKind(Word(tokens, at));
        at := at + 1;
        var some :- TakeJoinList(kind);
        ClausesGoOn(tokens, here, vocabulary, some, at);
        OntoOnto(references, some, JoinClauses(tokens, at, vocabulary));
        references := references + some;
      }
      NoClauses(tokens, at, vocabulary);
      assert references + [] == references;
      if IsPopulationWord(Word(tokens, at)) {
        return Raised(false);
      }
      r := Took(references);
    }

    // ---------------------------------------------------------------- clauses
    method TakeScope() returns (r: Step<seq<Predicate>>)
      requires Valid()
      modifies `at
      ensures Valid() && Agrees(r, Scope(tokens, old(at)), at)
    {
      hide Conditions;
      if Word(tokens, at) == WhereWord {
        at := at + 1;
        r := TakeConditions();
      } else {
        r := Took([]);
      }
    }

    method TakeExceptions() returns (r: Step<seq<Predicate>>)
      requires Valid()
      modifies `at
      ensures Valid() && Agrees(r, Exceptions(tokens, old(at)), at)
    {
      hide Conditions;
      var except := Accept(ExceptWord);
      if except {
        var _ :- Expect(WhereWord);
        r := TakeConditions();
      } else if Word(tokens, at) == UnlessWord {
        at := at + 1;
        r := TakeConditions();
      } else {
        r := Took([]);
      }
    }

    method TakeShowing() returns (r: Step<seq<string>>)
      requires Valid()
      modifies `at
      ensures Valid() && Agrees(r, Showing(tokens, old(at)), at)
    {
      hide Field, FieldList;
      var shown := Accept(ShowingWord);
      if !shown {
        return Took([]);
      }
      ghost var start := at;
      FieldsStopHere(tokens, start);
      var first :- TakeField();
      FieldsGoOn(tokens, start, first, at);
      var fields := [first];
      while Word(tokens, at) == AndWord
        invariant Valid() && FieldList(tokens, start) == Onto(fields, MoreFields(tokens, at))
        decreases |tokens| - at
      {
        at := at + 1;
        ghost var here := at;
        FieldsStopHere(tokens, here);
        var next :- TakeField();
        FieldsGoOn(tokens, here, next, at);
        OntoOnto(fields, [next], MoreFields(tokens, at));
        fields := fields + [next];
      }
      r := Took(fields);
      assert fields + [] == fields;
    }

    // ---------------------------------------------------------------- assertion
    /** `at least one of`, after `must satisfy`. */
    method ExpectAtLeastOneOf() returns (r: Step<()>)
      requires Valid()
      modifies `at
      ensures Valid()
      ensures r == if AtLeastOneOf(tokens, old(at)) then Took(()) else Raised(false)
      ensures r.Took? ==> at == old(at) + 4
    {
      hide Word;
      var _ :- Expect(AtWord);
      var _ :- Expect(LeastWord);
      var _ :- Expect(OneWord);
      var _ :- Expect(OfWord);
      r := Took(());
    }

    /** What follows `must`. */
    method TakeMust() returns (r: Step<Modal>)
      requires Valid()
      modifies `at
      ensures Valid() && Agrees(r, MustOf(tokens, old(at)), at)
    {
      hide AtLeastOneOf;
      var negated := Accept(NotWord);
      if !negated && Word(tokens, at) == SatisfyWord {
        at := at + 1;
        var _ :- ExpectAtLeastOneOf();
        return Took(Modal(AnyOf, false));
      }
      var _ :- Expect(HaveWord);
      r := Took(Modal(if negated then NoneOf else AllOf, negated));
    }

    method TakeModal(quantifier: Keyword) returns (r: Step<Modal>)
      requires Valid()
      modifies `at
      ensures Valid() && Agrees(r, ModalOf(tokens, old(at), quantifier), at)
    {
      hide MustOf;
      var must := Accept(MustWord);
      if must {
        r := TakeMust();
        return;
      }
      var may := Accept(MayWord);
      if !may {
        return Raised(false);
      }
      if quantifier != NoWord {
        return Raised(false);
      }
      var _ :- Expect(HaveWord);
      r := Took(Modal(NoneOf, true));
    }

    /** One question about a group, and no record-level condition after it. */
    method EndGroup(key: string, p: Predicate) returns (r: Step<Assertion>)
      requires Valid()
      ensures Agrees(r, Grouped(tokens, at, key, p), at)
    {
      r := if Word(tokens, at) == AndWord then Raised(false) else Took(Assertion(Aggregate, Some(key), [p]));
    }

    /** `most N <field> per <field>`, after `at`. */
    method TakeCount() returns (r: Step<Assertion>)
      requires Valid()
      modifies `at
      ensures Valid() && Agrees(r, CountPer(tokens, old(at)), at)
    {
      hide Field, FieldAfter, WholeNumber, Grouped;
      var _ :- Expect(MostWord);
      var limit :- TakeWholeNumber();
      var field :- TakeField();
      var key :- TakeFieldAfter(PerWord);
      r := EndGroup(key, Plain(field, CountLte).(value := Some(WholeLiteral(limit))));
    }

    /** `<field> from <field> to <field> per <field>`. */
    method TakeOverlapping() returns (r: Step<Assertion>)
      requires Valid()
      modifies `at
      ensures Valid() && Agrees(r, Overlapping(tokens, old(at)), at)
    {
      hide Field, FieldAfter, IntervalAt, Grouped;
      var field :- TakeField();
      var _ :- Expect(FromWord);
      var interval :- TakeInterval();
      var key :- TakeFieldAfter(PerWord);
      r := EndGroup(key, Plain(field, NoOverlap).(interval := Some(interval)));
    }

    /** `no overlapping ...`. */
    method TakeOverlap() returns (r: Step<Assertion>)
      requires Valid()
      modifies `at
      ensures Valid() && Agrees(r, OverlapPer(tokens, old(at)), at)
    {
      hide Overlapping;
      var _ :- Expect(NoWord);
      var _ :- Expect(OverlappingWord);
      r := TakeOverlapping();
    }

    method TakeAggregate(negated: bool) returns (r: Step<Assertion>)
      requires Valid()
      modifies `at
      ensures Valid() && Agrees(r, if negated then Refused else Aggregated(tokens, old(at)), at)
    {
      hide CountPer, OverlapPer;
      if negated {
        return Raised(false);
      }
      var counted := Accept(AtWord);
      if counted {
        r := TakeCount();
      } else {
        r := TakeOverlap();
      }
    }

    method TakeAssertion(quantifier: Keyword) returns (r: Step<Assertion>)
      requires Valid()
      modifies `at
      ensures Valid() && Agrees(r, AssertionOf(tokens, old(at), quantifier), at)
    {
      hide ModalOf, Aggregated, Conditions;
      var modal :- TakeModal(quantifier);
      if Word(tokens, at) == AtWord || Word(tokens, at) == NoWord {
        r := TakeAggregate(modal.negated);
      } else {
        var predicates :- TakeConditions();
        r := Took(Assertion(modal.mode, None, predicates));
      }
    }

    // ---------------------------------------------------------------- the sentence
    method TakeQuantifier() returns (r: Step<Keyword>)
      requires Valid()
      modifies `at
      ensures Valid()
      ensures r == if IsQuantifier(Word(tokens, old(at))) then Took(Word(tokens, old(at))) else Raised(false)
      ensures r.Took? ==> at == old(at) + 1
    {
      var word := Word(tokens, at);
      if !IsQuantifier(word) {
        return Raised(false);
      }
      at := at + 1;
      r := Took(word);
    }

    /** The whole sentence, from its first token: the grammar's rule, its refusal, or its report of
        two readings. */
    method ParseSentence() returns (r: Step<Logic>)
      requires Valid() && at == 0
      modifies `at
      ensures Agrees(r, Parse(tokens, vocabulary), at)
    {
      hide Joins, Scope, Exceptions, AssertionOf, Showing;
      var quantifier :- TakeQuantifier();
      var subject :- TakeToken();
      if Lower(subject.text) !in vocabulary.subjects {
        return Raised(false);
      }
      var references :- TakeJoins();
      var scope :- TakeScope();
      var exceptions :- TakeExceptions();
      var assertion :- TakeAssertion(quantifier);
      var showing :- TakeShowing();
      if at < |tokens| {
        return Raised(false);
      }
      r := Took(Logic(Rule(Lower(subject.text), references, scope, exceptions, assertion), showing));
    }
  }
}
