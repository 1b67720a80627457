/** The rules the controlled language can say, and the proof that the parser makes no others
    (hotelcontrols/compiler/grammar.py). `ok` is the set of texts a rule may be made of: every text
    there is, or those a sentence can carry. */
module WellFormed {
  import opened Basics
  import opened Texts
  import opened Rules
  import opened Tokens
  import opened Keywords
  import opened Grammar

  predicate WFToken(t: string, ok: iset<string>)
  {
    t in ok
  }

  /** The tokens of a sentence, in the case they stand in and in lower case. */
  ghost predicate MadeOf(ts: seq<Token>, ok: iset<string>)
  {
    && (forall i :: 0 <= i < |ts| ==> ts[i].text in ok)
    && (forall i {:trigger Lower(ts[i].text)} :: 0 <= i < |ts| ==>
          Lower(ts[i].text) in ok && (Lower(ts[i].text) == "the" ==> ts[i].word == TheWord))
  }

  predicate WFField(f: string, ok: iset<string>)
  {
    HasDot(f) && WFToken(f, ok)
  }

  predicate WFLiteral(l: RuleLiteral, ok: iset<string>)
  {
    match l
    case TextLiteral(s) => "\"" + s + "\"" in ok
    case DecimalLiteral(text) => IsNumber(text) && HasDot(text) && WFToken(text, ok)
    case _ => true
  }

  /** A field on the right of a comparison must not read as a literal. */
  predicate WFCompared(f: string, ok: iset<string>)
  {
    WFField(f, ok) && !IsQuoted(f) && !IsNumber(f)
  }

  predicate OneSide(p: Predicate, ok: iset<string>)
  {
    match (p.value, p.compareTo, p.tenantSetting)
    case (Some(l), None, None) => WFLiteral(l, ok) && !p.operator.In? && !p.operator.NotIn?
    case (None, Some(f), None) => WFCompared(f, ok)
    case (None, None, Some(name)) => WFToken(name, ok)
    case _ => false
  }

  predicate NoSide(p: Predicate)
  {
    p.value.None? && p.compareTo.None? && p.tenantSetting.None? && p.absent.None?
  }

  predicate WFInterval(i: Option<Interval>, ok: iset<string>)
  {
    i.Some? && WFField(i.value.start, ok) && WFField(i.value.end, ok)
  }

  /** A condition of scope, an exception or a record-level assertion. */
  predicate WFCondition(p: Predicate, ok: iset<string>)
  {
    && WFField(p.field, ok) && !IsAggregateOperator(p.operator)
    && match OperandKind(p.operator)
       case NoOperand => NoSide(p) && p.interval.None?
       case AnInterval => NoSide(p) && WFInterval(p.interval, ok)
       case OneOperand => OneSide(p, ok) && p.interval.None?
  }

  predicate WFConditions(ps: seq<Predicate>, ok: iset<string>)
  {
    forall i :: 0 <= i < |ps| ==> WFCondition(ps[i], ok)
  }

  predicate WFAggregate(p: Predicate, ok: iset<string>)
  {
    && WFField(p.field, ok) && p.compareTo.None? && p.tenantSetting.None? && p.absent.None?
    && match p.operator
       case CountLte => p.interval.None? && p.value.Some? && p.value.value.WholeLiteral? && p.value.value.n >= 0
       case NoOverlap => p.value.None? && WFInterval(p.interval, ok)
       case _ => false
  }

  predicate WFReference(r: Reference, v: Vocabulary, ok: iset<string>)
  {
    if r.kind.ValueSet? then
      r.setField.Some? && WFField(r.setField.value, ok) && r.entity == EntityOf(r.setField.value)
      && r.localField.None? && r.remoteField.None? && !r.fromTenant
    else
      r.setField.None? && r.entity in v.references && Lower(r.entity) == r.entity && WFToken(r.entity, ok)
      && r.entity != "the"
      && r.localField.Some? && WFField(r.localField.value, ok)
      && r.remoteField.Some? && WFField(r.remoteField.value, ok)
  }

  predicate WFReferences(rs: seq<Reference>, v: Vocabulary, ok: iset<string>)
  {
    forall i :: 0 <= i < |rs| ==> WFReference(rs[i], v, ok)
  }

  predicate WFAssertion(a: Assertion, ok: iset<string>)
  {
    if a.mode.Aggregate? then
      a.groupBy.Some? && WFField(a.groupBy.value, ok) && |a.predicates| == 1 && WFAggregate(a.predicates[0], ok)
    else a.groupBy.None? && a.predicates != [] && WFConditions(a.predicates, ok)
  }

  predicate WFFields(fs: seq<string>, ok: iset<string>)
  {
    forall i :: 0 <= i < |fs| ==> WFField(fs[i], ok)
  }

  predicate WFLogic(l: Logic, v: Vocabulary, ok: iset<string>)
  {
    && l.rule.entity in v.subjects && Lower(l.rule.entity) == l.rule.entity && WFToken(l.rule.entity, ok)
    && WFReferences(l.rule.references, v, ok)
    && WFConditions(l.rule.scope, ok)
    && WFConditions(l.rule.exceptions, ok)
    && WFAssertion(l.rule.assertion, ok)
    && WFFields(l.showing, ok)
  }

  // ------------------------------------------------------------------ texts a sentence can carry
  ghost function AnyText(): iset<string> { iset s: string | |s| >= 0 }

  ghost function LexableText(): iset<string> { iset s: string | Lexable(s) }

  lemma LowerTwice(s: string)
    ensures Lower(Lower(s)) == Lower(s)
  {
  }

  lemma LowerKeyword(s: string)
    ensures KeywordOf(Lower(s)) == KeywordOf(s)
  {
    LowerTwice(s);
  }

  lemma LowerLexable(s: string)
    requires Lexable(s)
    ensures Lexable(Lower(s))
  {
    var t := Lower(s);
    forall i | 0 <= i < |s|
      ensures t[i] == '"' <==> s[i] == '"'
      ensures IsSpace(t[i]) <==> IsSpace(s[i])
    {
    }
    if s[0] == '"' {
      var inner, lowered := s[1..|s| - 1], t[1..|t| - 1];
      forall i | 0 <= i < |lowered|
        ensures lowered[i] != '"'
      {
        assert inner[i] == s[i + 1] && lowered[i] == t[i + 1];
      }
    }
  }

  lemma ReadIsMadeOf(texts: seq<string>)
    ensures MadeOf(Read(texts), AnyText())
    ensures AllLexable(texts) ==> MadeOf(Read(texts), LexableText())
  {
    forall i | 0 <= i < |texts|
      ensures Lower(texts[i]) == "the" ==> KeywordOf(texts[i]) == TheWord
      ensures AllLexable(texts) ==> Lower(texts[i]) in LexableText()
    {
      LowerKeyword(texts[i]);
      Spelled(TheWord);
      if AllLexable(texts) {
        LowerLexable(texts[i]);
      }
    }
  }

  // ------------------------------------------------------------------ the parser makes no others
  lemma FieldWF(ts: seq<Token>, at: nat, ok: iset<string>)
    requires MadeOf(ts, ok) && Field(ts, at).Done?
    ensures WFField(Field(ts, at).value, ok)
  {
  }

  lemma FieldAfterWF(ts: seq<Token>, at: nat, k: Keyword, ok: iset<string>)
    requires k != Other && MadeOf(ts, ok) && FieldAfter(ts, at, k).Done?
    ensures WFField(FieldAfter(ts, at, k).value, ok)
  {
    FieldWF(ts, at + 1, ok);
  }

  lemma IntervalWF(ts: seq<Token>, at: nat, ok: iset<string>)
    requires MadeOf(ts, ok) && IntervalAt(ts, at).Done?
    ensures WFInterval(Some(IntervalAt(ts, at).value), ok)
  {
    FieldWF(ts, at, ok);
    FieldAfterWF(ts, Field(ts, at).at, ToWord, ok);
  }

  lemma OperandWF(ts: seq<Token>, at: nat, ok: iset<string>)
    requires MadeOf(ts, ok) && OperandOf(ts, at).Done?
    ensures match OperandOf(ts, at).value
            case LiteralSide(l) => WFLiteral(l, ok)
            case FieldSide(f) => WFCompared(f, ok)
            case SettingSide(name) => WFToken(name, ok)
  {
    var text := ts[at].text;
    if IsQuoted(text) {
      assert "\"" + text[1..|text| - 1] + "\"" == text;
    }
  }

  lemma ConditionRestWF(ts: seq<Token>, at: nat, field: string, op: Operator, operand: OperandShape, ok: iset<string>)
    requires at <= |ts| && MadeOf(ts, ok) && ConditionRest(ts, at, field, op, operand).Done?
    requires WFField(field, ok) && Fits(op, operand)
    ensures WFCondition(ConditionRest(ts, at, field, op, operand).value, ok)
  {
    if operand.OneOperand? {
      OperandWF(ts, at, ok);
    } else if operand.AnInterval? {
      IntervalWF(ts, at, ok);
    }
  }

  lemma OpeningWF(ts: seq<Token>, at: nat, ok: iset<string>)
    requires MadeOf(ts, ok) && OpeningOf(ts, at).Done?
    ensures WFField(OpeningOf(ts, at).value.field, ok)
  {
    FieldWF(ts, at, ok);
  }

  lemma AppliedWF(ts: seq<Token>, at: nat, field: string, verb: Option<Verb>, ok: iset<string>)
    requires verb.Some? ==> at + verb.value.length <= |ts| && Fits(verb.value.op, verb.value.operand)
    requires MadeOf(ts, ok) && Applied(ts, at, field, verb).Done? && WFField(field, ok)
    ensures WFCondition(Applied(ts, at, field, verb).value, ok)
  {
    var v := verb.value;
    ConditionRestWF(ts, at + v.length, field, v.op, v.operand, ok);
  }

  lemma ConditionWF(ts: seq<Token>, at: nat, ok: iset<string>)
    requires MadeOf(ts, ok) && Condition(ts, at).Done?
    ensures WFCondition(Condition(ts, at).value, ok)
  {
    OpeningWF(ts, at, ok);
    var opening := OpeningOf(ts, at);
    var verb := VerbOf(ts, opening.at, opening.value.isSeen, opening.value.negated);
    AppliedWF(ts, opening.at, opening.value.field, verb, ok);
  }

  lemma ConsConditions(p: Predicate, ps: seq<Predicate>, ok: iset<string>)
    requires WFCondition(p, ok) && WFConditions(ps, ok)
    ensures WFConditions([p] + ps, ok)
  {
  }

  lemma ConsReferences(r: Reference, rs: seq<Reference>, v: Vocabulary, ok: iset<string>)
    requires WFReference(r, v, ok) && WFReferences(rs, v, ok)
    ensures WFReferences([r] + rs, v, ok)
  {
  }

  lemma {:induction false} ConditionsWF(ts: seq<Token>, at: nat, ok: iset<string>)
    requires MadeOf(ts, ok) && Conditions(ts, at).Done?
    ensures Conditions(ts, at).value != [] && WFConditions(Conditions(ts, at).value, ok)
    decreases |ts| - at
  {
    hide Condition, WFCondition, MadeOf;
    ConditionWF(ts, at, ok);
    var (first, next) := Condition(ts, at).Extract();
    if Word(ts, next) == AndWord {
      ConditionsWF(ts, next + 1, ok);
      ConsConditions(first, Conditions(ts, next + 1).value, ok);
    }
  }

  lemma SetJoinWF(ts: seq<Token>, at: nat, v: Vocabulary, ok: iset<string>)
    requires at <= |ts| && MadeOf(ts, ok) && SetJoin(ts, at).Done?
    ensures WFReference(SetJoin(ts, at).value, v, ok)
  {
    hide MadeOf, FieldAfter, WFField;
    FieldAfterWF(ts, at + 1, OfWord, ok);
  }

  lemma EntityWF(ts: seq<Token>, at: nat, ok: iset<string>)
    requires at < |ts| && MadeOf(ts, ok) && ts[at].word != TheWord
    ensures Lower(Lower(ts[at].text)) == Lower(ts[at].text) && Lower(ts[at].text) in ok && Lower(ts[at].text) != "the"
  {
    LowerTwice(ts[at].text);
  }

  lemma KeyedJoinWF(ts: seq<Token>, at: nat, kind: Kind, v: Vocabulary, ok: iset<string>)
    requires MadeOf(ts, ok) && KeyedJoin(ts, at, kind, v).Done? && !kind.ValueSet? && Word(ts, at) != TheWord
    ensures WFReference(KeyedJoin(ts, at, kind, v).value, v, ok)
  {
    hide MadeOf, Source, FieldAfter, WFField;
    EntityWF(ts, at, ok);
    var (fromTenant, b) := Source(ts, at + 1).Extract();
    FieldAfterWF(ts, b, ByWord, ok);
    FieldAfterWF(ts, FieldAfter(ts, b, ByWord).at, ToWord, ok);
  }

  lemma JoinWF(ts: seq<Token>, at: nat, kind: Kind, v: Vocabulary, ok: iset<string>)
    requires MadeOf(ts, ok) && Join(ts, at, kind, v).Done? && !kind.ValueSet?
    ensures WFReference(Join(ts, at, kind, v).value, v, ok)
  {
    hide SetJoin, KeyedJoin;
    if Word(ts, at) == TheWord {
      SetJoinWF(ts, at + 1, v, ok);
    } else {
      KeyedJoinWF(ts, at, kind, v, ok);
    }
  }

  lemma {:induction false} JoinListWF(ts: seq<Token>, at: nat, kind: Kind, v: Vocabulary, ok: iset<string>)
    requires MadeOf(ts, ok) && JoinList(ts, at, kind, v).Done? && !kind.ValueSet?
    ensures WFReferences(JoinList(ts, at, kind, v).value, v, ok)
    decreases |ts| - at
  {
    hide Join, AnotherJoinFollows, WFReference, MadeOf;
    JoinWF(ts, at, kind, v, ok);
    var (first, next) := Join(ts, at, kind, v).Extract();
    if Word(ts, next) == AndWord && AnotherJoinFollows(ts, next, v) {
      JoinListWF(ts, next + 1, kind, v, ok);
      ConsReferences(first, JoinList(ts, next + 1, kind, v).value, v, ok);
    }
  }

  lemma {:induction false} JoinClausesWF(ts: seq<Token>, at: nat, v: Vocabulary, ok: iset<string>)
    requires at <= |ts| && MadeOf(ts, ok) && JoinClauses(ts, at, v).Done?
    ensures WFReferences(JoinClauses(ts, at, v).value, v, ok)
    decreases |ts| - at
  {
    if IsJoinWord(Word(ts, at)) {
      var kind := JoinKind(Word(ts, at));
      JoinListWF(ts, at + 1, kind, v, ok);
      var (some, next) := JoinList(ts, at + 1, kind, v).Extract();
      JoinClausesWF(ts, next, v, ok);
    }
  }

  lemma CountPerWF(ts: seq<Token>, at: nat, ok: iset<string>)
    requires at <= |ts| && MadeOf(ts, ok) && CountPer(ts, at).Done?
    ensures WFAssertion(CountPer(ts, at).value, ok)
  {
    var b := WholeNumber(ts, at + 1).at;
    FieldWF(ts, b, ok);
    FieldAfterWF(ts, Field(ts, b).at, PerWord, ok);
  }

  lemma OverlappingWF(ts: seq<Token>, at: nat, ok: iset<string>)
    requires MadeOf(ts, ok) && Overlapping(ts, at).Done?
    ensures WFAssertion(Overlapping(ts, at).value, ok)
  {
    hide MadeOf, Field, FieldAfter, IntervalAt;
    FieldWF(ts, at, ok);
    var c := Field(ts, at).at;
    IntervalWF(ts, c + 1, ok);
    FieldAfterWF(ts, IntervalAt(ts, c + 1).at, PerWord, ok);
  }

  lemma OverlapPerWF(ts: seq<Token>, at: nat, ok: iset<string>)
    requires at <= |ts| && MadeOf(ts, ok) && OverlapPer(ts, at).Done?
    ensures WFAssertion(OverlapPer(ts, at).value, ok)
  {
    hide MadeOf, Overlapping, WFAssertion;
    OverlappingWF(ts, at + 2, ok);
  }

  lemma RequiredWF(ts: seq<Token>, at: nat, modal: Modal, ok: iset<string>)
    requires at <= |ts| && MadeOf(ts, ok) && Required(ts, at, modal).Done? && !modal.mode.Aggregate?
    ensures WFAssertion(Required(ts, at, modal).value, ok)
  {
    if Word(ts, at) == AtWord {
      CountPerWF(ts, at + 1, ok);
    } else if Word(ts, at) == NoWord {
      OverlapPerWF(ts, at, ok);
    } else {
      ConditionsWF(ts, at, ok);
    }
  }

  lemma AssertionWF(ts: seq<Token>, at: nat, quantifier: Keyword, ok: iset<string>)
    requires at <= |ts| && MadeOf(ts, ok) && AssertionOf(ts, at, quantifier).Done?
    ensures WFAssertion(AssertionOf(ts, at, quantifier).value, ok)
  {
    var modal := ModalOf(ts, at, quantifier);
    RequiredWF(ts, modal.at, modal.value, ok);
  }

  lemma {:induction false} FieldListWF(ts: seq<Token>, at: nat, ok: iset<string>)
    requires MadeOf(ts, ok) && FieldList(ts, at).Done?
    ensures WFFields(FieldList(ts, at).value, ok)
    decreases |ts| - at
  {
    FieldWF(ts, at, ok);
    var (first, next) := Field(ts, at).Extract();
    if Word(ts, next) == AndWord {
      FieldListWF(ts, next + 1, ok);
    }
  }

  lemma ScopeWF(ts: seq<Token>, at: nat, ok: iset<string>)
    requires at <= |ts| && MadeOf(ts, ok) && Scope(ts, at).Done?
    ensures WFConditions(Scope(ts, at).value, ok)
  {
    if Word(ts, at) == WhereWord { ConditionsWF(ts, at + 1, ok); }
  }

  lemma ExceptionsWF(ts: seq<Token>, at: nat, ok: iset<string>)
    requires at <= |ts| && MadeOf(ts, ok) && Exceptions(ts, at).Done?
    ensures WFConditions(Exceptions(ts, at).value, ok)
  {
    if Word(ts, at) == ExceptWord {
      ConditionsWF(ts, at + 2, ok);
    } else if Word(ts, at) == UnlessWord {
      ConditionsWF(ts, at + 1, ok);
    }
  }

  lemma ShowingWF(ts: seq<Token>, at: nat, ok: iset<string>)
    requires at <= |ts| && MadeOf(ts, ok) && Showing(ts, at).Done?
    ensures WFFields(Showing(ts, at).value, ok)
  {
    if Word(ts, at) == ShowingWord { FieldListWF(ts, at + 1, ok); }
  }

  /** Whatever the parser accepts, over all token sequences, is a rule of the language's shape: each
      condition has exactly the right-hand side its operator needs, and an aggregate stands alone
      under its grouping key. */
  lemma AcceptedIsWellFormed(ts: seq<Token>, v: Vocabulary, ok: iset<string>)
    requires MadeOf(ts, ok) && Parse(ts, v).Done?
    ensures WFLogic(Parse(ts, v).value, v, ok)
  {
    hide JoinClauses, Scope, Exceptions, AssertionOf, Showing, WFReference, WFCondition, WFAssertion, WFFields;
    LowerTwice(ts[1].text);
    var b := Joins(ts, 2, v).at;
    JoinClausesWF(ts, 2, v, ok);
    ScopeWF(ts, b, ok);
    var c := Scope(ts, b).at;
    ExceptionsWF(ts, c, ok);
    var d := Exceptions(ts, c).at;
    AssertionWF(ts, d, Word(ts, 0), ok);
    ShowingWF(ts, AssertionOf(ts, d, Word(ts, 0)).at, ok);
  }
}
