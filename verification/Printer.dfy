/** Rules written down as sentences, and the proof that compiling a written rule gives it back
    (hotelcontrols/compiler/grammar.py). */
module Printer {
  import opened Basics
  import opened Texts
  import opened Rules
  import opened Tokens
  import opened Keywords
  import opened Grammar
  import opened WellFormed

  // ------------------------------------------------------------------ the printer
  /** One piece of a written sentence: a word of the language, a text that is none of its words, or
      a name that may happen to be one. */
  datatype Piece = Key(k: Keyword) | Text(text: string) | Name(text: string)

  function TextOf(p: Piece): string
  {
    match p
    case Key(k) => Spelling(k)
    case Text(text) => text
    case Name(text) => text
  }

  /** A token a piece can be read as. */
  predicate ReadsAs(p: Piece, t: Token)
  {
    match p
    case Key(k) => t.word == k && !IsQuoted(t.text) && !IsNumber(t.text)
    case Text(text) => t.text == text && t.word == Other
    case Name(text) => t.text == text && t.word == KeywordOf(text)
  }

  function IntervalTokens(i: Interval): seq<Piece>
  {
    [Text(i.start), Key(ToWord), Text(i.end)]
  }

  predicate IsNegation(op: Operator)
  {
    op.NotEquals? || op.NotIn? || op.NotWithin?
  }

  function IsTokens(op: Operator): seq<Piece>
  {
    if IsNegation(op) then [Key(IsWord), Key(NotWord)] else [Key(IsWord)]
  }

  /** How the language says an operator, after `is` or `is not`. */
  function PhraseTokens(op: Operator): seq<Piece>
  {
    match op
    case Exists => [Key(PresentWord)]
    case NotExists => [Key(MissingWord)]
    case In => [Key(OneWord), Key(OfWord)]
    case NotIn => [Key(OneWord), Key(OfWord)]
    case LessThan => [Key(LessWord), Key(ThanWord)]
    case AtMost => [Key(AtWord), Key(MostWord)]
    case MoreThan => [Key(MoreWord), Key(ThanWord)]
    case AtLeast => [Key(AtWord), Key(LeastWord)]
    case MatchesIgnoreCase => [Key(MatchingWord)]
    case Within => [Key(WithinWord)]
    case NotWithin => [Key(WithinWord)]
    case ReferenceExists => [Key(ResolvedWord)]
    case ReferenceMissing => [Key(UnresolvedWord)]
    case _ => []
  }

  function LiteralTokens(l: RuleLiteral): seq<Piece>
  {
    match l
    case TextLiteral(s) => [Text("\"" + s + "\"")]
    case WholeLiteral(n) => [Text(IntText(n))]
    case DecimalLiteral(text) => [Text(text)]
    case TruthLiteral(b) => [Key(if b then TrueWord else FalseWord)]
  }

  function SideTokens(side: Side): seq<Piece>
  {
    match side
    case LiteralSide(l) => LiteralTokens(l)
    case FieldSide(name) => [Text(name)]
    case SettingSide(name) => [Key(SettingWord), Name(name)]
  }

  function AbsenceTokens(absent: Option<bool>): seq<Piece>
  {
    match absent
    case None => []
    case Some(true) => [Key(OrWord), Key(AbsentWord)]
    case Some(false) => [Key(IfWord), Key(PresentWord)]
  }

  /** The one right-hand side of a well-formed condition. */
  function SideOf(p: Predicate): Side
  {
    if p.value.Some? then LiteralSide(p.value.value)
    else if p.compareTo.Some? then FieldSide(p.compareTo.value)
    else if p.tenantSetting.Some? then SettingSide(p.tenantSetting.value)
    else SettingSide("")
  }

  function OperandTokens(p: Predicate): seq<Piece>
  {
    match OperandKind(p.operator)
    case NoOperand => []
    case AnInterval => if p.interval.Some? then IntervalTokens(p.interval.value) else []
    case OneOperand => SideTokens(SideOf(p)) + AbsenceTokens(p.absent)
  }

  function ConditionTokens(p: Predicate): seq<Piece>
  {
    [Text(p.field)] + IsTokens(p.operator) + (PhraseTokens(p.operator) + OperandTokens(p))
  }

  function ConditionsTokens(ps: seq<Predicate>): seq<Piece>
  {
    if ps == [] then []
    else if |ps| == 1 then ConditionTokens(ps[0])
    else ConditionTokens(ps[0]) + ([Key(AndWord)] + ConditionsTokens(ps[1..]))
  }

  function ClauseTokens(k: Keyword, ps: seq<Predicate>): seq<Piece>
  {
    if ps == [] then [] else [Key(k)] + ConditionsTokens(ps)
  }

  function ValueOr(name: Option<string>): string
  {
    if name.Some? then name.value else ""
  }

  function SourceTokens(fromTenant: bool): seq<Piece>
  {
    if fromTenant then [Key(FromWord), Key(TheWord), Key(HotelWord)] else []
  }

  function KeyTokens(r: Reference): seq<Piece>
  {
    [Key(ByWord), Text(ValueOr(r.localField)), Key(ToWord), Text(ValueOr(r.remoteField))]
  }

  function ReferenceTokens(r: Reference): seq<Piece>
  {
    if r.kind.ValueSet? then
      [Key(JoiningWord)] + [Key(TheWord), Key(SetWord), Key(OfWord), Text(ValueOr(r.setField))]
    else
      [Key(if r.kind.Collection? then CollectingWord else JoiningWord)]
      + ([Name(r.entity)] + (SourceTokens(r.fromTenant) + KeyTokens(r)))
  }

  function ReferencesTokens(rs: seq<Reference>): seq<Piece>
  {
    if rs == [] then [] else ReferenceTokens(rs[0]) + ReferencesTokens(rs[1..])
  }

  /** What follows `must`. */
  function MustTokens(mode: Mode): seq<Piece>
  {
    match mode
    case AllOf => [Key(HaveWord)]
    case Aggregate => [Key(HaveWord)]
    case NoneOf => [Key(NotWord), Key(HaveWord)]
    case AnyOf => [Key(SatisfyWord), Key(AtWord), Key(LeastWord), Key(OneWord), Key(OfWord)]
  }

  function ModalTokens(mode: Mode): seq<Piece>
  {
    [Key(MustWord)] + MustTokens(mode)
  }

  function LimitOf(p: Predicate): nat
  {
    match p.value
    case Some(WholeLiteral(n)) => if n < 0 then 0 else n
    case _ => 0
  }

  function OverlappingTokens(p: Predicate, key: string): seq<Piece>
  {
    [Text(p.field), Key(FromWord)]
    + ((if p.interval.Some? then IntervalTokens(p.interval.value) else []) + [Key(PerWord), Text(key)])
  }

  function AggregateTokens(p: Predicate, key: string): seq<Piece>
  {
    if p.operator.CountLte? then
      [Key(AtWord), Key(MostWord), Text(NatText(LimitOf(p))), Text(p.field), Key(PerWord), Text(key)]
    else
      [Key(NoWord), Key(OverlappingWord)] + OverlappingTokens(p, key)
  }

  function RequiredTokens(a: Assertion): seq<Piece>
  {
    if a.mode.Aggregate? && a.predicates != [] then AggregateTokens(a.predicates[0], ValueOr(a.groupBy))
    else ConditionsTokens(a.predicates)
  }

  function AssertionTokens(a: Assertion): seq<Piece>
  {
    ModalTokens(a.mode) + RequiredTokens(a)
  }

  function FieldsTokens(fs: seq<string>): seq<Piece>
  {
    if fs == [] then []
    else if |fs| == 1 then [Text(fs[0])] else [Text(fs[0]), Key(AndWord)] + FieldsTokens(fs[1..])
  }

  function ShowingTokens(fs: seq<string>): seq<Piece>
  {
    if fs == [] then [] else [Key(ShowingWord)] + FieldsTokens(fs)
  }

  /** Everything after the joins. */
  function ClausesTokens(l: Logic): seq<Piece>
  {
    ClauseTokens(WhereWord, l.rule.scope)
    + (ClauseTokens(UnlessWord, l.rule.exceptions) + (AssertionTokens(l.rule.assertion) + ShowingTokens(l.showing)))
  }

  /** `every <entity> <joins> where ... unless ... must ... showing ...`. */
  function Print(l: Logic): seq<Piece>
  {
    [Key(EveryWord), Name(l.rule.entity)] + (ReferencesTokens(l.rule.references) + ClausesTokens(l))
  }

  // ------------------------------------------------------------------ tokens in their place
  predicate StandsOne(ts: seq<Token>, at: nat, xs: seq<Piece>, i: nat)
    requires at + |xs| <= |ts| && i < |xs|
  {
    ReadsAs(xs[i], ts[at + i])
  }

  /** Tokens these pieces are read as stand here. */
  predicate Stands(ts: seq<Token>, at: nat, xs: seq<Piece>)
  {
    at + |xs| <= |ts| && forall i: nat :: i < |xs| ==> StandsOne(ts, at, xs, i)
  }

  lemma StandsSplit(ts: seq<Token>, at: nat, xs: seq<Piece>, ys: seq<Piece>)
    requires Stands(ts, at, xs + ys)
    ensures Stands(ts, at, xs) && Stands(ts, at + |xs|, ys)
  {
    forall i: nat | i < |xs| ensures StandsOne(ts, at, xs, i) {
      assert StandsOne(ts, at, xs + ys, i);
    }
    forall i: nat {:trigger ys[i]} | i < |ys| ensures StandsOne(ts, at + |xs|, ys, i) {
      assert StandsOne(ts, at, xs + ys, |xs| + i);
    }
  }

  lemma StandsAt(ts: seq<Token>, at: nat, xs: seq<Piece>, i: nat)
    requires Stands(ts, at, xs) && i < |xs|
    ensures at + i < |ts| && ReadsAs(xs[i], ts[at + i])
  {
    assert StandsOne(ts, at, xs, i);
  }

  /** Pieces that stand here, one by one. */
  lemma StandEach(ts: seq<Token>, at: nat, xs: seq<Piece>)
    requires Stands(ts, at, xs)
    ensures forall i {:trigger ts[i]} :: at <= i < at + |xs| ==> ReadsAs(xs[i - at], ts[i])
  {
    forall i | at <= i < at + |xs| ensures ReadsAs(xs[i - at], ts[i]) {
      StandsAt(ts, at, xs, i - at);
    }
  }

  // ------------------------------------------------------------------ parsing what is printed
  lemma FieldPrinted(ts: seq<Token>, at: nat, f: string)
    requires at < |ts| && ReadsAs(Text(f), ts[at]) && HasDot(f)
    ensures Field(ts, at) == Done(f, at + 1)
  {
  }

  lemma FieldAfterPrinted(ts: seq<Token>, at: nat, k: Keyword, f: string)
    requires k != Other && at + 1 < |ts| && ts[at].word == k && ReadsAs(Text(f), ts[at + 1]) && HasDot(f)
    ensures FieldAfter(ts, at, k) == Done(f, at + 2)
  {
    FieldPrinted(ts, at + 1, f);
  }

  lemma IntervalPrinted(ts: seq<Token>, at: nat, i: Interval)
    requires Stands(ts, at, IntervalTokens(i)) && HasDot(i.start) && HasDot(i.end)
    ensures IntervalAt(ts, at) == Done(i, at + 3)
  {
    StandEach(ts, at, IntervalTokens(i));
    FieldPrinted(ts, at, i.start);
    FieldAfterPrinted(ts, at + 1, ToWord, i.end);
  }

  lemma WholeIsNumber(n: int)
    ensures IsNumber(IntText(n)) && !HasDot(IntText(n)) && IntOf(IntText(n)) == n
  {
    IntRoundTrip(n);
    var digits := if n < 0 then NatText(-n) else NatText(n);
    NoPoint(digits);
    assert digits[..|digits|] == digits;
    assert n < 0 ==> IntText(n)[1..] == digits;
    assert IsDigit(digits[0]);
  }

  lemma {:induction false} NoPoint(s: string)
    requires AllDigits(s)
    ensures PointAt(s) == |s| && !HasDot(s)
  {
    if s != "" {
      assert IsDigit(s[0]);
      NoPoint(s[1..]);
      assert s == [s[0]] + s[1..];
    }
  }

  /** A right-hand side a condition can carry. */
  predicate WFSide(side: Side)
  {
    match side
    case LiteralSide(DecimalLiteral(text)) => IsNumber(text) && HasDot(text)
    case FieldSide(f) => HasDot(f) && !IsQuoted(f) && !IsNumber(f)
    case _ => true
  }

  lemma NumberIsNotQuoted(t: string)
    requires IsNumber(t)
    ensures !IsQuoted(t)
  {
    var body := if t[0] == '-' then t[1..] else t;
    assert IsDigit(body[..PointAt(body)][0]);
  }

  lemma LiteralPrinted(ts: seq<Token>, at: nat, l: RuleLiteral)
    requires Stands(ts, at, LiteralTokens(l)) && WFSide(LiteralSide(l))
    ensures OperandOf(ts, at) == Done(LiteralSide(l), at + 1)
    ensures ts[at].word in {Other, TrueWord, FalseWord}
  {
    StandsAt(ts, at, LiteralTokens(l), 0);
    match l {
      case TextLiteral(s) =>
        var text := "\"" + s + "\"";
        assert text[1..|text| - 1] == s;
      case WholeLiteral(n) =>
        WholeIsNumber(n);
        NumberIsNotQuoted(IntText(n));
      case DecimalLiteral(text) =>
        NumberIsNotQuoted(text);
      case TruthLiteral(b) =>
    }
  }

  lemma SidePrinted(ts: seq<Token>, at: nat, side: Side)
    requires Stands(ts, at, SideTokens(side)) && WFSide(side)
    ensures OperandOf(ts, at) == Done(side, at + |SideTokens(side)|)
    ensures ts[at].word in {Other, TrueWord, FalseWord, SettingWord}
  {
    if side.LiteralSide? {
      LiteralPrinted(ts, at, side.literal);
    } else {
      StandEach(ts, at, SideTokens(side));
    }
  }

  /** Words that would continue a condition. */
  predicate Continues(k: Keyword)
  {
    k == OrWord || k == IfWord
  }

  lemma AbsencePrinted(ts: seq<Token>, at: nat, absent: Option<bool>)
    requires Stands(ts, at, AbsenceTokens(absent))
    requires absent.None? ==> !Continues(Word(ts, at))
    ensures Absence(ts, at) == Done(absent, at + |AbsenceTokens(absent)|)
  {
    StandEach(ts, at, AbsenceTokens(absent));
  }

  lemma OpeningPrinted(ts: seq<Token>, at: nat, field: string, op: Operator)
    requires Stands(ts, at, [Text(field)] + IsTokens(op)) && HasDot(field)
    requires !IsNegation(op) ==> Word(ts, at + 2) != NotWord
    ensures OpeningOf(ts, at) == Done(Opening(field, true, IsNegation(op)), at + 1 + |IsTokens(op)|)
  {
    StandEach(ts, at, [Text(field)] + IsTokens(op));
    FieldPrinted(ts, at, field);
  }

  lemma EqualityPrinted(ts: seq<Token>, at: nat, negated: bool)
    requires at < |ts| && ts[at].word in {Other, TrueWord, FalseWord, SettingWord}
    ensures VerbOf(ts, at, true, negated) == Some(Verb(if negated then NotEquals else Equals, OneOperand, 0))
  {
    assert OperatorPhrase(ts, at) == None;
  }

  predicate HasTwoWords(op: Operator)
  {
    op.In? || op.NotIn? || IsOrdering(op)
  }

  lemma TwoWordPhrase(ts: seq<Token>, at: nat, op: Operator, first: Keyword, second: Keyword)
    requires HasTwoWords(op) && PhraseTokens(op) == [Key(first), Key(second)]
    requires Word(ts, at) == first && Word(ts, at + 1) == second
    ensures VerbOf(ts, at, true, IsNegation(op)) == Some(Verb(op, OneOperand, 2))
    ensures first != NotWord
  {
  }

  lemma OneWordPhrase(ts: seq<Token>, at: nat, op: Operator, first: Keyword)
    requires !HasTwoWords(op) && !IsAggregateOperator(op) && PhraseTokens(op) == [Key(first)]
    requires Word(ts, at) == first
    ensures VerbOf(ts, at, true, IsNegation(op)) == Some(Verb(op, OperandKind(op), 1))
    ensures first != NotWord
  {
  }

  lemma PhraseLength(op: Operator)
    requires !IsAggregateOperator(op) && !op.Equals? && !op.NotEquals?
    ensures var phrase := PhraseTokens(op);
            && |phrase| == (if HasTwoWords(op) then 2 else 1)
            && forall i :: 0 <= i < |phrase| ==> phrase[i].Key?
    ensures HasTwoWords(op) ==> OperandKind(op) == OneOperand
  {
  }

  /** The operator's own words, after `is` and `not`. */
  lemma PhrasePrinted(ts: seq<Token>, at: nat, op: Operator)
    requires !IsAggregateOperator(op) && !op.Equals? && !op.NotEquals? && Stands(ts, at, PhraseTokens(op))
    ensures VerbOf(ts, at, true, IsNegation(op)) == Some(Verb(op, OperandKind(op), |PhraseTokens(op)|))
    ensures Word(ts, at) != NotWord
  {
    hide Stands, PhraseTokens, VerbOf, IsQuoted, IsNumber, OperandKind, HasTwoWords;
    PhraseLength(op);
    var phrase := PhraseTokens(op);
    StandsAt(ts, at, phrase, 0);
    if HasTwoWords(op) {
      StandsAt(ts, at, phrase, 1);
      assert phrase == [Key(phrase[0].k), Key(phrase[1].k)];
      TwoWordPhrase(ts, at, op, phrase[0].k, phrase[1].k);
    } else {
      assert phrase == [Key(phrase[0].k)];
      OneWordPhrase(ts, at, op, phrase[0].k);
    }
  }

  lemma SideOfWF(p: Predicate, ok: iset<string>)
    requires OneSide(p, ok) && p.interval.None?
    ensures WFSide(SideOf(p))
    ensures WithSide(Plain(p.field, p.operator), SideOf(p)).(absent := p.absent) == p
    ensures (p.operator.In? || p.operator.NotIn?) ==> !SideOf(p).LiteralSide?
  {
  }

  lemma ComparedPrinted(ts: seq<Token>, at: nat, p: Predicate, ok: iset<string>)
    requires OneSide(p, ok) && p.interval.None? && Stands(ts, at, SideTokens(SideOf(p)) + AbsenceTokens(p.absent))
    requires !Continues(Word(ts, at + |SideTokens(SideOf(p)) + AbsenceTokens(p.absent)|))
    ensures ConditionRest(ts, at, p.field, p.operator, OneOperand)
              == Done(p, at + |SideTokens(SideOf(p)) + AbsenceTokens(p.absent)|)
    ensures at < |ts| && ts[at].word in {Other, TrueWord, FalseWord, SettingWord}
  {
    hide Stands, OperandOf, Absence, OneSide, WFSide, SideTokens, AbsenceTokens, SideOf, WithSide;
    var side, absence := SideTokens(SideOf(p)), AbsenceTokens(p.absent);
    SideOfWF(p, ok);
    StandsSplit(ts, at, side, absence);
    SidePrinted(ts, at, SideOf(p));
    NoAbsence();
    AbsencePrinted(ts, at + |side|, p.absent);
  }

  lemma NoAbsence()
    ensures AbsenceTokens(None) == []
  {
  }

  lemma OperandPrinted(ts: seq<Token>, at: nat, p: Predicate, ok: iset<string>)
    requires WFCondition(p, ok) && Stands(ts, at, OperandTokens(p)) && !Continues(Word(ts, at + |OperandTokens(p)|))
    ensures ConditionRest(ts, at, p.field, p.operator, OperandKind(p.operator)) == Done(p, at + |OperandTokens(p)|)
    ensures OperandKind(p.operator).OneOperand? ==>
              at < |ts| && ts[at].word in {Other, TrueWord, FalseWord, SettingWord}
  {
    hide Stands, IntervalAt, OperandOf, Absence, SideTokens, OneSide, IsQuoted, IsNumber;
    match OperandKind(p.operator) {
      case NoOperand =>
      case AnInterval =>
        IntervalPrinted(ts, at, p.interval.value);
      case OneOperand =>
        ComparedPrinted(ts, at, p, ok);
    }
  }

  lemma ConditionPrinted(ts: seq<Token>, at: nat, p: Predicate, ok: iset<string>)
    requires WFCondition(p, ok) && Stands(ts, at, ConditionTokens(p))
    requires !Continues(Word(ts, at + |ConditionTokens(p)|))
    ensures Condition(ts, at) == Done(p, at + |ConditionTokens(p)|)
  {
    hide OpeningOf, VerbOf, ConditionRest, OperandTokens, Stands, OneSide, IsQuoted, IsNumber;
    var op, head := p.operator, [Text(p.field)] + IsTokens(p.operator);
    StandsSplit(ts, at, head, PhraseTokens(op) + OperandTokens(p));
    var verb := at + |head|;
    StandsSplit(ts, verb, PhraseTokens(op), OperandTokens(p));
    OperandPrinted(ts, verb + |PhraseTokens(op)|, p, ok);
    if op.Equals? || op.NotEquals? {
      EqualityPrinted(ts, verb, op.NotEquals?);
    } else {
      PhrasePrinted(ts, verb, op);
    }
    OpeningPrinted(ts, at, p.field, op);
  }

  /** Words after which a list of conditions has ended. */
  predicate Ends(k: Keyword)
  {
    !Continues(k) && k != AndWord
  }

  lemma OneCondition(ts: seq<Token>, at: nat, first: Predicate, next: nat)
    requires Condition(ts, at) == Done(first, next) && Word(ts, next) != AndWord
    ensures Conditions(ts, at) == Done([first], next)
  {
    hide Condition;
  }

  lemma MoreConditions(ts: seq<Token>, at: nat, first: Predicate, next: nat, rest: seq<Predicate>, after: nat)
    requires Condition(ts, at) == Done(first, next) && Word(ts, next) == AndWord
    requires Conditions(ts, next + 1) == Done(rest, after)
    ensures Conditions(ts, at) == Done([first] + rest, after)
  {
    hide Condition;
  }

  lemma FirstAndRest(ps: seq<Predicate>, ok: iset<string>)
    requires ps != [] && WFConditions(ps, ok)
    ensures WFCondition(ps[0], ok) && WFConditions(ps[1..], ok) && ps == [ps[0]] + ps[1..]
  {
    hide WFCondition;
  }

  lemma {:induction false} ConditionsPrinted(ts: seq<Token>, at: nat, ps: seq<Predicate>, ok: iset<string>)
    requires ps != [] && WFConditions(ps, ok) && Stands(ts, at, ConditionsTokens(ps))
    requires Ends(Word(ts, at + |ConditionsTokens(ps)|))
    ensures Conditions(ts, at) == Done(ps, at + |ConditionsTokens(ps)|)
    decreases |ps|
  {
    hide Condition, Conditions, ConditionTokens, WFCondition, WFConditions, Stands, IsQuoted, IsNumber;
    FirstAndRest(ps, ok);
    var first := ConditionTokens(ps[0]);
    var next := at + |first|;
    if |ps| == 1 {
      ConditionPrinted(ts, at, ps[0], ok);
      OneCondition(ts, at, ps[0], next);
      assert ps == [ps[0]];
    } else {
      var rest := ConditionsTokens(ps[1..]);
      StandsSplit(ts, at, first, [Key(AndWord)] + rest);
      StandsSplit(ts, next, [Key(AndWord)], rest);
      StandsAt(ts, next, [Key(AndWord)], 0);
      ConditionPrinted(ts, at, ps[0], ok);
      ConditionsPrinted(ts, next + 1, ps[1..], ok);
      MoreConditions(ts, at, ps[0], next, ps[1..], next + 1 + |rest|);
    }
  }

  lemma SourcePrinted(ts: seq<Token>, at: nat, fromTenant: bool)
    requires Stands(ts, at, SourceTokens(fromTenant)) && (!fromTenant ==> Word(ts, at) != FromWord)
    ensures Source(ts, at) == Done(fromTenant, at + |SourceTokens(fromTenant)|)
  {
    StandEach(ts, at, SourceTokens(fromTenant));
  }

  lemma NotThe(entity: string)
    requires Lower(entity) == entity && entity != "the"
    ensures KeywordOf(entity) != TheWord
  {
    KeywordIsSpelling(entity);
  }

  lemma SetPrinted(ts: seq<Token>, at: nat, r: Reference, kind: Kind, v: Vocabulary, ok: iset<string>)
    requires WFReference(r, v, ok) && r.kind.ValueSet?
    requires Stands(ts, at, [Key(TheWord), Key(SetWord), Key(OfWord), Text(ValueOr(r.setField))])
    ensures Join(ts, at, kind, v) == Done(r, at + 4)
  {
    hide FieldAfter;
    StandEach(ts, at, [Key(TheWord), Key(SetWord), Key(OfWord), Text(ValueOr(r.setField))]);
    FieldAfterPrinted(ts, at + 2, OfWord, r.setField.value);
  }

  lemma KeysPrinted(ts: seq<Token>, at: nat, r: Reference, v: Vocabulary, ok: iset<string>)
    requires WFReference(r, v, ok) && !r.kind.ValueSet? && Stands(ts, at, KeyTokens(r))
    ensures FieldAfter(ts, at, ByWord) == Done(r.localField.value, at + 2)
    ensures FieldAfter(ts, at + 2, ToWord) == Done(r.remoteField.value, at + 4)
    ensures Word(ts, at) == ByWord
  {
    hide FieldAfter;
    StandEach(ts, at, KeyTokens(r));
    FieldAfterPrinted(ts, at, ByWord, r.localField.value);
    FieldAfterPrinted(ts, at + 2, ToWord, r.remoteField.value);
  }

  lemma SourceLength(fromTenant: bool)
    ensures |SourceTokens(fromTenant)| == if fromTenant then 3 else 0
  {
  }

  lemma KeyedPrinted(ts: seq<Token>, at: nat, r: Reference, v: Vocabulary, ok: iset<string>)
    requires WFReference(r, v, ok) && !r.kind.ValueSet?
    requires Stands(ts, at, [Name(r.entity)] + (SourceTokens(r.fromTenant) + KeyTokens(r)))
    ensures Join(ts, at, r.kind, v) == Done(r, at + 1 + |SourceTokens(r.fromTenant)| + 4)
  {
    hide FieldAfter, Source, SourceTokens, KeywordOf, Stands, IsQuoted, IsNumber;
    StandsSplit(ts, at, [Name(r.entity)], SourceTokens(r.fromTenant) + KeyTokens(r));
    StandsAt(ts, at, [Name(r.entity)], 0);
    StandsSplit(ts, at + 1, SourceTokens(r.fromTenant), KeyTokens(r));
    KeysPrinted(ts, at + 1 + |SourceTokens(r.fromTenant)|, r, v, ok);
    NotThe(r.entity);
    SourceLength(r.fromTenant);
    SourcePrinted(ts, at + 1, r.fromTenant);
  }

  lemma JoinPrinted(ts: seq<Token>, at: nat, r: Reference, v: Vocabulary, ok: iset<string>)
    requires WFReference(r, v, ok) && Stands(ts, at, ReferenceTokens(r))
    ensures at < |ts| && IsJoinWord(ts[at].word)
    ensures Join(ts, at + 1, JoinKind(ts[at].word), v) == Done(r, at + |ReferenceTokens(r)|)
  {
    hide Join, Stands, WFReference;
    if r.kind.ValueSet? {
      StandsSplit(ts, at, [Key(JoiningWord)], [Key(TheWord), Key(SetWord), Key(OfWord), Text(ValueOr(r.setField))]);
      StandsAt(ts, at, [Key(JoiningWord)], 0);
      SetPrinted(ts, at + 1, r, Lookup, v, ok);
    } else {
      var word := Key(if r.kind.Collection? then CollectingWord else JoiningWord);
      StandsSplit(ts, at, [word], [Name(r.entity)] + (SourceTokens(r.fromTenant) + KeyTokens(r)));
      StandsAt(ts, at, [word], 0);
      KeyedPrinted(ts, at + 1, r, v, ok);
    }
  }

  /** Words that may follow the joins. */
  predicate AfterJoins(k: Keyword)
  {
    k == WhereWord || k == UnlessWord || k == MustWord
  }

  lemma {:induction false} JoinsPrinted(ts: seq<Token>, at: nat, rs: seq<Reference>, v: Vocabulary, ok: iset<string>)
    requires WFReferences(rs, v, ok) && Stands(ts, at, ReferencesTokens(rs))
    requires AfterJoins(Word(ts, at + |ReferencesTokens(rs)|))
    ensures JoinClauses(ts, at, v) == Done(rs, at + |ReferencesTokens(rs)|)
    ensures AfterJoins(Word(ts, at)) || IsJoinWord(Word(ts, at))
    decreases |rs|
  {
    hide Join, ReferenceTokens, WFReference, Stands, AnotherJoinFollows, JoinKind;
    if rs != [] {
      StandsSplit(ts, at, ReferenceTokens(rs[0]), ReferencesTokens(rs[1..]));
      JoinPrinted(ts, at, rs[0], v, ok);
      var next := at + |ReferenceTokens(rs[0])|;
      JoinsPrinted(ts, next, rs[1..], v, ok);
      assert JoinList(ts, at + 1, JoinKind(Word(ts, at)), v) == Done([rs[0]], next);
      assert rs == [rs[0]] + rs[1..];
    }
  }

  lemma ScopePrinted(ts: seq<Token>, at: nat, ps: seq<Predicate>, ok: iset<string>)
    requires WFConditions(ps, ok) && Stands(ts, at, ClauseTokens(WhereWord, ps))
    requires Word(ts, at + |ClauseTokens(WhereWord, ps)|) in {UnlessWord, MustWord}
    ensures Scope(ts, at) == Done(ps, at + |ClauseTokens(WhereWord, ps)|)
    ensures AfterJoins(Word(ts, at))
  {
    hide Conditions, ConditionsTokens, WFConditions, Stands, IsQuoted, IsNumber;
    if ps != [] {
      StandsSplit(ts, at, [Key(WhereWord)], ConditionsTokens(ps));
      StandsAt(ts, at, [Key(WhereWord)], 0);
      ConditionsPrinted(ts, at + 1, ps, ok);
    }
  }

  lemma ExceptionsPrinted(ts: seq<Token>, at: nat, ps: seq<Predicate>, ok: iset<string>)
    requires WFConditions(ps, ok) && Stands(ts, at, ClauseTokens(UnlessWord, ps))
    requires Word(ts, at + |ClauseTokens(UnlessWord, ps)|) == MustWord
    ensures Exceptions(ts, at) == Done(ps, at + |ClauseTokens(UnlessWord, ps)|)
    ensures Word(ts, at) in {UnlessWord, MustWord}
  {
    hide Conditions, ConditionsTokens, WFConditions, Stands, IsQuoted, IsNumber;
    if ps != [] {
      StandsSplit(ts, at, [Key(UnlessWord)], ConditionsTokens(ps));
      StandsAt(ts, at, [Key(UnlessWord)], 0);
      ConditionsPrinted(ts, at + 1, ps, ok);
    }
  }

  lemma MustPrinted(ts: seq<Token>, at: nat, mode: Mode)
    requires Stands(ts, at, MustTokens(mode))
    ensures MustOf(ts, at) == Done(Modal(if mode.Aggregate? then AllOf else mode, mode.NoneOf?), at
              + |MustTokens(mode)|)
  {
    hide Stands, IsQuoted, IsNumber, AtLeastOneOf;
    var words := MustTokens(mode);
    StandsAt(ts, at, words, 0);
    if mode.NoneOf? {
      StandsAt(ts, at, words, 1);
    } else if mode.AnyOf? {
      AtLeastOneOfPrinted(ts, at);
    }
  }

  lemma AtLeastOneOfPrinted(ts: seq<Token>, at: nat)
    requires Stands(ts, at, MustTokens(AnyOf))
    ensures at + 5 <= |ts| && AtLeastOneOf(ts, at + 1)
  {
    hide Stands, IsQuoted, IsNumber;
    var words := MustTokens(AnyOf);
    StandsAt(ts, at, words, 1);
    StandsAt(ts, at, words, 2);
    StandsAt(ts, at, words, 3);
    StandsAt(ts, at, words, 4);
  }

  lemma ModalPrinted(ts: seq<Token>, at: nat, mode: Mode, quantifier: Keyword)
    requires Stands(ts, at, ModalTokens(mode))
    ensures Word(ts, at) == MustWord
    ensures ModalOf(ts, at, quantifier)
            == Done(Modal(if mode.Aggregate? then AllOf else mode, mode.NoneOf?), at + |ModalTokens(mode)|)
  {
    hide Stands, IsQuoted, IsNumber, MustOf, MustTokens;
    StandsSplit(ts, at, [Key(MustWord)], MustTokens(mode));
    StandsAt(ts, at, [Key(MustWord)], 0);
    MustPrinted(ts, at + 1, mode);
  }

  lemma LimitPrinted(ts: seq<Token>, at: nat, n: nat)
    requires at < |ts| && ReadsAs(Text(NatText(n)), ts[at])
    ensures WholeNumber(ts, at) == Done(n, at + 1)
  {
    NatRoundTrip(n);
  }

  lemma CountPrinted(ts: seq<Token>, at: nat, p: Predicate, key: string, ok: iset<string>)
    requires WFAggregate(p, ok) && WFField(key, ok) && p.operator.CountLte? && Stands(ts, at, AggregateTokens(p, key))
    requires Word(ts, at + |AggregateTokens(p, key)|) != AndWord
    ensures CountPer(ts, at + 1) == Done(Assertion(Aggregate, Some(key), [p]), at + |AggregateTokens(p, key)|)
    ensures Word(ts, at) == AtWord
  {
    StandEach(ts, at, AggregateTokens(p, key));
    LimitPrinted(ts, at + 2, LimitOf(p));
    FieldPrinted(ts, at + 3, p.field);
    FieldAfterPrinted(ts, at + 4, PerWord, key);
  }

  lemma OverlappingPrinted(ts: seq<Token>, at: nat, p: Predicate, key: string, ok: iset<string>)
    requires WFAggregate(p, ok) && WFField(key, ok) && p.operator.NoOverlap?
    requires Stands(ts, at, OverlappingTokens(p, key))
    requires Word(ts, at + |OverlappingTokens(p, key)|) != AndWord
    ensures Overlapping(ts, at) == Done(Assertion(Aggregate, Some(key), [p]), at + |OverlappingTokens(p, key)|)
  {
    hide Field, FieldAfter, IntervalAt, Stands, IsQuoted, IsNumber;
    var head, interval, tail :=
      [Text(p.field), Key(FromWord)], IntervalTokens(p.interval.value), [Key(PerWord), Text(key)];
    StandsSplit(ts, at, head, interval + tail);
    StandsAt(ts, at, head, 0);
    StandsAt(ts, at, head, 1);
    StandsSplit(ts, at + 2, interval, tail);
    StandsAt(ts, at + 5, tail, 0);
    StandsAt(ts, at + 5, tail, 1);
    FieldPrinted(ts, at, p.field);
    IntervalPrinted(ts, at + 2, p.interval.value);
    FieldAfterPrinted(ts, at + 5, PerWord, key);
  }

  lemma OverlapPrinted(ts: seq<Token>, at: nat, p: Predicate, key: string, ok: iset<string>)
    requires WFAggregate(p, ok) && WFField(key, ok) && p.operator.NoOverlap? && Stands(ts, at, AggregateTokens(p, key))
    requires Word(ts, at + |AggregateTokens(p, key)|) != AndWord
    ensures OverlapPer(ts, at) == Done(Assertion(Aggregate, Some(key), [p]), at + |AggregateTokens(p, key)|)
    ensures Word(ts, at) == NoWord
  {
    hide Overlapping, OverlappingTokens, Stands, IsQuoted, IsNumber;
    var head := [Key(NoWord), Key(OverlappingWord)];
    StandsSplit(ts, at, head, OverlappingTokens(p, key));
    StandsAt(ts, at, head, 0);
    StandsAt(ts, at, head, 1);
    OverlappingPrinted(ts, at + 2, p, key, ok);
  }

  lemma ConditionOpens(ts: seq<Token>, at: nat, ps: seq<Predicate>, ok: iset<string>)
    requires ps != [] && WFConditions(ps, ok) && Stands(ts, at, ConditionsTokens(ps))
    ensures Word(ts, at) == Other
  {
    StandsAt(ts, at, ConditionsTokens(ps), 0);
    assert ConditionTokens(ps[0])[0] == Text(ps[0].field);
    assert ConditionsTokens(ps)[0] == ConditionTokens(ps[0])[0];
  }

  lemma AggregatePrinted(ts: seq<Token>, at: nat, p: Predicate, key: string, ok: iset<string>)
    requires WFAggregate(p, ok) && WFField(key, ok) && Stands(ts, at, AggregateTokens(p, key))
    requires Word(ts, at + |AggregateTokens(p, key)|) != AndWord
    ensures Aggregated(ts, at) == Done(Assertion(Aggregate, Some(key), [p]), at + |AggregateTokens(p, key)|)
    ensures Word(ts, at) in {AtWord, NoWord}
  {
    hide CountPer, OverlapPer, AggregateTokens, Stands;
    if p.operator.CountLte? {
      CountPrinted(ts, at, p, key, ok);
    } else {
      OverlapPrinted(ts, at, p, key, ok);
    }
  }

  lemma RequiredPrinted(ts: seq<Token>, at: nat, a: Assertion, ok: iset<string>)
    requires WFAssertion(a, ok) && Stands(ts, at, RequiredTokens(a)) && Ends(Word(ts, at + |RequiredTokens(a)|))
    ensures Required(ts, at, Modal(if a.mode.Aggregate? then AllOf else a.mode, a.mode.NoneOf?))
              == Done(a, at + |RequiredTokens(a)|)
  {
    hide Conditions, ConditionsTokens, WFConditions, Stands, AggregateTokens, Aggregated, WFAggregate;
    if a.mode.Aggregate? {
      assert a.predicates == [a.predicates[0]];
      AggregatePrinted(ts, at, a.predicates[0], a.groupBy.value, ok);
    } else {
      ConditionOpens(ts, at, a.predicates, ok);
      ConditionsPrinted(ts, at, a.predicates, ok);
    }
  }

  lemma AssertionPrinted(ts: seq<Token>, at: nat, a: Assertion, quantifier: Keyword, ok: iset<string>)
    requires WFAssertion(a, ok) && Stands(ts, at, AssertionTokens(a)) && Ends(Word(ts, at + |AssertionTokens(a)|))
    ensures AssertionOf(ts, at, quantifier) == Done(a, at + |AssertionTokens(a)|)
    ensures Word(ts, at) == MustWord
  {
    hide WFAssertion, Stands, ModalTokens, RequiredTokens, ModalOf, Required;
    var modal := ModalTokens(a.mode);
    StandsSplit(ts, at, modal, RequiredTokens(a));
    ModalPrinted(ts, at, a.mode, quantifier);
    RequiredPrinted(ts, at + |modal|, a, ok);
  }

  lemma {:induction false} FieldListPrinted(ts: seq<Token>, at: nat, fs: seq<string>, ok: iset<string>)
    requires fs != [] && WFFields(fs, ok) && Stands(ts, at, FieldsTokens(fs))
    requires Word(ts, at + |FieldsTokens(fs)|) != AndWord
    ensures FieldList(ts, at) == Done(fs, at + |FieldsTokens(fs)|)
    decreases |fs|
  {
    hide Field, IsNumber, IsQuoted, KeywordOf;
    if |fs| == 1 {
      assert FieldsTokens(fs) == [Text(fs[0])];
      StandEach(ts, at, [Text(fs[0])]);
      FieldPrinted(ts, at, fs[0]);
      assert fs == [fs[0]];
    } else {
      StandsSplit(ts, at, [Text(fs[0]), Key(AndWord)], FieldsTokens(fs[1..]));
      StandEach(ts, at, [Text(fs[0]), Key(AndWord)]);
      FieldPrinted(ts, at, fs[0]);
      FieldListPrinted(ts, at + 2, fs[1..], ok);
      assert fs == [fs[0]] + fs[1..];
    }
  }

  lemma ShowingPrinted(ts: seq<Token>, at: nat, fs: seq<string>, ok: iset<string>)
    requires WFFields(fs, ok) && Stands(ts, at, ShowingTokens(fs)) && at + |ShowingTokens(fs)| == |ts|
    ensures Showing(ts, at) == Done(fs, |ts|)
    ensures Word(ts, at) in {ShowingWord, Other}
  {
    hide FieldList, FieldsTokens;
    if fs != [] {
      StandsSplit(ts, at, [Key(ShowingWord)], FieldsTokens(fs));
      StandsAt(ts, at, [Key(ShowingWord)], 0);
      FieldListPrinted(ts, at + 1, fs, ok);
    }
  }

  /** The clauses after the joins, each in its place. */
  lemma ClausesPrinted(ts: seq<Token>, at: nat, l: Logic, v: Vocabulary, ok: iset<string>)
    requires WFLogic(l, v, ok)
    requires Stands(ts, at, ClausesTokens(l)) && |ts| == at + |ClausesTokens(l)|
    ensures var c := at + |ClauseTokens(WhereWord, l.rule.scope)|;
            var d := c + |ClauseTokens(UnlessWord, l.rule.exceptions)|;
            var e := d + |AssertionTokens(l.rule.assertion)|;
            && AfterJoins(Word(ts, at))
            && Scope(ts, at) == Done(l.rule.scope, c)
            && Exceptions(ts, c) == Done(l.rule.exceptions, d)
            && AssertionOf(ts, d, Word(ts, 0)) == Done(l.rule.assertion, e)
            && Showing(ts, e) == Done(l.showing, |ts|)
  {
    hide ClauseTokens, AssertionTokens, ShowingTokens, Scope, Exceptions, AssertionOf, Showing;
    hide WFConditions, WFAssertion, WFFields, Stands;
    var scope, exceptions := ClauseTokens(WhereWord, l.rule.scope), ClauseTokens(UnlessWord, l.rule.exceptions);
    var assertion, showing := AssertionTokens(l.rule.assertion), ShowingTokens(l.showing);
    var c := at + |scope|;
    var d := c + |exceptions|;
    var e := d + |assertion|;
    StandsSplit(ts, at, scope, exceptions + (assertion + showing));
    StandsSplit(ts, c, exceptions, assertion + showing);
    StandsSplit(ts, d, assertion, showing);
    ShowingPrinted(ts, e, l.showing, ok);
    AssertionPrinted(ts, d, l.rule.assertion, Word(ts, 0), ok);
    ExceptionsPrinted(ts, c, l.rule.exceptions, ok);
    ScopePrinted(ts, at, l.rule.scope, ok);
  }

  /** The parser's steps, one after another. */
  lemma ParseSteps(ts: seq<Token>, l: Logic, v: Vocabulary, b: nat, c: nat, d: nat, e: nat)
    requires |ts| >= 2 && ts[0].word == EveryWord && Lower(ts[1].text) == l.rule.entity && l.rule.entity in v.subjects
    requires JoinClauses(ts, 2, v) == Done(l.rule.references, b) && AfterJoins(Word(ts, b)) && b <= |ts|
    requires Scope(ts, b) == Done(l.rule.scope, c)
    requires c <= |ts| && Exceptions(ts, c) == Done(l.rule.exceptions, d)
    requires d <= |ts| && AssertionOf(ts, d, EveryWord) == Done(l.rule.assertion, e)
    requires e <= |ts| && Showing(ts, e) == Done(l.showing, |ts|)
    ensures Parse(ts, v) == Done(l, |ts|)
  {
    hide JoinClauses, Scope, Exceptions, AssertionOf, Showing;
  }

  /** Parsing tokens a printed rule is read as gives back that rule, and every token is used. */
  lemma ParsePrinted(ts: seq<Token>, l: Logic, v: Vocabulary, ok: iset<string>)
    requires WFLogic(l, v, ok) && |ts| == |Print(l)| && Stands(ts, 0, Print(l))
    ensures Parse(ts, v) == Done(l, |ts|)
  {
    hide Parse, ClausesTokens, ClauseTokens, AssertionTokens, ShowingTokens, Scope, Exceptions, AssertionOf, Showing;
    hide WFConditions, WFAssertion, WFFields, WFReferences, Stands, JoinClauses, ReferencesTokens, KeywordOf,
      IsQuoted, IsNumber;
    var head, joins, clauses :=
      [Key(EveryWord), Name(l.rule.entity)], ReferencesTokens(l.rule.references), ClausesTokens(l);
    StandsSplit(ts, 0, head, joins + clauses);
    StandsAt(ts, 0, head, 0);
    StandsAt(ts, 0, head, 1);
    StandsSplit(ts, 2, joins, clauses);
    var b := 2 + |joins|;
    ClausesPrinted(ts, b, l, v, ok);
    JoinsPrinted(ts, 2, l.rule.references, v, ok);
    var c := Scope(ts, b).at;
    var d := Exceptions(ts, c).at;
    ParseSteps(ts, l, v, b, c, d, AssertionOf(ts, d, EveryWord).at);
  }
}
