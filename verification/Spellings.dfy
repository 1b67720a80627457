/** Every way a sentence can say a rule: the words it may be made of, as a tree, and what the tree
    means. The parser takes exactly these sentences and reads exactly these rules
    (hotelcontrols/compiler/grammar.py). */
module Spellings {
  import opened Basics
  import opened Texts
  import opened Rules
  import opened Tokens
  import opened Keywords
  import opened Grammar
  import opened Absences

  function Words(s: seq<Token>): (ws: seq<Keyword>)
    ensures |ws| == |s| && forall i :: 0 <= i < |s| ==> ws[i] == s[i].word
  {
    seq(|s|, i requires 0 <= i < |s| => s[i].word)
  }

  // ------------------------------------------------------------------ conditions
  function OneWordVerb(w: Keyword): Option<Operator>
  {
    if w == ExistsWord || w == PresentWord then Some(Exists)
    else if w == MissingWord then Some(NotExists)
    else if w == MatchingWord || w == MatchesWord then Some(MatchesIgnoreCase)
    else if w == WithinWord then Some(Within)
    else if w == ResolvedWord then Some(ReferenceExists)
    else if w == UnresolvedWord then Some(ReferenceMissing)
    else None
  }

  function TwoWordVerb(first: Keyword, second: Keyword): Option<Operator>
  {
    if first == OneWord && second == OfWord then Some(In)
    else if first == LessWord && second == ThanWord then Some(LessThan)
    else if first == AtWord && second == MostWord then Some(AtMost)
    else if (first == MoreWord || first == GreaterWord) && second == ThanWord then Some(MoreThan)
    else if first == AtWord && second == LeastWord then Some(AtLeast)
    else None
  }

  /** The operators that can be said with `not`. */
  function Opposite(op: Operator): Option<Operator>
  {
    match op
    case Exists => Some(NotExists)
    case In => Some(NotIn)
    case Within => Some(NotWithin)
    case ReferenceExists => Some(ReferenceMissing)
    case _ => None
  }

  function PositiveVerb(ws: seq<Keyword>): Option<Operator>
  {
    if |ws| == 1 then OneWordVerb(ws[0]) else if |ws| == 2 then TwoWordVerb(ws[0], ws[1]) else None
  }

  /** The words that say an operator, without an opening `is`. */
  function BareVerb(ws: seq<Keyword>): Option<Operator>
  {
    if ws != [] && ws[0] == NotWord then
      var positive := PositiveVerb(ws[1..]);
      if positive.Some? then Opposite(positive.value) else None
    else PositiveVerb(ws)
  }

  /** An operator's words may open with `is`; `is` and `is not` alone say equality. */
  function VerbMeans(ws: seq<Keyword>): Option<Operator>
  {
    if ws == [IsWord] then Some(Equals)
    else if ws == [IsWord, NotWord] then Some(NotEquals)
    else if ws != [] && ws[0] == IsWord then BareVerb(ws[1..])
    else BareVerb(ws)
  }

  function LiteralMeans(t: Token): Option<RuleLiteral>
  {
    if IsQuoted(t.text) then Some(TextLiteral(t.text[1..|t.text| - 1]))
    else if IsNumber(t.text) then Some(if HasDot(t.text) then DecimalLiteral(t.text) else WholeLiteral(IntOf(t.text)))
    else if t.word == TrueWord then Some(TruthLiteral(true))
    else if t.word == FalseWord then Some(TruthLiteral(false))
    else None
  }

  function OperandMeans(s: seq<Token>): Option<Side>
  {
    if |s| == 1 && LiteralMeans(s[0]).Some? then Some(LiteralSide(LiteralMeans(s[0]).value))
    else if |s| == 1 && s[0].word != SettingWord && HasDot(s[0].text) then Some(FieldSide(s[0].text))
    else if |s| == 2 && LiteralMeans(s[0]).None? && s[0].word == SettingWord then Some(SettingSide(s[1].text))
    else None
  }

  function AbsenceMeans(ws: seq<Keyword>): Option<Option<bool>>
  {
    if ws == [] then Some(None)
    else if ws == [OrWord, AbsentWord] then Some(Some(true))
    else if ws == [IfWord, PresentWord] then Some(Some(false))
    else None
  }

  function IntervalMeans(s: seq<Token>): Option<Interval>
  {
    if |s| == 3 && HasDot(s[0].text) && s[1].word == ToWord && HasDot(s[2].text)
    then Some(Interval(s[0].text, s[2].text)) else None
  }

  datatype CondTree = CondTree(field: Token, verb: seq<Token>, operand: seq<Token>, absence: seq<Token>)

  function CondTokens(c: CondTree): seq<Token>
  {
    [c.field] + c.verb + c.operand + c.absence
  }

  function Sided(c: CondTree, op: Operator): Option<Predicate>
  {
    match (OperandMeans(c.operand), AbsenceMeans(Words(c.absence)))
    case (Some(side), Some(absent)) =>
      if (op.In? || op.NotIn?) && side.LiteralSide? then None
      else Some(WithSide(Plain(c.field.text, op), side).(absent := absent))
    case _ => None
  }

  function CondMeans(c: CondTree): Option<Predicate>
  {
    if !HasDot(c.field.text) then None
    else match VerbMeans(Words(c.verb))
      case None => None
      case Some(op) =>
        match OperandKind(op)
        case NoOperand => if c.operand == [] && c.absence == [] then Some(Plain(c.field.text, op)) else None
        case AnInterval =>
          if c.absence == [] && IntervalMeans(c.operand).Some?
          then Some(Plain(c.field.text, op).(interval := IntervalMeans(c.operand))) else None
        case OneOperand => Sided(c, op)
  }

  datatype CondList = LastCond(c: CondTree) | MoreConds(c: CondTree, and: Token, rest: CondList)

  function ListTokens(l: CondList): (s: seq<Token>)
    ensures |s| > 0
  {
    match l
    case LastCond(c) => CondTokens(c)
    case MoreConds(c, and, rest) => CondTokens(c) + ([and] + ListTokens(rest))
  }

  function ListMeans(l: CondList): Option<seq<Predicate>>
  {
    match l
    case LastCond(c) => if CondMeans(c).Some? then Some([CondMeans(c).value]) else None
    case MoreConds(c, and, rest) =>
      if CondMeans(c).Some? && and.word == AndWord && ListMeans(rest).Some?
      then Some([CondMeans(c).value] + ListMeans(rest).value) else None
  }

  // ------------------------------------------------------------------ joins
  /** `by <field> to <field>`, from this token on. */
  predicate SaysKeys(s: seq<Token>, i: nat)
  {
    |s| == i + 4 && s[i].word == ByWord && HasDot(s[i + 1].text) && s[i + 2].word == ToWord && HasDot(s[i + 3].text)
  }

  /** `the set of <field>`, or `<entity> [from the hotel] by <field> to <field>`. */
  function JoinMeans(s: seq<Token>, kind: Kind, v: Vocabulary): Option<Reference>
  {
    if |s| == 4 && s[0].word == TheWord && s[1].word == SetWord && s[2].word == OfWord && HasDot(s[3].text) then
      Some(Reference(EntityOf(s[3].text), ValueSet, None, None, Some(s[3].text), false))
    else if s == [] || s[0].word == TheWord || Lower(s[0].text) !in v.references then None
    else if SaysKeys(s, 1) then
      Some(Reference(Lower(s[0].text), kind, Some(s[2].text), Some(s[4].text), None, false))
    else if SaysKeys(s, 4) && s[1].word == FromWord && s[2].word == TheWord && s[3].word == HotelWord then
      Some(Reference(Lower(s[0].text), kind, Some(s[5].text), Some(s[7].text), None, true))
    else None
  }

  datatype JoinTree = LastJoin(s: seq<Token>) | MoreJoin(s: seq<Token>, and: Token, rest: JoinTree)

  function JoinTokens(j: JoinTree): seq<Token>
  {
    match j
    case LastJoin(s) => s
    case MoreJoin(s, and, rest) => s + ([and] + JoinTokens(rest))
  }

  function JoinsMean(j: JoinTree, kind: Kind, v: Vocabulary): Option<seq<Reference>>
  {
    match j
    case LastJoin(s) => if JoinMeans(s, kind, v).Some? then Some([JoinMeans(s, kind, v).value]) else None
    case MoreJoin(s, and, rest) =>
      if JoinMeans(s, kind, v).Some? && and.word == AndWord && JoinsMean(rest, kind, v).Some?
      then Some([JoinMeans(s, kind, v).value] + JoinsMean(rest, kind, v).value) else None
  }

  datatype JoinClauseTree = NoJoins | JoinClause(word: Token, joins: JoinTree, rest: JoinClauseTree)

  function JoinClauseTokens(j: JoinClauseTree): seq<Token>
  {
    match j
    case NoJoins => []
    case JoinClause(word, joins, rest) => [word] + (JoinTokens(joins) + JoinClauseTokens(rest))
  }

  function JoinClausesMean(j: JoinClauseTree, v: Vocabulary): Option<seq<Reference>>
  {
    match j
    case NoJoins => Some([])
    case JoinClause(word, joins, rest) =>
      var kind := if word.word == CollectingWord then Collection else Lookup;
      if word.word in {JoiningWord, CollectingWord} && JoinsMean(joins, kind, v).Some? && JoinClausesMean(rest, v).Some?
      then Some(JoinsMean(joins, kind, v).value + JoinClausesMean(rest, v).value) else None
  }

  // ------------------------------------------------------------------ clauses
  datatype ClauseTree = NoClause | Clause(opening: seq<Token>, conditions: CondList)

  function ClauseTokens(c: ClauseTree): seq<Token>
  {
    match c
    case NoClause => []
    case Clause(opening, conditions) => opening + ListTokens(conditions)
  }

  predicate OpensScope(ws: seq<Keyword>)
  {
    ws == [WhereWord]
  }

  predicate OpensExceptions(ws: seq<Keyword>)
  {
    ws == [UnlessWord] || ws == [ExceptWord, WhereWord]
  }

  function ClauseMeans(c: ClauseTree, exceptions: bool): Option<seq<Predicate>>
  {
    match c
    case NoClause => Some([])
    case Clause(opening, conditions) =>
      if (if exceptions then OpensExceptions(Words(opening)) else OpensScope(Words(opening)))
        then ListMeans(conditions) else None
  }

  // ------------------------------------------------------------------ assertion
  /** `must have`, `must not have`, `must satisfy at least one of`; and `may have` after `no`, which
      forbids. */
  function ModalMeans(ws: seq<Keyword>, quantifier: Keyword): Option<Modal>
  {
    if |ws| == 2 && ws[0] == MustWord && ws[1] == HaveWord then Some(Modal(AllOf, false))
    else if |ws| == 2 && ws[0] == MayWord && ws[1] == HaveWord && quantifier == NoWord then Some(Modal(NoneOf, true))
    else if |ws| == 3 && ws[0] == MustWord && ws[1] == NotWord && ws[2] == HaveWord then Some(Modal(NoneOf, true))
    else if |ws| == 6 && ws[0] == MustWord && ws[1] == SatisfyWord
      && ws[2] == AtWord && ws[3] == LeastWord && ws[4] == OneWord
            && ws[5] == OfWord then Some(Modal(AnyOf, false))
    else None
  }

  /** `at most N <field> per <field>`, or `no overlapping <field> from <field> to <field> per <field>`. */
  function AggregateMeans(s: seq<Token>): Option<Assertion>
  {
    if |s| == 6 && s[0].word == AtWord && s[1].word == MostWord && s[2].text != "" && AllDigits(s[2].text)
       && HasDot(s[3].text) && s[4].word == PerWord && HasDot(s[5].text) then
      Some(Assertion(Aggregate, Some(s[5].text),
        [Plain(s[3].text, CountLte).(value := Some(WholeLiteral(NatOf(s[2].text))))]))
    else if |s| == 9 && s[0].word == NoWord && s[1].word == OverlappingWord
      && HasDot(s[2].text) && s[3].word == FromWord
            && IntervalMeans(s[4..7]).Some? && s[7].word == PerWord && HasDot(s[8].text) then
      Some(Assertion(Aggregate, Some(s[8].text), [Plain(s[2].text, NoOverlap).(interval := IntervalMeans(s[4..7]))]))
    else None
  }

  datatype AskedTree = OfARecord(conditions: CondList) | OfAGroup(s: seq<Token>)

  function AskedTokens(a: AskedTree): seq<Token>
  {
    match a
    case OfARecord(conditions) => ListTokens(conditions)
    case OfAGroup(s) => s
  }

  function AskedMeans(a: AskedTree, modal: Modal): Option<Assertion>
  {
    match a
    case OfARecord(conditions) =>
      if ListMeans(conditions).Some? then Some(Assertion(modal.mode, None, ListMeans(conditions).value)) else None
    case OfAGroup(s) => if modal.negated then None else AggregateMeans(s)
  }

  // ------------------------------------------------------------------ showing
  datatype FieldsTree = LastField(t: Token) | MoreFields(t: Token, and: Token, rest: FieldsTree)

  function FieldsTokens(f: FieldsTree): (s: seq<Token>)
    ensures |s| > 0
  {
    match f
    case LastField(t) => [t]
    case MoreFields(t, and, rest) => [t] + ([and] + FieldsTokens(rest))
  }

  function FieldsMean(f: FieldsTree): Option<seq<string>>
  {
    match f
    case LastField(t) => if HasDot(t.text) then Some([t.text]) else None
    case MoreFields(t, and, rest) =>
      if HasDot(t.text) && and.word == AndWord && FieldsMean(rest).Some? then Some([t.text] + FieldsMean(rest).value)
        else None
  }

  datatype ShowTree = NoShow | Show(word: Token, fields: FieldsTree)

  function ShowTokens(s: ShowTree): seq<Token>
  {
    match s
    case NoShow => []
    case Show(word, fields) => [word] + FieldsTokens(fields)
  }

  function ShowMeans(s: ShowTree): Option<seq<string>>
  {
    match s
    case NoShow => Some([])
    case Show(word, fields) => if word.word == ShowingWord then FieldsMean(fields) else None
  }

  // ------------------------------------------------------------------ sentences
  datatype Tree = Tree(
    quantifier: Token,
    subject: Token,
    joins: JoinClauseTree,
    scope: ClauseTree,
    exceptions: ClauseTree,
    modal: seq<Token>,
    asked: AskedTree,
    showing: ShowTree)

  function TreeTokens(t: Tree): seq<Token>
  {
    [t.quantifier, t.subject] + (JoinClauseTokens(t.joins) + (ClauseTokens(t.scope) + (ClauseTokens(t.exceptions)
    + (t.modal + (AskedTokens(t.asked) + ShowTokens(t.showing))))))
  }

  /** The rule a sentence says, if it says one. */
  function TreeMeans(t: Tree, v: Vocabulary): Option<Logic>
  {
    if t.quantifier.word !in {EveryWord, EachWord, AllWord, NoWord} || Lower(t.subject.text) !in v.subjects then None
    else
      match (JoinClausesMean(t.joins, v), ClauseMeans(t.scope, false), ClauseMeans(t.exceptions, true),
             ModalMeans(Words(t.modal), t.quantifier.word))
      case (Some(references), Some(scope), Some(exceptions), Some(modal)) =>
        (match (AskedMeans(t.asked, modal), ShowMeans(t.showing))
         case (Some(assertion), Some(showing)) =>
           Some(Logic(Rule(Lower(t.subject.text), references, scope, exceptions, assertion), showing))
         case _ => None)
      case _ => None
  }
}
