/** `or absent` and `if present`, which the parser takes after any operand and the validator allows on
    an ordering alone (hotelcontrols/compiler/grammar.py, hotelcontrols/spec/ir.py). */
module Absences {
  import opened Basics
  import opened Texts
  import opened Rules
  import opened Tokens
  import opened Keywords
  import opened Grammar
  import opened WellFormed
  import opened Printer
  import opened Parser
  import opened Checks
  import opened Compiler

  // ------------------------------------------------------------------ where the words stand
  /** `or absent`, or `if present`, stands here. */
  predicate AbsenceAt(ts: seq<Token>, i: nat)
  {
    (Word(ts, i) == OrWord && Word(ts, i + 1) == AbsentWord)
      || (Word(ts, i) == IfWord && Word(ts, i + 1) == PresentWord)
  }

  /** The `k`-th word before this place. */
  function WordBefore(ts: seq<Token>, i: nat, k: nat): Keyword
  {
    if k <= i then Word(ts, i - k) else Other
  }

  predicate OrderingWords(first: Keyword, second: Keyword)
  {
    || (first == AtWord && (second == MostWord || second == LeastWord))
    || ((first == LessWord || first == MoreWord || first == GreaterWord) && second == ThanWord)
  }

  /** The operand that ends here - two words when it names a setting - follows an ordering phrase. */
  predicate AfterOrdering(ts: seq<Token>, i: nat)
  {
    var length := if WordBefore(ts, i, 2) == SettingWord then 2 else 1;
    OrderingWords(WordBefore(ts, i, length + 2), WordBefore(ts, i, length + 1))
  }

  /** Some absence phrase in this stretch follows another operator. */
  ghost predicate Misplaced(ts: seq<Token>, from: nat, to: nat)
  {
    exists i: nat :: from <= i < to && AbsenceAt(ts, i) && !AfterOrdering(ts, i)
  }

  ghost predicate NoAbsence(ts: seq<Token>, from: nat, to: nat)
  {
    forall i: nat :: from <= i < to ==> !AbsenceAt(ts, i)
  }

  lemma Split(ts: seq<Token>, from: nat, middle: nat, to: nat)
    requires from <= middle <= to
    ensures Misplaced(ts, from, to) <==> Misplaced(ts, from, middle) || Misplaced(ts, middle, to)
  {
  }

  /** Names with a dot, quoted texts and numbers are no keywords. */
  ghost predicate Plainly(ts: seq<Token>)
  {
    forall i {:trigger ts[i].word} {:trigger ts[i].text} :: 0 <= i < |ts| ==>
      (HasDot(ts[i].text) || IsQuoted(ts[i].text)
        || IsNumber(ts[i].text) || (ts[i].text != "" && AllDigits(ts[i].text)))
      ==> ts[i].word == Other
  }

  lemma ReadIsPlain(texts: seq<string>)
    ensures Plainly(Read(texts))
  {
    hide KeywordOf;
    forall i | 0 <= i < |texts|
      ensures (HasDot(texts[i]) || IsQuoted(texts[i]) || IsNumber(texts[i]) || (texts[i] != "" && AllDigits(texts[i])))
              ==> KeywordOf(texts[i]) == Other
    {
      if HasDot(texts[i]) || IsQuoted(texts[i]) || IsNumber(texts[i]) || (texts[i] != "" && AllDigits(texts[i])) {
        ReadsAsNoWord(texts[i]);
      }
    }
  }

  lemma ReadsAsNoWord(t: string)
    requires HasDot(t) || IsQuoted(t) || IsNumber(t) || (t != "" && AllDigits(t))
    ensures KeywordOf(t) == Other
  {
    hide KeywordOf;
    if HasDot(t) {
      var i :| 0 <= i < |t| && t[i] == '.';
      NotKeyword(t, i);
    } else if IsNumber(t) {
      var body := if t != "" && t[0] == '-' then t[1..] else t;
      assert IsDigit(body[..PointAt(body)][0]);
      NotKeyword(t, 0);
    } else {
      assert AllDigits(t) && t != "" ==> IsDigit(t[0]);
      NotKeyword(t, 0);
    }
  }

  // ------------------------------------------------------------------ one condition
  predicate Calm(k: Keyword)
  {
    k != OrWord && k != IfWord && k != SettingWord
  }

  lemma TwoWords(first: Keyword, second: Keyword)
    requires PhraseFor(first, second).Some? && PhraseFor(first, second).value.length == 2
    ensures var p := PhraseFor(first, second).value;
            && Calm(first) && Calm(second)
            && (IsOrdering(p.positive) <==> OrderingWords(first, second))
            && (p.negated.Some? ==> !IsOrdering(p.negated.value) && !IsOrdering(p.positive))
  {
    hide PhraseFor;
    var k := LongPhraseHasRow(first, second);
    LongRowIsPhrase(first, second, k);
  }

  lemma OneWordAlone(first: Keyword, second: Keyword)
    requires PhraseFor(first, second).Some? && PhraseFor(first, second).value.length == 1
    ensures var p := PhraseFor(first, second).value;
            && first in {WithinWord, ExistsWord, PresentWord, MissingWord, ResolvedWord, UnresolvedWord, MatchingWord,
               MatchesWord}
            && !IsOrdering(p.positive) && (p.negated.Some? ==> !IsOrdering(p.negated.value))
  {
    hide PhraseFor;
    var k := ShortPhraseHasRow(first, second);
    ShortRowIsPhrase(first, second, k);
  }

  lemma PhraseWords(first: Keyword, second: Keyword)
    requires PhraseFor(first, second).Some?
    ensures var p := PhraseFor(first, second).value;
            && Calm(first) && (p.length == 2 ==> Calm(second))
            && (p.length == 2 ==> (IsOrdering(p.positive) <==> OrderingWords(first, second)))
            && (p.length == 1 ==> !IsOrdering(p.positive) && (forall k :: !OrderingWords(k, first)))
            && (p.negated.Some? ==> !IsOrdering(p.negated.value) && !IsOrdering(p.positive))
  {
    hide PhraseFor;
    if PhraseFor(first, second).value.length == 2 {
      TwoWords(first, second);
    } else {
      OneWordAlone(first, second);
    }
  }

  /** The words an operator is made of, up to its operand. */
  lemma VerbWords(ts: seq<Token>, at: nat, isSeen: bool, negated: bool)
    requires 1 <= at <= |ts| && VerbOf(ts, at, isSeen, negated).Some?
    requires Word(ts, at - 1) == if negated then NotWord else if isSeen then IsWord else Other
    ensures var v := VerbOf(ts, at, isSeen, negated).value;
            && NoAbsence(ts, at, at + v.length)
            && Calm(WordBefore(ts, at + v.length, 1))
            && (IsOrdering(v.op) <==> OrderingWords(WordBefore(ts, at + v.length, 2), WordBefore(ts, at + v.length, 1)))
  {
    hide PhraseFor, Word, OrderingWords, Calm, NoAbsence, WordBefore;
    if OperatorPhrase(ts, at).Some? {
      PhraseWords(Word(ts, at), Word(ts, at + 1));
      CalmWords(ts, at, OperatorPhrase(ts, at).value.length);
    } else {
      BareIs(ts, at);
    }
  }

  lemma BareIs(ts: seq<Token>, at: nat)
    requires at >= 1 && (Word(ts, at - 1) == NotWord || Word(ts, at - 1) == IsWord)
    ensures NoAbsence(ts, at, at) && Calm(WordBefore(ts, at, 1))
              && !OrderingWords(WordBefore(ts, at, 2), WordBefore(ts, at, 1))
  {
    hide Word;
  }

  lemma CalmWords(ts: seq<Token>, at: nat, length: nat)
    requires length == 1 || length == 2
    requires Calm(Word(ts, at)) && (length == 2 ==> Calm(Word(ts, at + 1)))
    ensures NoAbsence(ts, at, at + length)
    ensures WordBefore(ts, at + length, 1) == Word(ts, at + length - 1)
    ensures length == 2 ==> WordBefore(ts, at + length, 2) == Word(ts, at)
  {
    hide Word;
  }

  lemma FieldIsNoWord(ts: seq<Token>, at: nat)
    requires Plainly(ts) && Field(ts, at).Done?
    ensures Field(ts, at).at == at + 1 && Word(ts, at) == Other
  {
  }

  lemma OpeningWords(ts: seq<Token>, at: nat)
    requires Plainly(ts) && OpeningOf(ts, at).Done?
    ensures var r := OpeningOf(ts, at);
            && NoAbsence(ts, at, r.at)
            && Word(ts, r.at - 1) == if r.value.negated then NotWord else if r.value.isSeen then IsWord else Other
  {
    hide Field, Plainly, Word;
    FieldIsNoWord(ts, at);
  }

  /** An operand is one word, no keyword that could begin an absence, or `setting` and a name. */
  lemma OperandWords(ts: seq<Token>, at: nat)
    requires Plainly(ts) && OperandOf(ts, at).Done?
    ensures var r := OperandOf(ts, at);
            r.at == (if Word(ts, at) == SettingWord then at + 2 else at + 1)
              && Word(ts, at) != OrWord && Word(ts, at) != IfWord
  {
    hide IntOf, IsNumber, IsQuoted, HasDot;
  }

  /** Nothing an absence could end with stands here. */
  predicate Follows(ts: seq<Token>, at: nat)
  {
    Word(ts, at) != AbsentWord && Word(ts, at) != PresentWord
  }

  lemma AbsencePlace(ts: seq<Token>, at: nat, i: nat)
    requires at <= |ts| && Absence(ts, at).Done? && Follows(ts, Absence(ts, at).at) && at <= i < Absence(ts, at).at
    ensures AbsenceAt(ts, i) <==> i == at && Absence(ts, at).value.Some?
  {
    hide Word;
  }

  lemma SettingName(ts: seq<Token>, at: nat)
    requires at <= |ts| && Absence(ts, at).Done? && Follows(ts, Absence(ts, at).at)
    ensures Follows(ts, at)
  {
    hide Word;
  }

  lemma BeforeOperand(ts: seq<Token>, from: nat, at: nat)
    requires 1 <= from < at && at == if Word(ts, from) == SettingWord then from + 2 else from + 1
    requires Calm(WordBefore(ts, from, 1))
    ensures AfterOrdering(ts, at) <==> OrderingWords(WordBefore(ts, from, 2), WordBefore(ts, from, 1))
  {
    hide Word, OrderingWords;
    assert WordBefore(ts, from, 1) == Word(ts, from - 1);
    assert WordBefore(ts, at, at - from) == Word(ts, from);
    assert WordBefore(ts, at, at - from + 1) == WordBefore(ts, from, 1);
    assert WordBefore(ts, at, at - from + 2) == WordBefore(ts, from, 2);
  }

  /** After an operand that starts at `from`: the one absence of the condition, if there is any. */
  lemma AbsenceWords(ts: seq<Token>, from: nat, at: nat)
    requires from < at <= |ts| && Absence(ts, at).Done? && Follows(ts, Absence(ts, at).at)
    requires at == (if Word(ts, from) == SettingWord then from + 2 else from + 1) && from >= 1
    requires Word(ts, from) != OrWord && Word(ts, from) != IfWord && Calm(WordBefore(ts, from, 1))
    ensures forall i: nat :: from <= i < Absence(ts, at).at ==>
              (AbsenceAt(ts, i) <==> i == at && Absence(ts, at).value.Some?)
    ensures AfterOrdering(ts, at) <==> OrderingWords(WordBefore(ts, from, 2), WordBefore(ts, from, 1))
  {
    hide Word, Absence, AfterOrdering, OrderingWords, WordBefore;
    BeforeOperand(ts, from, at);
    SettingName(ts, at);
    assert !AbsenceAt(ts, from);
    assert at == from + 2 ==> !AbsenceAt(ts, from + 1);
    forall i: nat | at <= i < Absence(ts, at).at
      ensures AbsenceAt(ts, i) <==> i == at && Absence(ts, at).value.Some?
    {
      AbsencePlace(ts, at, i);
    }
  }

  lemma IntervalWords(ts: seq<Token>, at: nat)
    requires Plainly(ts) && IntervalAt(ts, at).Done?
    ensures NoAbsence(ts, at, IntervalAt(ts, at).at)
  {
    hide Field;
    FieldIsNoWord(ts, at);
    FieldIsNoWord(ts, at + 2);
  }

  lemma RestAbsence(ts: seq<Token>, at: nat, field: string, op: Operator, operand: OperandShape)
    requires Plainly(ts) && 1 <= at <= |ts| && ConditionRest(ts, at, field, op, operand).Done?
    requires Calm(WordBefore(ts, at, 1)) && Follows(ts, ConditionRest(ts, at, field, op, operand).at)
    requires IsOrdering(op) <==> OrderingWords(WordBefore(ts, at, 2), WordBefore(ts, at, 1))
    ensures var r := ConditionRest(ts, at, field, op, operand);
            && r.value.operator == op && (Misplaced(ts, at, r.at) <==> r.value.absent.Some? && !IsOrdering(op))
  {
    hide OperandOf, IntervalAt, Absence, OrderingWords, AfterOrdering, AbsenceAt, Plainly, Follows, Calm;
    match operand {
      case NoOperand =>
      case AnInterval => IntervalWords(ts, at);
      case OneOperand =>
        var (side, next) := OperandOf(ts, at).Extract();
        OperandWords(ts, at);
        AbsenceWords(ts, at, next);
        var (absent, after) := Absence(ts, next).Extract();
        AbsenceLength(ts, next);
        assert absent.Some? ==> AbsenceAt(ts, next) && next < after;
    }
  }

  lemma AbsenceLength(ts: seq<Token>, at: nat)
    requires Absence(ts, at).Done?
    ensures Absence(ts, at).at == if Absence(ts, at).value.Some? then at + 2 else at
  {
  }

  /** A condition puts its absence after another operator exactly when its words do. */
  lemma ConditionAbsence(ts: seq<Token>, at: nat)
    requires Plainly(ts) && Condition(ts, at).Done? && Follows(ts, Condition(ts, at).at)
    ensures var r := Condition(ts, at);
            Misplaced(ts, at, r.at) <==> r.value.absent.Some? && !IsOrdering(r.value.operator)
  {
    hide OpeningOf, VerbOf, ConditionRest, Plainly, Follows, Calm, OrderingWords, AfterOrdering, AbsenceAt;
    var (opening, next) := OpeningOf(ts, at).Extract();
    OpeningWords(ts, at);
    var verb := VerbOf(ts, next, opening.isSeen, opening.negated).value;
    VerbWords(ts, next, opening.isSeen, opening.negated);
    RestAbsence(ts, next + verb.length, opening.field, verb.op, verb.operand);
  }

  // ------------------------------------------------------------------ a list of conditions
  predicate SaysAbsent(p: Predicate)
  {
    p.absent.Some? && !IsOrdering(p.operator)
  }

  ghost predicate AnySaysAbsent(ps: seq<Predicate>)
  {
    exists p :: p in ps && SaysAbsent(p)
  }

  lemma OneOrRest(p: Predicate, ps: seq<Predicate>)
    ensures AnySaysAbsent([p] + ps) <==> SaysAbsent(p) || AnySaysAbsent(ps)
  {
    assert p in [p] + ps;
    assert forall q :: q in ps ==> q in [p] + ps;
  }

  lemma AndCombines(ts: seq<Token>, at: nat, next: nat, after: nat, first: Predicate, rest: seq<Predicate>)
    requires at <= next < after && Word(ts, next) == AndWord
    requires Misplaced(ts, at, next) <==> SaysAbsent(first)
    requires Misplaced(ts, next + 1, after) <==> AnySaysAbsent(rest)
    ensures Misplaced(ts, at, after) <==> AnySaysAbsent([first] + rest)
  {
    hide Misplaced, AnySaysAbsent, SaysAbsent, Word;
    AtAWord(ts, next, AndWord);
    Split(ts, at, next, next + 1);
    Split(ts, at, next + 1, after);
    OneOrRest(first, rest);
  }

  lemma {:induction false} ConditionsAbsence(ts: seq<Token>, at: nat)
    requires Plainly(ts) && Conditions(ts, at).Done? && Follows(ts, Conditions(ts, at).at)
    ensures Misplaced(ts, at, Conditions(ts, at).at) <==> AnySaysAbsent(Conditions(ts, at).value)
    decreases |ts| - at
  {
    hide Condition, Plainly, Misplaced, AnySaysAbsent, Word, Follows;
    var (first, next) := Condition(ts, at).Extract();
    if Word(ts, next) == AndWord {
      AndFollows(ts, next);
      ConditionAbsence(ts, at);
      ConditionsAbsence(ts, next + 1);
      var (rest, after) := Conditions(ts, next + 1).Extract();
      AndCombines(ts, at, next, after, first, rest);
    } else {
      ConditionAbsence(ts, at);
      OneOrRest(first, []);
      Nobody();
      assert [first] + [] == [first];
    }
  }

  lemma AndFollows(ts: seq<Token>, at: nat)
    requires Word(ts, at) == AndWord
    ensures Follows(ts, at)
  {
  }

  lemma Nobody()
    ensures !AnySaysAbsent([])
  {
  }

  lemma AtAWord(ts: seq<Token>, at: nat, k: Keyword)
    requires Word(ts, at) == k && k != OrWord && k != IfWord
    ensures !Misplaced(ts, at, at + 1)
  {
  }

  lemma Quiet(ts: seq<Token>, from: nat, to: nat)
    requires NoAbsence(ts, from, to)
    ensures !Misplaced(ts, from, to)
  {
  }

  // ------------------------------------------------------------------ everything else says nothing
  lemma FieldAfterWords(ts: seq<Token>, at: nat, k: Keyword)
    requires k != Other && Calm(k) && Plainly(ts) && FieldAfter(ts, at, k).Done?
    ensures FieldAfter(ts, at, k).at == at + 2 && NoAbsence(ts, at, at + 2)
  {
    hide Field, Plainly, Word, AbsenceAt;
    FieldIsNoWord(ts, at + 1);
    OnePlainWord(ts, at, k);
    OnePlainWord(ts, at + 1, Other);
    Joined(ts, at, at + 1, at + 2);
  }

  lemma Joined(ts: seq<Token>, from: nat, middle: nat, to: nat)
    requires NoAbsence(ts, from, middle) && NoAbsence(ts, middle, to)
    ensures NoAbsence(ts, from, to)
  {
  }

  lemma SourceWords(ts: seq<Token>, at: nat)
    requires at <= |ts| && Source(ts, at).Done?
    ensures NoAbsence(ts, at, Source(ts, at).at)
    ensures Word(ts, at) == FromWord || Source(ts, at).at == at
  {
  }

  lemma SetJoinWords(ts: seq<Token>, at: nat)
    requires at <= |ts| && Plainly(ts) && SetJoin(ts, at).Done?
    ensures NoAbsence(ts, at, SetJoin(ts, at).at)
  {
    hide FieldAfter, AbsenceAt, Plainly, EntityOf;
    FieldAfterWords(ts, at + 1, OfWord);
    OnePlainWord(ts, at, SetWord);
    Joined(ts, at, at + 1, at + 3);
  }

  lemma KeyedJoinParts(ts: seq<Token>, at: nat, kind: Kind, v: Vocabulary)
    requires KeyedJoin(ts, at, kind, v).Done?
    ensures at < |ts| && Source(ts, at + 1).Done?
    ensures var b := FieldAfter(ts, Source(ts, at + 1).at, ByWord);
            b.Done? && FieldAfter(ts, b.at, ToWord).Done?
              && KeyedJoin(ts, at, kind, v).at == FieldAfter(ts, b.at, ToWord).at
  {
    hide FieldAfter, Source, Lower, Word;
  }

  lemma KeyedJoinWords(ts: seq<Token>, at: nat, kind: Kind, v: Vocabulary)
    requires Plainly(ts) && KeyedJoin(ts, at, kind, v).Done?
    ensures NoAbsence(ts, at, KeyedJoin(ts, at, kind, v).at)
  {
    hide KeyedJoin, FieldAfter, Source, AbsenceAt, Plainly, NoAbsence, Follows, Word;
    KeyedJoinParts(ts, at, kind, v);
    var b := Source(ts, at + 1).at;
    SourceWords(ts, at + 1);
    ByFollows(ts, b);
    FromOrBy(ts, at + 1);
    EntityWords(ts, at);
    FieldAfterWords(ts, b, ByWord);
    FieldAfterWords(ts, b + 2, ToWord);
    Joined(ts, at, at + 1, b);
    Joined(ts, at, b, b + 2);
    Joined(ts, at, b + 2, b + 4);
  }

  lemma FromOrBy(ts: seq<Token>, at: nat)
    requires at <= |ts| && Source(ts, at).Done? && Word(ts, Source(ts, at).at) == ByWord
    ensures Follows(ts, at)
  {
  }

  lemma JoinWords(ts: seq<Token>, at: nat, kind: Kind, v: Vocabulary)
    requires Plainly(ts) && Join(ts, at, kind, v).Done?
    ensures NoAbsence(ts, at, Join(ts, at, kind, v).at)
  {
    hide SetJoin, KeyedJoin, NoAbsence, Plainly;
    if Word(ts, at) == TheWord {
      SetJoinWords(ts, at + 1);
      OnePlainWord(ts, at, TheWord);
      Joined(ts, at, at + 1, SetJoin(ts, at + 1).at);
    } else {
      KeyedJoinWords(ts, at, kind, v);
    }
  }

  lemma ByFollows(ts: seq<Token>, at: nat)
    requires FieldAfter(ts, at, ByWord).Done?
    ensures Word(ts, at) == ByWord
  {
  }

  lemma EntityWords(ts: seq<Token>, at: nat)
    requires Follows(ts, at + 1)
    ensures NoAbsence(ts, at, at + 1)
  {
  }

  lemma OnePlainWord(ts: seq<Token>, at: nat, k: Keyword)
    requires Word(ts, at) == k && k != OrWord && k != IfWord
    ensures NoAbsence(ts, at, at + 1)
  {
  }

  lemma {:induction false} JoinListWords(ts: seq<Token>, at: nat, kind: Kind, v: Vocabulary)
    requires Plainly(ts) && JoinList(ts, at, kind, v).Done?
    ensures NoAbsence(ts, at, JoinList(ts, at, kind, v).at)
    decreases |ts| - at
  {
    hide Join, NoAbsence, Plainly, AnotherJoinFollows;
    JoinWords(ts, at, kind, v);
    var next := Join(ts, at, kind, v).at;
    if Word(ts, next) == AndWord && AnotherJoinFollows(ts, next, v) {
      JoinListWords(ts, next + 1, kind, v);
      OnePlainWord(ts, next, AndWord);
      Joined(ts, at, next, next + 1);
      Joined(ts, at, next + 1, JoinList(ts, next + 1, kind, v).at);
    }
  }

  lemma {:induction false} JoinClausesWords(ts: seq<Token>, at: nat, v: Vocabulary)
    requires at <= |ts| && Plainly(ts) && JoinClauses(ts, at, v).Done?
    ensures NoAbsence(ts, at, JoinClauses(ts, at, v).at)
    decreases |ts| - at
  {
    hide JoinList, Plainly;
    if IsJoinWord(Word(ts, at)) {
      var kind := JoinKind(Word(ts, at));
      JoinListWords(ts, at + 1, kind, v);
      var next := JoinList(ts, at + 1, kind, v).at;
      JoinClausesWords(ts, next, v);
      OnePlainWord(ts, at, Word(ts, at));
    }
  }

  lemma {:induction false} FieldListWords(ts: seq<Token>, at: nat)
    requires Plainly(ts) && FieldList(ts, at).Done?
    ensures NoAbsence(ts, at, FieldList(ts, at).at)
    decreases |ts| - at
  {
    hide Field, Plainly;
    FieldIsNoWord(ts, at);
    if Word(ts, at + 1) == AndWord {
      FieldListWords(ts, at + 2);
    }
  }

  lemma WholeIsNoWord(ts: seq<Token>, at: nat)
    requires Plainly(ts) && WholeNumber(ts, at).Done?
    ensures WholeNumber(ts, at).at == at + 1 && Word(ts, at) == Other
  {
    hide NatOf;
  }

  lemma CountWords(ts: seq<Token>, at: nat)
    requires at <= |ts| && Plainly(ts) && CountPer(ts, at).Done?
    ensures NoAbsence(ts, at, CountPer(ts, at).at) && |CountPer(ts, at).value.predicates| == 1
    ensures !CountPer(ts, at).value.predicates[0].absent.Some?
  {
    hide Field, FieldAfter, WholeNumber, Plainly, AbsenceAt;
    WholeIsNoWord(ts, at + 1);
    FieldIsNoWord(ts, at + 2);
    FieldAfterWords(ts, at + 3, PerWord);
    OnePlainWord(ts, at, MostWord);
    OnePlainWord(ts, at + 1, Other);
    OnePlainWord(ts, at + 2, Other);
    Joined(ts, at, at + 1, at + 2);
    Joined(ts, at, at + 2, at + 3);
    Joined(ts, at, at + 3, at + 5);
  }

  lemma OverlappingWords(ts: seq<Token>, at: nat)
    requires Plainly(ts) && Overlapping(ts, at).Done?
    ensures NoAbsence(ts, at, Overlapping(ts, at).at) && |Overlapping(ts, at).value.predicates| == 1
    ensures !Overlapping(ts, at).value.predicates[0].absent.Some?
  {
    hide Field, FieldAfter, IntervalAt, Plainly, AbsenceAt;
    FieldIsNoWord(ts, at);
    var e := IntervalAt(ts, at + 2).at;
    IntervalWords(ts, at + 2);
    FieldAfterWords(ts, e, PerWord);
    OnePlainWord(ts, at, Other);
    OnePlainWord(ts, at + 1, FromWord);
    Joined(ts, at, at + 1, at + 2);
    Joined(ts, at, at + 2, e);
    Joined(ts, at, e, e + 2);
  }

  lemma OverlapWords(ts: seq<Token>, at: nat)
    requires at <= |ts| && Plainly(ts) && OverlapPer(ts, at).Done?
    ensures NoAbsence(ts, at, OverlapPer(ts, at).at) && |OverlapPer(ts, at).value.predicates| == 1
    ensures !OverlapPer(ts, at).value.predicates[0].absent.Some?
  {
    hide Overlapping, Plainly, AbsenceAt, NoAbsence;
    OverlappingWords(ts, at + 2);
    OnePlainWord(ts, at, Word(ts, at));
    OnePlainWord(ts, at + 1, OverlappingWord);
    Joined(ts, at, at + 1, at + 2);
    Joined(ts, at, at + 2, Overlapping(ts, at + 2).at);
  }

  lemma OnlyOne(p: Predicate)
    requires p.absent.None?
    ensures !AnySaysAbsent([p])
  {
  }

  lemma AggregatedAbsence(ts: seq<Token>, at: nat)
    requires at <= |ts| && Plainly(ts) && Aggregated(ts, at).Done?
    ensures !Misplaced(ts, at, Aggregated(ts, at).at) && !AnySaysAbsent(Aggregated(ts, at).value.predicates)
  {
    hide CountPer, OverlapPer, AnySaysAbsent;
    var a := Aggregated(ts, at);
    if Word(ts, at) == AtWord {
      CountWords(ts, at + 1);
    } else {
      OverlapWords(ts, at);
    }
    OnlyOne(a.value.predicates[0]);
    assert a.value.predicates == [a.value.predicates[0]];
  }

  lemma ModalWords(ts: seq<Token>, at: nat, quantifier: Keyword)
    requires at <= |ts| && ModalOf(ts, at, quantifier).Done?
    ensures NoAbsence(ts, at, ModalOf(ts, at, quantifier).at)
    ensures Word(ts, at) == MustWord || Word(ts, at) == MayWord
  {
    hide Word;
  }

  lemma AssertionAbsence(ts: seq<Token>, at: nat, quantifier: Keyword)
    requires at <= |ts| && Plainly(ts) && AssertionOf(ts, at, quantifier).Done?
    requires Follows(ts, AssertionOf(ts, at, quantifier).at)
    ensures var r := AssertionOf(ts, at, quantifier);
            Misplaced(ts, at, r.at) <==> AnySaysAbsent(r.value.predicates)
  {
    hide ModalOf, Conditions, Aggregated, AnySaysAbsent, Misplaced, Plainly;
    var (modal, next) := ModalOf(ts, at, quantifier).Extract();
    var r := AssertionOf(ts, at, quantifier);
    ModalWords(ts, at, quantifier);
    Quiet(ts, at, next);
    Split(ts, at, next, r.at);
    if Word(ts, next) == AtWord || Word(ts, next) == NoWord {
      AggregatedAbsence(ts, next);
    } else {
      ConditionsAbsence(ts, next);
    }
  }

  lemma ScopeAbsence(ts: seq<Token>, at: nat)
    requires at <= |ts| && Plainly(ts) && Scope(ts, at).Done? && Follows(ts, Scope(ts, at).at)
    ensures Misplaced(ts, at, Scope(ts, at).at) <==> AnySaysAbsent(Scope(ts, at).value)
    ensures Word(ts, at) == WhereWord || Scope(ts, at).at == at
  {
    hide Conditions, Plainly;
    if Word(ts, at) == WhereWord {
      ConditionsAbsence(ts, at + 1);
      AtAWord(ts, at, WhereWord);
      Split(ts, at, at + 1, Conditions(ts, at + 1).at);
    }
  }

  lemma ExceptionsAbsence(ts: seq<Token>, at: nat)
    requires at <= |ts| && Plainly(ts) && Exceptions(ts, at).Done? && Follows(ts, Exceptions(ts, at).at)
    ensures Misplaced(ts, at, Exceptions(ts, at).at) <==> AnySaysAbsent(Exceptions(ts, at).value)
    ensures Word(ts, at) == ExceptWord || Word(ts, at) == UnlessWord || Exceptions(ts, at).at == at
  {
    hide Conditions, Plainly, Misplaced;
    if Word(ts, at) == ExceptWord {
      ConditionsAbsence(ts, at + 2);
      AtAWord(ts, at, ExceptWord);
      AtAWord(ts, at + 1, WhereWord);
      Split(ts, at, at + 1, at + 2);
      Split(ts, at, at + 2, Conditions(ts, at + 2).at);
    } else if Word(ts, at) == UnlessWord {
      ConditionsAbsence(ts, at + 1);
      AtAWord(ts, at, UnlessWord);
      Split(ts, at, at + 1, Conditions(ts, at + 1).at);
    } else {
      Nobody();
      Quiet(ts, at, at);
    }
  }

  lemma ShowingWords(ts: seq<Token>, at: nat)
    requires at <= |ts| && Plainly(ts) && Showing(ts, at).Done?
    ensures NoAbsence(ts, at, Showing(ts, at).at)
    ensures Word(ts, at) == ShowingWord || Showing(ts, at).at == at
  {
    hide FieldList, Plainly;
    if Word(ts, at) == ShowingWord {
      FieldListWords(ts, at + 1);
      OnePlainWord(ts, at, ShowingWord);
      Joined(ts, at, at + 1, FieldList(ts, at + 1).at);
    }
  }

  lemma JoinsWords(ts: seq<Token>, at: nat, v: Vocabulary)
    requires at <= |ts| && Plainly(ts) && Joins(ts, at, v).Done?
    ensures NoAbsence(ts, at, Joins(ts, at, v).at)
    ensures IsJoinWord(Word(ts, at)) || Joins(ts, at, v).at == at
  {
    hide JoinList, Plainly, NoAbsence;
    JoinClausesWords(ts, at, v);
  }

  lemma AllTogether(a: seq<Predicate>, b: seq<Predicate>, c: seq<Predicate>)
    ensures AnySaysAbsent(a + b + c) <==> AnySaysAbsent(a) || AnySaysAbsent(b) || AnySaysAbsent(c)
  {
    assert forall p :: p in a + b + c <==> p in a || p in b || p in c;
  }

  lemma EndOfTokens(ts: seq<Token>, at: nat)
    requires at >= |ts| || Word(ts, at) in {MustWord, MayWord, WhereWord, ExceptWord, UnlessWord, JoiningWord,
               CollectingWord, ShowingWord}
    ensures Follows(ts, at)
  {
  }

  lemma HeadWords(ts: seq<Token>, b: nat)
    requires b >= 2 && NoAbsence(ts, 2, b) && Follows(ts, 2) && IsQuantifier(Word(ts, 0))
    ensures !Misplaced(ts, 0, b)
  {
    hide AbsenceAt, Word, Misplaced;
    EntityWords(ts, 1);
    OnePlainWord(ts, 0, Word(ts, 0));
    Joined(ts, 0, 1, 2);
    Joined(ts, 0, 2, b);
    Quiet(ts, 0, b);
  }

  lemma FiveParts(ts: seq<Token>, b: nat, c: nat, d: nat, e: nat, to: nat)
    requires b <= c <= d <= e <= to && !Misplaced(ts, 0, b) && !Misplaced(ts, e, to)
    ensures Misplaced(ts, 0, to) <==> Misplaced(ts, b, c) || Misplaced(ts, c, d) || Misplaced(ts, d, e)
  {
    hide Misplaced;
    Split(ts, 0, b, c);
    Split(ts, 0, c, d);
    Split(ts, 0, d, e);
    Split(ts, 0, e, to);
  }

  /** The clauses after the joins, and what follows each. */
  lemma ClausesAbsence(ts: seq<Token>, b: nat, quantifier: Keyword)
    requires b <= |ts| && Plainly(ts) && Scope(ts, b).Done? && Exceptions(ts, Scope(ts, b).at).Done?
    requires AssertionOf(ts, Exceptions(ts, Scope(ts, b).at).at, quantifier).Done?
    requires Follows(ts, AssertionOf(ts, Exceptions(ts, Scope(ts, b).at).at, quantifier).at)
    ensures Follows(ts, b)
    ensures var scope := Scope(ts, b);
            var exceptions := Exceptions(ts, scope.at);
            var assertion := AssertionOf(ts, exceptions.at, quantifier);
            && (Misplaced(ts, b, scope.at) <==> AnySaysAbsent(scope.value))
            && (Misplaced(ts, scope.at, exceptions.at) <==> AnySaysAbsent(exceptions.value))
            && (Misplaced(ts, exceptions.at, assertion.at) <==> AnySaysAbsent(assertion.value.predicates))
  {
    hide Scope, Exceptions, AssertionOf, Misplaced, AnySaysAbsent, Plainly, Follows, Word;
    var c := Scope(ts, b).at;
    var d := Exceptions(ts, c).at;
    AssertionAbsence(ts, d, quantifier);
    StartsWithModal(ts, d, quantifier);
    EndOfTokens(ts, d);
    ExceptionsAbsence(ts, c);
    EndOfTokens(ts, c);
    ScopeAbsence(ts, b);
    EndOfTokens(ts, b);
  }

  /** Where a whole sentence puts its absences. */
  lemma SentenceAbsence(ts: seq<Token>, v: Vocabulary)
    requires Plainly(ts) && Parse(ts, v).Done?
    ensures Misplaced(ts, 0, |ts|) <==> AnySaysAbsent(AllPredicates(Parse(ts, v).value.rule))
  {
    hide Joins, Scope, Exceptions, AssertionOf, Showing, Misplaced, AnySaysAbsent, Plainly, Follows, NoAbsence, Word,
      Lower;
    var (references, b) := Joins(ts, 2, v).Extract();
    var (scope, c) := Scope(ts, b).Extract();
    var (exceptions, d) := Exceptions(ts, c).Extract();
    var (assertion, e) := AssertionOf(ts, d, Word(ts, 0)).Extract();
    ShowingWords(ts, e);
    EndOfTokens(ts, e);
    ClausesAbsence(ts, b, Word(ts, 0));
    JoinsWords(ts, 2, v);
    EndOfJoins(ts, 2);
    HeadWords(ts, b);
    Quiet(ts, e, |ts|);
    FiveParts(ts, b, c, d, e, |ts|);
    AllTogether(scope, exceptions, assertion.predicates);
  }

  lemma EndOfJoins(ts: seq<Token>, at: nat)
    ensures IsJoinWord(Word(ts, at)) ==> Follows(ts, at)
  {
  }

  lemma StartsWithModal(ts: seq<Token>, at: nat, quantifier: Keyword)
    requires at <= |ts| && AssertionOf(ts, at, quantifier).Done?
    ensures Word(ts, at) == MustWord || Word(ts, at) == MayWord
  {
    hide Required;
    ModalWords(ts, at, quantifier);
  }

  // ------------------------------------------------------------------ what check 9 makes of sentences
  /** Every absence phrase of the sentence follows an ordering phrase and its operand. */
  ghost predicate WellPlaced(texts: seq<string>)
  {
    !Misplaced(Read(texts), 0, |texts|)
  }

  /** Over all token sequences: of what the parser accepts, check 9 has nothing to say of the
      operators exactly when `or absent` and `if present` stand only after an ordering. */
  lemma AbsenceIsPlacedIff(texts: seq<string>, v: Vocabulary)
    requires Parse(Read(texts), v).Done?
    ensures WellPlaced(texts) <==>
              forall p :: p in AllPredicates(Parse(Read(texts), v).value.rule) && p.absent.Some? ==>
                IsOrdering(p.operator)
  {
    hide Parse, Misplaced, KeywordOf;
    ReadIsPlain(texts);
    SentenceAbsence(Read(texts), v);
  }

  /** So an accepted sentence, with the evidence derived from it, passes the structural checks exactly
      when its absences stand after orderings, of fields whose absence is a fact. */
  lemma AcceptedPassesIff(texts: seq<string>, v: Vocabulary, gaps: set<string>)
    requires Parse(Read(texts), v).Done?
    ensures var l := Parse(Read(texts), v).value;
            Passes(l.rule, (set n | n in Once(NamesInOrder(l))), gaps) <==>
              WellPlaced(texts) && forall p :: p in AllPredicates(l.rule) && p.absent.Some? ==> p.field !in gaps
  {
    hide Parse, WellPlaced, ReferencedFields, NamesInOrder, SoundRule, KeywordOf;
    AcceptedPassesChecks(texts, v);
    AbsenceIsPlacedIff(texts, v);
  }

  /** A rule that says it of another operator can always be written down: its sentence parses to it,
      and check 9 refuses what was parsed, whatever the registry holds. */
  lemma AbsentAnywhere(l: Logic, v: Vocabulary, p: Predicate, gaps: set<string>)
    requires WFLogic(l, v, LexableText())
    requires p in AllPredicates(l.rule) && p.absent.Some? && !IsOrdering(p.operator)
    ensures Compile(Write(l) + ".", v) == Done(l, |Print(l)|) && !WellPlaced(TokensOf(Write(l) + "."))
    ensures exists q :: q in AllPredicates(l.rule) && !AbsentSound(q, gaps)
  {
    hide WFLogic, Write, Print, Parse, Misplaced, TokensOf;
    CompileUndoesWrite(l, v);
    AbsenceIsPlacedIff(TokensOf(Write(l) + "."), v);
  }

  const AMOUNT := "stay.amount"
  const SAID := Plain(AMOUNT, Equals).(value := Some(WholeLiteral(0)), absent := Some(true))
  const SAYING := Logic(Rule("stay", [], [], [], Assertion(AllOf, None, [SAID])), [])

  const SAID_PIECES := [Key(EveryWord), Name("stay"), Key(MustWord), Key(HaveWord), Text(AMOUNT), Key(IsWord),
                        Text("0"), Key(OrWord), Key(AbsentWord)]

  lemma SayingIsWellFormed(v: Vocabulary)
    requires "stay" in v.subjects
    ensures WFLogic(SAYING, v, LexableText())
  {
    assert AMOUNT[4] == '.' && HasDot(AMOUNT);
    assert Lower("stay") == "stay";
  }

  lemma SayingInPieces()
    ensures Print(SAYING) == SAID_PIECES
  {
    hide HasDot, Lexable, Spelling, AMOUNT;
    assert ConditionTokens(SAID) == [Text(AMOUNT), Key(IsWord), Text("0"), Key(OrWord), Key(AbsentWord)];
    assert ConditionsTokens([SAID]) == ConditionTokens(SAID);
    assert AssertionTokens(SAYING.rule.assertion) == [Key(MustWord), Key(HaveWord)] + ConditionTokens(SAID);
  }

  /** "Every stay must have stay.amount is 0 or absent.": the parser takes it, check 9 refuses it. */
  lemma SaidAbsent(v: Vocabulary, gaps: set<string>)
    requires "stay" in v.subjects
    ensures Compile(Write(SAYING) + ".", v) == Done(SAYING, |SAID_PIECES|) && Print(SAYING) == SAID_PIECES
    ensures SAYING.rule.assertion.predicates == [SAID] && !AbsentSound(SAID, gaps)
  {
    hide Write, Compile, WFLogic, Print, WellPlaced, TokensOf;
    SayingIsWellFormed(v);
    SayingInPieces();
    assert AllPredicates(SAYING.rule) == [SAID];
    AbsentAnywhere(SAYING, v, SAID, gaps);
  }
}
