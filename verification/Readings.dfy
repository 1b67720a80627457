/** The parser reads exactly the sentences there are trees for, and each as the rule its tree means
    (hotelcontrols/compiler/grammar.py). */
module Readings {
  import opened Basics
  import opened Texts
  import opened Rules
  import opened Tokens
  import opened Keywords
  import opened Grammar
  import opened Absences
  import opened Spellings

  // ------------------------------------------------------------------ tokens in their place
  /** These tokens stand here. */
  predicate Here(ts: seq<Token>, at: nat, s: seq<Token>)
  {
    at + |s| <= |ts| && ts[at..at + |s|] == s
  }

  lemma Parts(ts: seq<Token>, at: nat, s: seq<Token>, rest: seq<Token>)
    requires Here(ts, at, s + rest)
    ensures Here(ts, at, s) && Here(ts, at + |s|, rest)
  {
    assert ts[at..at + |s| + |rest|] == s + rest;
    assert ts[at..at + |s|] == (s + rest)[..|s|] == s;
    assert ts[at + |s|..at + |s| + |rest|] == (s + rest)[|s|..] == rest;
  }

  lemma Each(ts: seq<Token>, at: nat, s: seq<Token>)
    requires Here(ts, at, s)
    ensures forall i: nat {:trigger s[i]} :: i < |s| ==> ts[at + i] == s[i] && Word(ts, at + i) == s[i].word
  {
    forall i: nat {:trigger s[i]} | i < |s| ensures ts[at + i] == s[i] {
      assert ts[at..at + |s|][i] == s[i];
    }
  }

  lemma FieldHere(ts: seq<Token>, at: nat)
    requires Plainly(ts) && at < |ts|
    ensures Field(ts, at) == if HasDot(ts[at].text) then Done(ts[at].text, at + 1) else Refused
    ensures HasDot(ts[at].text) ==> Word(ts, at) == Other
  {
  }

  // ------------------------------------------------------------------ operators
  lemma TwoWordsArePhrase(first: Keyword, second: Keyword)
    requires TwoWordVerb(first, second).Some?
    ensures var op := TwoWordVerb(first, second).value;
            PhraseFor(first, second) == Some(Phrase(op, Opposite(op), OperandKind(op), 2))
  {
  }

  /** An operator said in one word, as a phrase. */
  function OneWordPhrase(op: Operator): Option<Phrase>
  {
    Some(Phrase(op, Opposite(op), OperandKind(op), 1))
  }

  lemma PresencePhrases(second: Keyword)
    ensures OneWordVerb(ExistsWord) == OneWordVerb(PresentWord) == Some(Exists)
    ensures PhraseFor(ExistsWord, second) == PhraseFor(PresentWord, second) == OneWordPhrase(Exists)
  {
  }

  lemma MissingPhrase(second: Keyword)
    ensures OneWordVerb(MissingWord) == Some(NotExists) && PhraseFor(MissingWord, second) == OneWordPhrase(NotExists)
  {
  }

  lemma MatchingPhrases(second: Keyword)
    ensures OneWordVerb(MatchingWord) == OneWordVerb(MatchesWord) == Some(MatchesIgnoreCase)
    ensures PhraseFor(MatchingWord, second) == PhraseFor(MatchesWord, second) == OneWordPhrase(MatchesIgnoreCase)
  {
  }

  lemma WithinPhrase(second: Keyword)
    ensures OneWordVerb(WithinWord) == Some(Within) && PhraseFor(WithinWord, second) == OneWordPhrase(Within)
  {
  }

  lemma ResolvedPhrase(second: Keyword)
    ensures OneWordVerb(ResolvedWord) == Some(ReferenceExists)
    ensures PhraseFor(ResolvedWord, second) == OneWordPhrase(ReferenceExists)
  {
  }

  lemma UnresolvedPhrase(second: Keyword)
    ensures OneWordVerb(UnresolvedWord) == Some(ReferenceMissing)
    ensures PhraseFor(UnresolvedWord, second) == OneWordPhrase(ReferenceMissing)
  {
  }

  lemma OneWordVerbs(w: Keyword)
    requires OneWordVerb(w).Some?
    ensures || w == ExistsWord || w == PresentWord || w == MissingWord || w == MatchingWord || w == MatchesWord
            || w == WithinWord || w == ResolvedWord || w == UnresolvedWord
  {
  }

  lemma OneWordIsPhrase(first: Keyword, second: Keyword)
    requires OneWordVerb(first).Some?
    ensures PhraseFor(first, second) == OneWordPhrase(OneWordVerb(first).value)
  {
    hide PhraseFor, OneWordPhrase, OneWordVerb;
    OneWordVerbs(first);
    if first == ExistsWord || first == PresentWord {
      PresencePhrases(second);
    } else if first == MissingWord {
      MissingPhrase(second);
    } else if first == MatchingWord || first == MatchesWord {
      MatchingPhrases(second);
    } else if first == WithinWord {
      WithinPhrase(second);
    } else if first == ResolvedWord {
      ResolvedPhrase(second);
    } else {
      UnresolvedPhrase(second);
    }
  }

  lemma OtherWordsAreNoPhrase(first: Keyword, second: Keyword)
    requires TwoWordVerb(first, second).None? && OneWordVerb(first).None?
    ensures PhraseFor(first, second).None?
  {
  }

  /** The phrases that start here, by the operators they say: two words before one. */
  lemma PhraseMeans(first: Keyword, second: Keyword)
    ensures PhraseFor(first, second) ==
            match TwoWordVerb(first, second)
            case Some(op) => Some(Phrase(op, Opposite(op), OperandKind(op), 2))
            case None =>
              match OneWordVerb(first)
              case Some(op) => Some(Phrase(op, Opposite(op), OperandKind(op), 1))
              case None => None
  {
    hide PhraseFor, OneWordVerb, TwoWordVerb, Opposite, OperandKind;
    if TwoWordVerb(first, second).Some? {
      TwoWordsArePhrase(first, second);
    } else if OneWordVerb(first).Some? {
      OneWordIsPhrase(first, second);
    } else {
      OtherWordsAreNoPhrase(first, second);
    }
  }

  lemma VerbWordsAreNoOthers(first: Keyword, second: Keyword)
    ensures OneWordVerb(first).Some? ==> TwoWordVerb(first, second).None?
    ensures OneWordVerb(first).Some? || TwoWordVerb(first, second).Some? ==>
              first !in {Other, NotWord, IsWord, TrueWord, FalseWord, SettingWord}
  {
  }

  /** Whether a place follows `is`, `not` or both. */
  function After(ws: seq<Keyword>): (r: (bool, bool, nat))
    ensures r.2 <= |ws|
  {
    var isSeen := ws != [] && ws[0] == IsWord;
    var i := if isSeen then 1 else 0;
    var negated := i < |ws| && ws[i] == NotWord;
    (isSeen, negated, if negated then i + 1 else i)
  }

  lemma AfterHere(ts: seq<Token>, at: nat, s: seq<Token>)
    requires Here(ts, at, s) && VerbMeans(Words(s)).Some?
    requires OperandKind(VerbMeans(Words(s)).value).OneOperand? ==>
               Word(ts, at + |s|) in {Other, TrueWord, FalseWord, SettingWord}
    ensures var (isSeen, negated, k) := After(Words(s));
            && (Word(ts, at) == IsWord <==> isSeen)
            && (Word(ts, if isSeen then at + 1 else at) == NotWord <==> negated)
  {
    hide PhraseFor, OneWordVerb, TwoWordVerb;
    Each(ts, at, s);
    assert s != [] ==> Words(s)[0] == s[0].word;
    assert |s| > 1 ==> Words(s)[1] == s[1].word;
  }

  lemma EqualityHere(ts: seq<Token>, at: nat, s: seq<Token>)
    requires Here(ts, at, s) && VerbMeans(Words(s)).Some? && After(Words(s)).2 == |s|
    requires OperandKind(VerbMeans(Words(s)).value).OneOperand? ==>
               Word(ts, at + |s|) in {Other, TrueWord, FalseWord, SettingWord}
    ensures var (isSeen, negated, k) := After(Words(s));
            VerbOf(ts, at + k, isSeen, negated)
            == Some(Verb(VerbMeans(Words(s)).value, OperandKind(VerbMeans(Words(s)).value), 0))
  {
    hide PhraseFor, OneWordVerb, TwoWordVerb;
    PhraseMeans(Word(ts, at + |s|), Word(ts, at + |s| + 1));
    VerbWordsAreNoOthers(Word(ts, at + |s|), Word(ts, at + |s| + 1));
  }

  lemma OperatorHere(ts: seq<Token>, at: nat, s: seq<Token>)
    requires Here(ts, at, s) && VerbMeans(Words(s)).Some? && After(Words(s)).2 < |s|
    ensures var (isSeen, negated, k) := After(Words(s));
            VerbOf(ts, at + k, isSeen, negated)
            == Some(Verb(VerbMeans(Words(s)).value, OperandKind(VerbMeans(Words(s)).value), |s| - k))
  {
    hide PhraseFor, OneWordVerb, TwoWordVerb;
    Each(ts, at, s);
    var k := After(Words(s)).2;
    PhraseMeans(Word(ts, at + k), Word(ts, at + k + 1));
    VerbWordsAreNoOthers(Word(ts, at + k), Word(ts, at + k + 1));
  }

  /** An operator's words, read where they stand. */
  lemma VerbHere(ts: seq<Token>, at: nat, s: seq<Token>)
    requires Here(ts, at, s) && VerbMeans(Words(s)).Some?
    requires OperandKind(VerbMeans(Words(s)).value).OneOperand? ==>
               Word(ts, at + |s|) in {Other, TrueWord, FalseWord, SettingWord}
    ensures var (isSeen, negated, k) := After(Words(s));
            && (Word(ts, at) == IsWord <==> isSeen)
            && (Word(ts, if isSeen then at + 1 else at) == NotWord <==> negated)
            && VerbOf(ts, at + k, isSeen, negated)
               == Some(Verb(VerbMeans(Words(s)).value, OperandKind(VerbMeans(Words(s)).value), |s| - k))
  {
    hide VerbMeans, VerbOf;
    AfterHere(ts, at, s);
    var (isSeen, negated, k) := After(Words(s));
    if k == |s| {
      EqualityHere(ts, at, s);
    } else {
      OperatorHere(ts, at, s);
    }
  }

  lemma VerbSaid(ts: seq<Token>, at: nat, isSeen: bool, negated: bool, k: nat)
    requires k == (if isSeen then 1 else 0) + (if negated then 1 else 0) && at + k <= |ts|
    requires Word(ts, at) == IsWord <==> isSeen
    requires Word(ts, if isSeen then at + 1 else at) == NotWord <==> negated
    requires VerbOf(ts, at + k, isSeen, negated).Some?
    ensures var v := VerbOf(ts, at + k, isSeen, negated).value;
            VerbMeans(Words(ts[at..at + k + v.length])) == Some(v.op) && v.operand == OperandKind(v.op)
  {
    hide PhraseFor, OneWordVerb, TwoWordVerb;
    var v := VerbOf(ts, at + k, isSeen, negated).value;
    PhraseMeans(Word(ts, at + k), Word(ts, at + k + 1));
    VerbWordsAreNoOthers(Word(ts, at + k), Word(ts, at + k + 1));
    var ws := Words(ts[at..at + k + v.length]);
    assert forall i :: 0 <= i < |ws| ==> ws[i] == Word(ts, at + i);
    if OperatorPhrase(ts, at + k).None? {
      assert ws == if negated then [IsWord, NotWord] else [IsWord];
    } else {
      var core := ws[k..];
      assert |core| == v.length && core[0] == Word(ts, at + k) && (v.length == 2 ==> core[1] == Word(ts, at + k + 1));
      assert isSeen ==> ws[1..] == if negated then [NotWord] + core else core;
      assert !isSeen ==> ws == if negated then [NotWord] + core else core;
      assert negated ==> ([NotWord] + core)[1..] == core;
    }
  }

  // ------------------------------------------------------------------ right-hand sides
  lemma OperandHere(ts: seq<Token>, at: nat, s: seq<Token>)
    requires Plainly(ts) && Here(ts, at, s) && OperandMeans(s).Some?
    ensures OperandOf(ts, at) == Done(OperandMeans(s).value, at + |s|)
    ensures Word(ts, at) in {Other, TrueWord, FalseWord, SettingWord}
  {
    hide IsQuoted, IsNumber, HasDot;
    Each(ts, at, s);
    assert ts[at] == s[0];
  }

  lemma OperandSaid(ts: seq<Token>, at: nat)
    requires Plainly(ts) && OperandOf(ts, at).Done?
    ensures OperandMeans(ts[at..OperandOf(ts, at).at]) == Some(OperandOf(ts, at).value)
  {
    hide IsQuoted, IsNumber, HasDot;
    var s := ts[at..OperandOf(ts, at).at];
    assert s[0] == ts[at];
  }

  lemma AbsenceHere(ts: seq<Token>, at: nat, s: seq<Token>)
    requires Here(ts, at, s) && AbsenceMeans(Words(s)).Some? && Word(ts, at + |s|) !in {OrWord, IfWord}
    ensures Absence(ts, at) == Done(AbsenceMeans(Words(s)).value, at + |s|)
  {
    Each(ts, at, s);
    var ws := Words(s);
    assert ws != [] ==> ws[0] == s[0].word && ws[1] == s[1].word;
  }

  lemma AbsenceSaid(ts: seq<Token>, at: nat)
    requires at <= |ts| && Absence(ts, at).Done?
    ensures AbsenceMeans(Words(ts[at..Absence(ts, at).at])) == Some(Absence(ts, at).value)
  {
    var ws := Words(ts[at..Absence(ts, at).at]);
    assert ws == if Absence(ts, at).value.None? then [] else [Word(ts, at), Word(ts, at + 1)];
  }

  lemma IntervalHere(ts: seq<Token>, at: nat, s: seq<Token>)
    requires Plainly(ts) && Here(ts, at, s) && IntervalMeans(s).Some?
    ensures IntervalAt(ts, at) == Done(IntervalMeans(s).value, at + 3)
  {
    Each(ts, at, s);
    assert ts[at] == s[0] && ts[at + 1] == s[1] && ts[at + 2] == s[2];
    FieldHere(ts, at);
    FieldHere(ts, at + 2);
  }

  lemma IntervalSaid(ts: seq<Token>, at: nat)
    requires Plainly(ts) && IntervalAt(ts, at).Done?
    ensures IntervalAt(ts, at).at == at + 3 && IntervalMeans(ts[at..at + 3]) == Some(IntervalAt(ts, at).value)
  {
    FieldHere(ts, at);
    FieldHere(ts, at + 2);
  }

  // ------------------------------------------------------------------ conditions
  lemma SidedHere(ts: seq<Token>, at: nat, c: CondTree, op: Operator)
    requires Plainly(ts) && Here(ts, at, c.operand) && Here(ts, at + |c.operand|, c.absence) && Sided(c, op).Some?
    requires OperandKind(op).OneOperand? && Word(ts, at + |c.operand| + |c.absence|) !in {OrWord, IfWord}
    ensures ConditionRest(ts, at, c.field.text, op, OneOperand)
              == Done(Sided(c, op).value, at + |c.operand| + |c.absence|)
    ensures Word(ts, at) in {Other, TrueWord, FalseWord, SettingWord}
  {
    hide Plainly, Here, Words, Word, OperandOf, Absence, OperandMeans, AbsenceMeans;
    OperandHere(ts, at, c.operand);
    AbsenceHere(ts, at + |c.operand|, c.absence);
  }

  lemma RestHere(ts: seq<Token>, at: nat, c: CondTree)
    requires Plainly(ts) && Here(ts, at, c.operand) && Here(ts, at + |c.operand|, c.absence) && CondMeans(c).Some?
    requires Word(ts, at + |c.operand| + |c.absence|) !in {OrWord, IfWord}
    ensures var op := VerbMeans(Words(c.verb)).value;
            && ConditionRest(ts, at, c.field.text, op, OperandKind(op))
               == Done(CondMeans(c).value, at + |c.operand| + |c.absence|)
            && (OperandKind(op).OneOperand? ==> Word(ts, at) in {Other, TrueWord, FalseWord, SettingWord})
  {
    hide Plainly, Here, Words, Word, VerbMeans, Sided, IntervalMeans, IntervalAt, OperandKind;
    var op := VerbMeans(Words(c.verb)).value;
    match OperandKind(op) {
      case NoOperand =>
      case AnInterval =>
        IntervalHere(ts, at, c.operand);
        ThreeTokens(c.operand);
      case OneOperand => SidedHere(ts, at, c, op);
    }
  }

  lemma ThreeTokens(s: seq<Token>)
    requires IntervalMeans(s).Some?
    ensures |s| == 3
  {
  }

  lemma ConditionHere(ts: seq<Token>, at: nat, c: CondTree)
    requires Plainly(ts) && Here(ts, at, CondTokens(c)) && CondMeans(c).Some?
    requires Word(ts, at + |CondTokens(c)|) !in {OrWord, IfWord}
    ensures Condition(ts, at) == Done(CondMeans(c).value, at + |CondTokens(c)|)
    ensures Word(ts, at) == Other
  {
    hide Field, Plainly, Here, Words, VerbMeans, VerbOf, ConditionRest, OperandKind, Sided, CondTokens;
    CondStands(ts, at, c);
    FieldHere(ts, at);
    RestHere(ts, at + 1 + |c.verb|, c);
    VerbHere(ts, at + 1, c.verb);
  }

  lemma CondStands(ts: seq<Token>, at: nat, c: CondTree)
    requires Here(ts, at, CondTokens(c))
    ensures |CondTokens(c)| == 1 + |c.verb| + |c.operand| + |c.absence|
    ensures at < |ts| && ts[at] == c.field && Here(ts, at + 1, c.verb) && Here(ts, at + 1 + |c.verb|, c.operand)
    ensures Here(ts, at + 1 + |c.verb| + |c.operand|, c.absence)
  {
    Parts(ts, at, [c.field] + c.verb + c.operand, c.absence);
    Parts(ts, at, [c.field] + c.verb, c.operand);
    Parts(ts, at, [c.field], c.verb);
    Each(ts, at, [c.field]);
    assert [c.field][0] == c.field;
  }

  /** A condition the parser takes, as the tree of its tokens. */
  lemma ConditionSaid(ts: seq<Token>, at: nat) returns (c: CondTree)
    requires Plainly(ts) && Condition(ts, at).Done?
    ensures CondTokens(c) == ts[at..Condition(ts, at).at] && CondMeans(c) == Some(Condition(ts, at).value)
  {
    hide OpeningOf, Plainly, Words, VerbMeans, VerbOf, ConditionRest, OperandKind, CondTokens, CondMeans, Word;
    var opening := OpeningOf(ts, at).value;
    var next := OpeningOf(ts, at).at;
    OpeningSaid(ts, at);
    VerbSaid(ts, at + 1, opening.isSeen, opening.negated, next - (at + 1));
    var v := VerbOf(ts, next, opening.isSeen, opening.negated).value;
    c := RestSaid(ts, at, next + v.length, v.op);
    CondSlices(ts, at, next + v.length, Condition(ts, at).at, c);
  }

  lemma OpeningSaid(ts: seq<Token>, at: nat)
    requires Plainly(ts) && OpeningOf(ts, at).Done?
    ensures var opening := OpeningOf(ts, at).value;
            && at < |ts| && HasDot(ts[at].text) && opening.field == ts[at].text
            && OpeningOf(ts, at).at == at + 1
               + (if opening.isSeen then 1 else 0) + (if opening.negated then 1 else 0) <= |ts|
            && (Word(ts, at + 1) == IsWord <==> opening.isSeen)
            && (Word(ts, if opening.isSeen then at + 2 else at + 1) == NotWord <==> opening.negated)
  {
    hide Field, Plainly;
    FieldHere(ts, at);
  }

  lemma CondSlices(ts: seq<Token>, at: nat, sideAt: nat, end: nat, c: CondTree)
    requires at < sideAt <= end <= |ts| && c.field == ts[at] && c.verb == ts[at + 1..sideAt]
    requires c.operand + c.absence == ts[sideAt..end]
    ensures CondTokens(c) == ts[at..end]
  {
    assert ts[at..end] == [ts[at]] + ts[at + 1..sideAt] + ts[sideAt..end];
    assert CondTokens(c) == [c.field] + c.verb + (c.operand + c.absence);
  }

  lemma RestSaid(ts: seq<Token>, at: nat, sideAt: nat, op: Operator) returns (c: CondTree)
    requires Plainly(ts) && at < sideAt <= |ts| && HasDot(ts[at].text)
    requires VerbMeans(Words(ts[at + 1..sideAt])) == Some(op)
    requires ConditionRest(ts, sideAt, ts[at].text, op, OperandKind(op)).Done?
    ensures var r := ConditionRest(ts, sideAt, ts[at].text, op, OperandKind(op));
            && c.field == ts[at] && c.verb == ts[at + 1..sideAt] && c.operand + c.absence == ts[sideAt..r.at]
            && CondMeans(c) == Some(r.value)
  {
    hide Plainly, Words, VerbMeans, OperandKind, IntervalAt, IntervalMeans, Sided;
    var r := ConditionRest(ts, sideAt, ts[at].text, op, OperandKind(op));
    match OperandKind(op) {
      case NoOperand => c := CondTree(ts[at], ts[at + 1..sideAt], [], []);
      case AnInterval =>
        IntervalSaid(ts, sideAt);
        c := CondTree(ts[at], ts[at + 1..sideAt], ts[sideAt..sideAt + 3], []);
      case OneOperand => c := SidedSaid(ts, at, sideAt, op);
    }
  }

  lemma SidedSaid(ts: seq<Token>, at: nat, sideAt: nat, op: Operator) returns (c: CondTree)
    requires Plainly(ts) && at < sideAt <= |ts| && ConditionRest(ts, sideAt, ts[at].text, op, OneOperand).Done?
    ensures var r := ConditionRest(ts, sideAt, ts[at].text, op, OneOperand);
            && c.field == ts[at] && c.verb == ts[at + 1..sideAt] && c.operand + c.absence == ts[sideAt..r.at]
            && Sided(c, op) == Some(r.value)
  {
    hide Plainly, Words, OperandOf, Absence, OperandMeans, AbsenceMeans;
    var absenceAt := OperandOf(ts, sideAt).at;
    OperandSaid(ts, sideAt);
    AbsenceSaid(ts, absenceAt);
    c := CondTree(ts[at], ts[at + 1..sideAt], ts[sideAt..absenceAt], ts[absenceAt..Absence(ts, absenceAt).at]);
  }

  /** What may follow a list of conditions that ends here. */
  predicate Closes(ts: seq<Token>, at: nat)
  {
    Word(ts, at) !in {OrWord, IfWord, AndWord}
  }

  lemma {:induction false} ListHere(ts: seq<Token>, at: nat, l: CondList)
    requires Plainly(ts) && Here(ts, at, ListTokens(l)) && ListMeans(l).Some? && Closes(ts, at + |ListTokens(l)|)
    ensures Conditions(ts, at) == Done(ListMeans(l).value, at + |ListTokens(l)|)
    ensures Word(ts, at) == Other
    decreases l
  {
    hide Condition, Plainly, Here, CondMeans, CondTokens;
    match l {
      case LastCond(c) => ConditionHere(ts, at, c);
      case MoreConds(c, and, rest) =>
        var next := at + |CondTokens(c)|;
        Parts(ts, at, CondTokens(c), [and] + ListTokens(rest));
        Parts(ts, next, [and], ListTokens(rest));
        FirstHere(ts, next, and);
        ConditionHere(ts, at, c);
        ListHere(ts, next + 1, rest);
    }
  }

  lemma FirstHere(ts: seq<Token>, at: nat, t: Token)
    requires Here(ts, at, [t])
    ensures at < |ts| && ts[at] == t && Word(ts, at) == t.word
  {
    assert ts[at..at + 1][0] == [t][0];
  }

  lemma {:induction false} ListSaid(ts: seq<Token>, at: nat) returns (l: CondList)
    requires Plainly(ts) && Conditions(ts, at).Done?
    ensures ListTokens(l) == ts[at..Conditions(ts, at).at] && ListMeans(l) == Some(Conditions(ts, at).value)
    decreases |ts| - at
  {
    hide Condition, Plainly, CondMeans, CondTokens;
    var next := Condition(ts, at).at;
    var c := ConditionSaid(ts, at);
    if Word(ts, next) == AndWord {
      var rest := ListSaid(ts, next + 1);
      l := MoreConds(c, ts[next], rest);
      assert ts[at..Conditions(ts, at).at] == CondTokens(c) + ([ts[next]] + ListTokens(rest));
    } else {
      l := LastCond(c);
    }
  }

  // ------------------------------------------------------------------ joins
  /** What a join begins with. */
  predicate BeginsJoin(ts: seq<Token>, at: nat, v: Vocabulary)
  {
    Word(ts, at) == TheWord || LowerWord(ts, at) in v.references
  }

  lemma KeysHere(ts: seq<Token>, at: nat, s: seq<Token>, i: nat)
    requires Plainly(ts) && Here(ts, at, s) && SaysKeys(s, i)
    ensures FieldAfter(ts, at + i, ByWord) == Done(s[i + 1].text, at + i + 2)
    ensures FieldAfter(ts, at + i + 2, ToWord) == Done(s[i + 3].text, at + i + 4)
  {
    hide Plainly, HasDot, Field;
    Each(ts, at, s);
    assert ts[at + i] == s[i] && ts[at + (i + 1)] == s[i + 1]
      && ts[at + (i + 2)] == s[i + 2] && ts[at + (i + 3)] == s[i + 3];
    FieldHere(ts, at + i + 1);
    FieldHere(ts, at + i + 3);
  }

  lemma KeysSaid(ts: seq<Token>, at: nat, i: nat)
    requires Plainly(ts) && FieldAfter(ts, at + i, ByWord).Done?
    requires FieldAfter(ts, FieldAfter(ts, at + i, ByWord).at, ToWord).Done?
    ensures at + i + 4 <= |ts| && SaysKeys(ts[at..at + i + 4], i)
    ensures FieldAfter(ts, at + i, ByWord) == Done(ts[at + i + 1].text, at + i + 2)
    ensures FieldAfter(ts, at + i + 2, ToWord) == Done(ts[at + i + 3].text, at + i + 4)
  {
    hide Plainly, HasDot, Field;
    FieldHere(ts, at + i + 1);
    FieldHere(ts, at + i + 3);
  }

  /** `the set of <field>`, or a name. */
  lemma JoinHere(ts: seq<Token>, at: nat, s: seq<Token>, kind: Kind, v: Vocabulary)
    requires Plainly(ts) && Here(ts, at, s) && JoinMeans(s, kind, v).Some?
    ensures Join(ts, at, kind, v) == Done(JoinMeans(s, kind, v).value, at + |s|)
    ensures BeginsJoin(ts, at, v)
  {
    hide Plainly, HasDot, Lower, SaysKeys, KeyedJoin, SetJoin, EntityOf;
    Each(ts, at, s);
    assert ts[at] == s[0];
    if s[0].word == TheWord {
      assert ts[at + 1] == s[1] && ts[at + 2] == s[2] && ts[at + 3] == s[3];
      SetHere(ts, at + 1, s[3]);
    } else {
      KeyedHere(ts, at, s, kind, v);
    }
  }

  /** Where the key fields of a join stand, and whether it names the hotel. */
  lemma SourceHere(ts: seq<Token>, at: nat, s: seq<Token>, kind: Kind, v: Vocabulary)
    requires Here(ts, at, s) && JoinMeans(s, kind, v).Some? && s[0].word != TheWord
    ensures |s| in {5, 8} && SaysKeys(s, |s| - 4) && Source(ts, at + 1) == Done(|s| == 8, at + |s| - 4)
    ensures Lower(s[0].text) in v.references
    ensures JoinMeans(s, kind, v).value
         == Reference(Lower(s[0].text), kind, Some(s[|s| - 3].text), Some(s[|s| - 1].text), None, |s| == 8)
  {
    hide HasDot, Lower, SaysKeys, EntityOf;
    Each(ts, at, s);
    if SaysKeys(s, 1) {
      KeysAt(s, 1);
      assert Word(ts, at + 1) == s[1].word;
    } else {
      KeysAt(s, 4);
      assert ts[at + 1] == s[1] && ts[at + 2] == s[2] && ts[at + 3] == s[3];
    }
  }

  lemma KeyedHere(ts: seq<Token>, at: nat, s: seq<Token>, kind: Kind, v: Vocabulary)
    requires Plainly(ts) && Here(ts, at, s) && JoinMeans(s, kind, v).Some? && s[0].word != TheWord
    ensures KeyedJoin(ts, at, kind, v) == Done(JoinMeans(s, kind, v).value, at + |s|)
    ensures ts[at] == s[0] && Lower(s[0].text) in v.references
  {
    hide Plainly, Lower, SaysKeys, FieldAfter, Source, JoinMeans;
    Each(ts, at, s);
    SourceHere(ts, at, s, kind, v);
    KeysHere(ts, at, s, |s| - 4);
    assert ts[at] == s[0];
  }

  lemma KeysAt(s: seq<Token>, i: nat)
    requires SaysKeys(s, i)
    ensures |s| == i + 4 && s[i].word == ByWord
  {
  }

  lemma SetHere(ts: seq<Token>, at: nat, field: Token)
    requires Plainly(ts) && at + 2 < |ts| && Word(ts, at) == SetWord && Word(ts, at + 1) == OfWord
    requires ts[at + 2] == field && HasDot(field.text)
    ensures SetJoin(ts, at) == Done(Reference(EntityOf(field.text), ValueSet, None, None, Some(field.text), false), at
              + 3)
  {
    hide Plainly, HasDot, Field, EntityOf;
    FieldHere(ts, at + 2);
  }

  lemma JoinSaid(ts: seq<Token>, at: nat, kind: Kind, v: Vocabulary)
    requires Plainly(ts) && Join(ts, at, kind, v).Done?
    ensures JoinMeans(ts[at..Join(ts, at, kind, v).at], kind, v) == Some(Join(ts, at, kind, v).value)
  {
    hide Plainly, HasDot, Lower, KeyedJoin, SetJoin, EntityOf, SaysKeys;
    if Word(ts, at) == TheWord {
      SetSaid(ts, at);
      assert ts[at..at + 4][3] == ts[at + 3];
    } else {
      KeyedSaid(ts, at, kind, v);
    }
  }

  lemma KeyedSaid(ts: seq<Token>, at: nat, kind: Kind, v: Vocabulary)
    requires Plainly(ts) && KeyedJoin(ts, at, kind, v).Done? && Word(ts, at) != TheWord
    ensures JoinMeans(ts[at..KeyedJoin(ts, at, kind, v).at], kind, v) == Some(KeyedJoin(ts, at, kind, v).value)
  {
    hide Plainly, Lower, FieldAfter, SaysKeys, JoinMeans;
    var i := if Word(ts, at + 1) == FromWord then 4 else 1;
    KeysSaid(ts, at, i);
    var s := ts[at..at + i + 4];
    assert s[0] == ts[at] && s[i + 1] == ts[at + i + 1] && s[i + 3] == ts[at + i + 3];
    if i == 4 {
      assert s[1] == ts[at + 1] && s[2] == ts[at + 2] && s[3] == ts[at + 3];
    }
    KeyedMeans(s, i, kind, v);
  }

  lemma KeyedMeans(s: seq<Token>, i: nat, kind: Kind, v: Vocabulary)
    requires SaysKeys(s, i) && s[0].word != TheWord && Lower(s[0].text) in v.references
    requires i == 1 || (i == 4 && s[1].word == FromWord && s[2].word == TheWord && s[3].word == HotelWord)
    ensures JoinMeans(s, kind, v)
         == Some(Reference(Lower(s[0].text), kind, Some(s[i + 1].text), Some(s[i + 3].text), None, i == 4))
  {
    hide HasDot, Lower, EntityOf;
  }

  lemma SetSaid(ts: seq<Token>, at: nat)
    requires Plainly(ts) && at < |ts| && Word(ts, at) == TheWord && SetJoin(ts, at + 1).Done?
    ensures SetJoin(ts, at + 1).at == at + 4
    ensures Word(ts, at + 1) == SetWord && Word(ts, at + 2) == OfWord && HasDot(ts[at + 3].text)
    ensures SetJoin(ts, at + 1).value
         == Reference(EntityOf(ts[at + 3].text), ValueSet, None, None, Some(ts[at + 3].text), false)
  {
    hide Plainly, HasDot, Field, EntityOf;
    FieldHere(ts, at + 3);
  }

  lemma AnotherFollows(ts: seq<Token>, at: nat, v: Vocabulary)
    ensures AnotherJoinFollows(ts, at, v) <==> BeginsJoin(ts, at + 1, v)
  {
  }

  lemma {:induction false} JoinListHere(ts: seq<Token>, at: nat, j: JoinTree, kind: Kind, v: Vocabulary)
    requires Plainly(ts) && Here(ts, at, JoinTokens(j)) && JoinsMean(j, kind, v).Some?
    requires Word(ts, at + |JoinTokens(j)|) != AndWord
    ensures JoinList(ts, at, kind, v) == Done(JoinsMean(j, kind, v).value, at + |JoinTokens(j)|)
    ensures BeginsJoin(ts, at, v)
    decreases j
  {
    hide Plainly, Here, Join, JoinMeans, Word, BeginsJoin, AnotherJoinFollows;
    match j {
      case LastJoin(s) => JoinHere(ts, at, s, kind, v);
      case MoreJoin(s, and, rest) =>
        Parts(ts, at, s, [and] + JoinTokens(rest));
        Parts(ts, at + |s|, [and], JoinTokens(rest));
        FirstHere(ts, at + |s|, and);
        JoinHere(ts, at, s, kind, v);
        JoinListHere(ts, at + |s| + 1, rest, kind, v);
        AnotherFollows(ts, at + |s|, v);
    }
  }

  lemma {:induction false} JoinListSaid(ts: seq<Token>, at: nat, kind: Kind, v: Vocabulary) returns (j: JoinTree)
    requires Plainly(ts) && JoinList(ts, at, kind, v).Done?
    ensures JoinTokens(j) == ts[at..JoinList(ts, at, kind, v).at]
    ensures JoinsMean(j, kind, v) == Some(JoinList(ts, at, kind, v).value)
    decreases |ts| - at
  {
    hide Plainly, Join, JoinMeans, AnotherJoinFollows;
    var next := Join(ts, at, kind, v).at;
    JoinSaid(ts, at, kind, v);
    if Word(ts, next) == AndWord && AnotherJoinFollows(ts, next, v) {
      var rest := JoinListSaid(ts, next + 1, kind, v);
      j := MoreJoin(ts[at..next], ts[next], rest);
      assert ts[at..JoinList(ts, at, kind, v).at] == ts[at..next] + ([ts[next]] + JoinTokens(rest));
    } else {
      j := LastJoin(ts[at..next]);
    }
  }

  lemma ClauseParts(ts: seq<Token>, at: nat, word: Token, joins: JoinTree, rest: JoinClauseTree)
    requires Here(ts, at, JoinClauseTokens(JoinClause(word, joins, rest)))
    ensures at < |ts| && ts[at] == word && Word(ts, at) == word.word
    ensures Here(ts, at + 1, JoinTokens(joins)) && Here(ts, at + 1 + |JoinTokens(joins)|, JoinClauseTokens(rest))
  {
    hide Here, JoinTokens;
    Parts(ts, at, [word], JoinTokens(joins) + JoinClauseTokens(rest));
    Parts(ts, at + 1, JoinTokens(joins), JoinClauseTokens(rest));
    FirstHere(ts, at, word);
  }

  lemma JoinClauseHere(ts: seq<Token>, at: nat, j: JoinClauseTree, v: Vocabulary, next: nat, end: nat)
    requires j.JoinClause? && JoinClausesMean(j, v).Some? && at < next <= end <= |ts| && Word(ts, at) == j.word.word
    requires var kind := if j.word.word == CollectingWord then Collection else Lookup;
             JoinList(ts, at + 1, kind, v) == Done(JoinsMean(j.joins, kind, v).value, next)
    requires JoinClauses(ts, next, v) == Done(JoinClausesMean(j.rest, v).value, end)
    ensures JoinClauses(ts, at, v) == Done(JoinClausesMean(j, v).value, end)
    ensures IsJoinWord(Word(ts, at))
  {
    hide JoinList, JoinsMean;
  }

  lemma Reaches(ts: seq<Token>, at: nat, s: seq<Token>)
    requires Here(ts, at, s)
    ensures at + |s| <= |ts|
  {
  }

  lemma NoJoinsHere(ts: seq<Token>, at: nat, v: Vocabulary)
    requires at <= |ts| && !IsJoinWord(Word(ts, at))
    ensures JoinClauses(ts, at, v) == Done([], at)
  {
  }

  lemma {:induction false} JoinClausesHere(ts: seq<Token>, at: nat, j: JoinClauseTree, v: Vocabulary)
    requires Plainly(ts) && Here(ts, at, JoinClauseTokens(j)) && JoinClausesMean(j, v).Some?
    requires var next := Word(ts, at + |JoinClauseTokens(j)|); next != AndWord && !IsJoinWord(next)
    ensures JoinClauses(ts, at, v) == Done(JoinClausesMean(j, v).value, at + |JoinClauseTokens(j)|)
    ensures j.JoinClause? ==> IsJoinWord(Word(ts, at))
    decreases j
  {
    hide Plainly, Here, JoinList, JoinsMean, JoinTokens, JoinClauses, Word;
    Reaches(ts, at, JoinClauseTokens(j));
    match j {
      case NoJoins => NoJoinsHere(ts, at, v);
      case JoinClause(word, joins, rest) =>
        var next := at + 1 + |JoinTokens(joins)|;
        ClauseParts(ts, at, word, joins, rest);
        JoinClausesHere(ts, next, rest, v);
        JoinListHere(ts, at + 1, joins, if word.word == CollectingWord then Collection else Lookup, v);
        JoinClauseHere(ts, at, j, v, next, next + |JoinClauseTokens(rest)|);
    }
  }

  lemma Slices(ts: seq<Token>, a: nat, b: nat, c: nat)
    requires a < b <= c <= |ts|
    ensures ts[a..c] == [ts[a]] + (ts[a + 1..b] + ts[b..c])
  {
  }

  lemma {:induction false} JoinClausesSaid(ts: seq<Token>, at: nat, v: Vocabulary) returns (j: JoinClauseTree)
    requires Plainly(ts) && at <= |ts| && JoinClauses(ts, at, v).Done?
    ensures JoinClauseTokens(j) == ts[at..JoinClauses(ts, at, v).at]
    ensures JoinClausesMean(j, v) == Some(JoinClauses(ts, at, v).value)
    decreases |ts| - at
  {
    hide Plainly, JoinList, JoinsMean, JoinTokens;
    if IsJoinWord(Word(ts, at)) {
      var kind := JoinKind(Word(ts, at));
      var next := JoinList(ts, at + 1, kind, v).at;
      var joins := JoinListSaid(ts, at + 1, kind, v);
      var rest := JoinClausesSaid(ts, next, v);
      j := JoinClause(ts[at], joins, rest);
      Slices(ts, at, next, JoinClauses(ts, next, v).at);
    } else {
      j := NoJoins;
    }
  }

  // ------------------------------------------------------------------ clauses
  lemma ClauseStands(ts: seq<Token>, at: nat, c: ClauseTree)
    requires c.Clause? && Here(ts, at, ClauseTokens(c))
    ensures Here(ts, at, c.opening) && Here(ts, at + |c.opening|, ListTokens(c.conditions))
    ensures |ClauseTokens(c)| == |c.opening| + |ListTokens(c.conditions)|
  {
    hide Here;
    Parts(ts, at, c.opening, ListTokens(c.conditions));
  }

  lemma ScopeHere(ts: seq<Token>, at: nat, c: ClauseTree)
    requires Plainly(ts) && Here(ts, at, ClauseTokens(c)) && ClauseMeans(c, false).Some?
    requires Closes(ts, at + |ClauseTokens(c)|) && Word(ts, at + |ClauseTokens(c)|) != WhereWord
    ensures Scope(ts, at) == Done(ClauseMeans(c, false).value, at + |ClauseTokens(c)|)
    ensures c.Clause? ==> Word(ts, at) == WhereWord
  {
    hide Plainly, Here, Conditions, ListMeans, ListTokens, Words, Word;
    if c.Clause? {
      ClauseStands(ts, at, c);
      HereWord(ts, at, c.opening, 0);
      ListHere(ts, at + 1, c.conditions);
    }
  }

  lemma ScopeSaid(ts: seq<Token>, at: nat) returns (c: ClauseTree)
    requires Plainly(ts) && at <= |ts| && Scope(ts, at).Done?
    ensures ClauseTokens(c) == ts[at..Scope(ts, at).at] && ClauseMeans(c, false) == Some(Scope(ts, at).value)
  {
    hide Plainly, Conditions, ListMeans, ListTokens;
    if Word(ts, at) == WhereWord {
      var l := ListSaid(ts, at + 1);
      c := Clause([ts[at]], l);
      assert Words([ts[at]]) == [WhereWord];
      assert ts[at..Scope(ts, at).at] == [ts[at]] + ListTokens(l);
    } else {
      c := NoClause;
    }
  }

  lemma ExceptionsHere(ts: seq<Token>, at: nat, c: ClauseTree)
    requires Plainly(ts) && Here(ts, at, ClauseTokens(c)) && ClauseMeans(c, true).Some?
    requires Word(ts, at + |ClauseTokens(c)|) in {MustWord, MayWord}
    ensures Exceptions(ts, at) == Done(ClauseMeans(c, true).value, at + |ClauseTokens(c)|)
    ensures c.Clause? ==> Word(ts, at) in {UnlessWord, ExceptWord}
  {
    hide Plainly, Here, Conditions, ListMeans, ListTokens, Words, Word;
    if c.Clause? {
      ClauseStands(ts, at, c);
      HereWord(ts, at, c.opening, 0);
      if |c.opening| == 2 {
        HereWord(ts, at, c.opening, 1);
      }
      ListHere(ts, at + |c.opening|, c.conditions);
    }
  }

  lemma ExceptionsSaid(ts: seq<Token>, at: nat) returns (c: ClauseTree)
    requires Plainly(ts) && at <= |ts| && Exceptions(ts, at).Done?
    ensures ClauseTokens(c) == ts[at..Exceptions(ts, at).at]
    ensures ClauseMeans(c, true) == Some(Exceptions(ts, at).value)
  {
    hide Plainly, Conditions, ListMeans, ListTokens;
    if Word(ts, at) in {ExceptWord, UnlessWord} {
      var length := if Word(ts, at) == ExceptWord then 2 else 1;
      var l := ListSaid(ts, at + length);
      c := Clause(ts[at..at + length], l);
      assert Words(ts[at..at + length]) == if length == 2 then [ExceptWord, WhereWord] else [UnlessWord];
      assert ts[at..Exceptions(ts, at).at] == ts[at..at + length] + ListTokens(l);
    } else {
      c := NoClause;
    }
  }

  // ------------------------------------------------------------------ assertion
  lemma HereWord(ts: seq<Token>, at: nat, s: seq<Token>, i: nat)
    requires Here(ts, at, s) && i < |s|
    ensures Word(ts, at + i) == Words(s)[i]
  {
    Each(ts, at, s);
    assert Words(s)[i] == s[i].word;
  }

  lemma ModalHere(ts: seq<Token>, at: nat, s: seq<Token>, quantifier: Keyword)
    requires Here(ts, at, s) && ModalMeans(Words(s), quantifier).Some?
    ensures ModalOf(ts, at, quantifier) == Done(ModalMeans(Words(s), quantifier).value, at + |s|)
    ensures Word(ts, at) in {MustWord, MayWord}
  {
    hide Word, Here, Words;
    HereWord(ts, at, s, 0);
    HereWord(ts, at, s, 1);
    if |s| > 2 {
      HereWord(ts, at, s, 2);
    }
    if |s| == 6 {
      HereWord(ts, at, s, 3);
      HereWord(ts, at, s, 4);
      HereWord(ts, at, s, 5);
    }
  }

  lemma SatisfySaid(ts: seq<Token>, at: nat, quantifier: Keyword)
    requires at < |ts| && Word(ts, at) == MustWord && Word(ts, at + 1) == SatisfyWord && AtLeastOneOf(ts, at + 2)
    ensures at + 6 <= |ts| && ModalMeans(Words(ts[at..at + 6]), quantifier) == Some(Modal(AnyOf, false))
  {
    assert Word(ts, at + 5) == OfWord;
    var ws := Words(ts[at..at + 6]);
    forall i: nat | i < 6 ensures ws[i] == Word(ts, at + i) {
      SliceWord(ts, at, at + 6, i);
    }
    assert ws[0] == MustWord && ws[1] == SatisfyWord && ws[2] == AtWord && ws[3] == LeastWord && ws[4] == OneWord
        && ws[5] == OfWord;
  }

  lemma MustSaid(ts: seq<Token>, at: nat, quantifier: Keyword)
    requires at < |ts| && Word(ts, at) == MustWord && MustOf(ts, at + 1).Done?
    ensures var r := MustOf(ts, at + 1);
            ModalMeans(Words(ts[at..r.at]), quantifier) == Some(r.value)
  {
    hide Word, Words, AtLeastOneOf;
    if Word(ts, at + 1) == SatisfyWord {
      SatisfySaid(ts, at, quantifier);
    } else {
      var end := MustOf(ts, at + 1).at;
      SliceWord(ts, at, end, 0);
      SliceWord(ts, at, end, 1);
      if Word(ts, at + 1) == NotWord {
        SliceWord(ts, at, end, 2);
      }
    }
  }

  lemma ModalSaid(ts: seq<Token>, at: nat, quantifier: Keyword)
    requires at <= |ts| && ModalOf(ts, at, quantifier).Done?
    ensures var r := ModalOf(ts, at, quantifier);
            ModalMeans(Words(ts[at..r.at]), quantifier) == Some(r.value)
  {
    hide Words, MustOf;
    if Word(ts, at) == MustWord {
      MustSaid(ts, at, quantifier);
    } else {
      SliceWord(ts, at, at + 2, 0);
      SliceWord(ts, at, at + 2, 1);
    }
  }

  lemma SliceWord(ts: seq<Token>, a: nat, b: nat, i: nat)
    requires a + i < b <= |ts|
    ensures Words(ts[a..b])[i] == Word(ts, a + i)
  {
  }

  lemma CountHere(ts: seq<Token>, at: nat, s: seq<Token>)
    requires Plainly(ts) && Here(ts, at, s) && AggregateMeans(s).Some? && |s| == 6
    requires Word(ts, at + 6) != AndWord
    ensures Aggregated(ts, at) == Done(AggregateMeans(s).value, at + 6)
    ensures Word(ts, at) == AtWord
  {
    hide Plainly, HasDot, Field, AllDigits, NatOf;
    Each(ts, at, s);
    assert ts[at] == s[0] && ts[at + 1] == s[1] && ts[at + 2] == s[2] && ts[at + 3] == s[3];
    assert ts[at + 4] == s[4] && ts[at + 5] == s[5];
    FieldHere(ts, at + 3);
    FieldHere(ts, at + 5);
  }

  lemma OverlapHere(ts: seq<Token>, at: nat, s: seq<Token>)
    requires Plainly(ts) && Here(ts, at, s) && AggregateMeans(s).Some? && |s| == 9
    requires Word(ts, at + 9) != AndWord
    ensures Aggregated(ts, at) == Done(AggregateMeans(s).value, at + 9)
    ensures Word(ts, at) == NoWord
  {
    hide Plainly, HasDot, Field, IntervalAt, IntervalMeans;
    Each(ts, at, s);
    assert ts[at] == s[0] && ts[at + 1] == s[1] && ts[at + 2] == s[2] && ts[at + 3] == s[3];
    assert ts[at + 7] == s[7] && ts[at + 8] == s[8];
    FieldHere(ts, at + 2);
    FieldHere(ts, at + 8);
    assert Here(ts, at + 4, s[4..7]);
    IntervalHere(ts, at + 4, s[4..7]);
  }

  lemma CountSaid(ts: seq<Token>, at: nat)
    requires Plainly(ts) && at <= |ts| && Word(ts, at) == AtWord && CountPer(ts, at + 1).Done?
    ensures CountPer(ts, at + 1).at == at + 6
    ensures AggregateMeans(ts[at..at + 6]) == Some(CountPer(ts, at + 1).value)
  {
    hide Plainly, HasDot, Field, AllDigits, NatOf;
    FieldHere(ts, at + 3);
    FieldHere(ts, at + 5);
    var s := ts[at..at + 6];
    assert s[0] == ts[at] && s[1] == ts[at + 1] && s[2] == ts[at + 2] && s[3] == ts[at + 3];
    assert s[4] == ts[at + 4] && s[5] == ts[at + 5];
  }

  lemma OverlapSaid(ts: seq<Token>, at: nat)
    requires Plainly(ts) && at <= |ts| && OverlapPer(ts, at).Done?
    ensures OverlapPer(ts, at).at == at + 9
    ensures AggregateMeans(ts[at..at + 9]) == Some(OverlapPer(ts, at).value)
  {
    hide Plainly, HasDot, Field, IntervalAt, IntervalMeans, AllDigits, NatOf;
    FieldHere(ts, at + 2);
    IntervalSaid(ts, at + 4);
    FieldHere(ts, at + 8);
    var s := ts[at..at + 9];
    Sliced(ts, at, at + 9, 0);
    Sliced(ts, at, at + 9, 1);
    Sliced(ts, at, at + 9, 2);
    Sliced(ts, at, at + 9, 3);
    Sliced(ts, at, at + 9, 7);
    Sliced(ts, at, at + 9, 8);
    assert s[4..7] == ts[at + 4..at + 7];
  }

  lemma Sliced(ts: seq<Token>, a: nat, b: nat, i: nat)
    requires a + i < b <= |ts|
    ensures ts[a..b][i] == ts[a + i]
  {
  }

  lemma AggregateSaid(ts: seq<Token>, at: nat)
    requires Plainly(ts) && at <= |ts| && Aggregated(ts, at).Done?
    ensures AggregateMeans(ts[at..Aggregated(ts, at).at]) == Some(Aggregated(ts, at).value)
  {
    hide Plainly, CountPer, OverlapPer, AggregateMeans;
    if Word(ts, at) == AtWord {
      CountSaid(ts, at);
    } else {
      OverlapSaid(ts, at);
    }
  }

  lemma AskedHere(ts: seq<Token>, at: nat, a: AskedTree, modal: Modal)
    requires Plainly(ts) && Here(ts, at, AskedTokens(a)) && AskedMeans(a, modal).Some?
    requires Closes(ts, at + |AskedTokens(a)|)
    ensures Required(ts, at, modal) == Done(AskedMeans(a, modal).value, at + |AskedTokens(a)|)
  {
    hide Plainly, Here, Conditions, ListMeans, ListTokens, Aggregated, AggregateMeans;
    match a {
      case OfARecord(conditions) => ListHere(ts, at, conditions);
      case OfAGroup(s) =>
        SixOrNine(s);
        if |s| == 6 { CountHere(ts, at, s); } else { OverlapHere(ts, at, s); }
    }
  }

  lemma SixOrNine(s: seq<Token>)
    requires AggregateMeans(s).Some?
    ensures |s| == 6 || |s| == 9
  {
  }

  lemma AskedSaid(ts: seq<Token>, at: nat, modal: Modal) returns (a: AskedTree)
    requires Plainly(ts) && at <= |ts| && Required(ts, at, modal).Done?
    ensures AskedTokens(a) == ts[at..Required(ts, at, modal).at]
    ensures AskedMeans(a, modal) == Some(Required(ts, at, modal).value)
  {
    hide Plainly, Conditions, ListMeans, ListTokens, Aggregated, AggregateMeans;
    if Word(ts, at) in {AtWord, NoWord} {
      AggregateSaid(ts, at);
      a := OfAGroup(ts[at..Aggregated(ts, at).at]);
    } else {
      var l := ListSaid(ts, at);
      a := OfARecord(l);
    }
  }

  // ------------------------------------------------------------------ showing
  lemma {:induction false} FieldsHere(ts: seq<Token>, at: nat, f: FieldsTree)
    requires Plainly(ts) && Here(ts, at, FieldsTokens(f)) && FieldsMean(f).Some?
    requires Word(ts, at + |FieldsTokens(f)|) != AndWord
    ensures FieldList(ts, at) == Done(FieldsMean(f).value, at + |FieldsTokens(f)|)
    decreases f
  {
    hide Plainly, Here, HasDot, Field;
    match f {
      case LastField(t) => FirstHere(ts, at, t);
      case MoreFields(t, and, rest) =>
        Parts(ts, at, [t], [and] + FieldsTokens(rest));
        Parts(ts, at + 1, [and], FieldsTokens(rest));
        FirstHere(ts, at, t);
        FirstHere(ts, at + 1, and);
        FieldsHere(ts, at + 2, rest);
    }
    FieldHere(ts, at);
  }

  lemma {:induction false} FieldsSaid(ts: seq<Token>, at: nat) returns (f: FieldsTree)
    requires Plainly(ts) && FieldList(ts, at).Done?
    ensures FieldsTokens(f) == ts[at..FieldList(ts, at).at] && FieldsMean(f) == Some(FieldList(ts, at).value)
    decreases |ts| - at
  {
    hide Plainly, HasDot, Field;
    FieldHere(ts, at);
    if Word(ts, at + 1) == AndWord {
      var rest := FieldsSaid(ts, at + 2);
      f := MoreFields(ts[at], ts[at + 1], rest);
      assert ts[at..FieldList(ts, at).at] == [ts[at]] + ([ts[at + 1]] + FieldsTokens(rest));
    } else {
      f := LastField(ts[at]);
    }
  }

  lemma ShowHere(ts: seq<Token>, at: nat, s: ShowTree)
    requires Plainly(ts) && Here(ts, at, ShowTokens(s)) && ShowMeans(s).Some? && at + |ShowTokens(s)| == |ts|
    ensures Showing(ts, at) == Done(ShowMeans(s).value, |ts|)
    ensures Word(ts, at) == if s.Show? then ShowingWord else Other
  {
    hide Plainly, FieldList, FieldsMean, FieldsTokens;
    if s.Show? {
      Parts(ts, at, [s.word], FieldsTokens(s.fields));
      FirstHere(ts, at, s.word);
      FieldsHere(ts, at + 1, s.fields);
    }
  }

  lemma ShowSaid(ts: seq<Token>, at: nat) returns (s: ShowTree)
    requires Plainly(ts) && at <= |ts| && Showing(ts, at).Done?
    ensures ShowTokens(s) == ts[at..Showing(ts, at).at] && ShowMeans(s) == Some(Showing(ts, at).value)
  {
    hide Plainly, FieldList, FieldsMean, FieldsTokens;
    if Word(ts, at) == ShowingWord {
      var f := FieldsSaid(ts, at + 1);
      s := Show(ts[at], f);
      assert ts[at..Showing(ts, at).at] == [ts[at]] + FieldsTokens(f);
    } else {
      s := NoShow;
    }
  }

  // ------------------------------------------------------------------ sentences
  /** Where each part of a sentence stands. */
  lemma PartsHere(t: Tree, b: nat, c: nat, d: nat, m: nat, e: nat)
    requires b == 2 + |JoinClauseTokens(t.joins)| && c == b + |ClauseTokens(t.scope)|
    requires d == c + |ClauseTokens(t.exceptions)| && m == d + |t.modal| && e == m + |AskedTokens(t.asked)|
    ensures var ts := TreeTokens(t);
            && e + |ShowTokens(t.showing)| == |ts|
            && Here(ts, 0, [t.quantifier, t.subject]) && Here(ts, 2, JoinClauseTokens(t.joins))
            && Here(ts, b, ClauseTokens(t.scope)) && Here(ts, c, ClauseTokens(t.exceptions))
            && Here(ts, d, t.modal) && Here(ts, m, AskedTokens(t.asked)) && Here(ts, e, ShowTokens(t.showing))
  {
    hide JoinClauseTokens, ClauseTokens, AskedTokens, ShowTokens, Here;
    var ts := TreeTokens(t);
    var show := ShowTokens(t.showing);
    var asked := AskedTokens(t.asked) + show;
    var asserted := t.modal + asked;
    var excepted := ClauseTokens(t.exceptions) + asserted;
    var scoped := ClauseTokens(t.scope) + excepted;
    var joined := JoinClauseTokens(t.joins) + scoped;
    WholeHere(ts);
    Parts(ts, 0, [t.quantifier, t.subject], joined);
    Parts(ts, 2, JoinClauseTokens(t.joins), scoped);
    Parts(ts, b, ClauseTokens(t.scope), excepted);
    Parts(ts, c, ClauseTokens(t.exceptions), asserted);
    Parts(ts, d, t.modal, asked);
    Parts(ts, m, AskedTokens(t.asked), show);
  }

  lemma WholeHere(ts: seq<Token>)
    ensures Here(ts, 0, ts)
  {
  }

  lemma EmptyClause(c: ClauseTree)
    ensures c.NoClause? ==> |ClauseTokens(c)| == 0
  {
  }

  /** The assertion and the fields to show, at the end of a sentence. */
  lemma AssertedHere(t: Tree, d: nat, m: nat, e: nat, modal: Modal)
    requires var ts := TreeTokens(t);
             && Plainly(ts) && Here(ts, d, t.modal)
                && Here(ts, m, AskedTokens(t.asked)) && Here(ts, e, ShowTokens(t.showing))
             && m == d + |t.modal| && e == m + |AskedTokens(t.asked)| && e + |ShowTokens(t.showing)| == |ts|
    requires ModalMeans(Words(t.modal), t.quantifier.word) == Some(modal)
    requires AskedMeans(t.asked, modal).Some? && ShowMeans(t.showing).Some?
    ensures var ts := TreeTokens(t);
            && AssertionOf(ts, d, t.quantifier.word) == Done(AskedMeans(t.asked, modal).value, e)
            && Showing(ts, e) == Done(ShowMeans(t.showing).value, |ts|)
            && Word(ts, d) in {MustWord, MayWord}
  {
    hide Plainly, Here, ModalOf, Required, Showing, AskedTokens, ShowTokens, ModalMeans, AskedMeans, ShowMeans,
      TreeTokens;
    var ts := TreeTokens(t);
    ShowHere(ts, e, t.showing);
    ModalHere(ts, d, t.modal, t.quantifier.word);
    AskedHere(ts, m, t.asked, modal);
  }

  /** The clauses before the assertion. */
  lemma ClausesHere(t: Tree, b: nat, c: nat, d: nat, v: Vocabulary)
    requires var ts := TreeTokens(t);
             && Plainly(ts) && Here(ts, 2, JoinClauseTokens(t.joins))
             && Here(ts, b, ClauseTokens(t.scope)) && Here(ts, c, ClauseTokens(t.exceptions))
             && b == 2 + |JoinClauseTokens(t.joins)| && c == b + |ClauseTokens(t.scope)|
             && d == c + |ClauseTokens(t.exceptions)| && Word(ts, d) in {MustWord, MayWord}
    requires JoinClausesMean(t.joins, v).Some?
               && ClauseMeans(t.scope, false).Some? && ClauseMeans(t.exceptions, true).Some?
    ensures var ts := TreeTokens(t);
            && Joins(ts, 2, v) == Done(JoinClausesMean(t.joins, v).value, b)
            && Scope(ts, b) == Done(ClauseMeans(t.scope, false).value, c)
            && Exceptions(ts, c) == Done(ClauseMeans(t.exceptions, true).value, d)
  {
    hide Plainly, Here, JoinClauses, Scope, Exceptions, JoinClauseTokens, ClauseTokens, JoinClausesMean, ClauseMeans,
      TreeTokens, Word;
    var ts := TreeTokens(t);
    ExceptionsHere(ts, c, t.exceptions);
    EmptyClause(t.exceptions);
    ScopeHere(ts, b, t.scope);
    EmptyClause(t.scope);
    JoinClausesHere(ts, 2, t.joins, v);
  }

  /** Every sentence with a meaning is taken, and read as what it means. */
  lemma TreeIsParsed(t: Tree, v: Vocabulary)
    requires Plainly(TreeTokens(t)) && TreeMeans(t, v).Some?
    ensures Parse(TreeTokens(t), v) == Done(TreeMeans(t, v).value, |TreeTokens(t)|)
  {
    hide Plainly, Here, Joins, Scope, Exceptions, AssertionOf, Showing, Lower, JoinClauseTokens, ClauseTokens,
      AskedTokens,
      ShowTokens, JoinClausesMean, ClauseMeans, ModalMeans, AskedMeans, ShowMeans, TreeTokens;
    var ts := TreeTokens(t);
    var b := 2 + |JoinClauseTokens(t.joins)|;
    var c := b + |ClauseTokens(t.scope)|;
    var d := c + |ClauseTokens(t.exceptions)|;
    var m := d + |t.modal|;
    var e := m + |AskedTokens(t.asked)|;
    PartsHere(t, b, c, d, m, e);
    Each(ts, 0, [t.quantifier, t.subject]);
    assert [t.quantifier, t.subject][0] == ts[0] && [t.quantifier, t.subject][1] == ts[1];
    AssertedHere(t, d, m, e, ModalMeans(Words(t.modal), t.quantifier.word).value);
    ClausesHere(t, b, c, d, v);
  }

  lemma PartsMakeTree(ts: seq<Token>, t: Tree, b: nat, c: nat, d: nat, m: nat, e: nat)
    requires 2 <= b <= c <= d <= m <= e <= |ts| && t.quantifier == ts[0] && t.subject == ts[1]
    requires JoinClauseTokens(t.joins) == ts[2..b] && ClauseTokens(t.scope) == ts[b..c]
    requires ClauseTokens(t.exceptions) == ts[c..d] && t.modal == ts[d..m] && AskedTokens(t.asked) == ts[m..e]
    requires ShowTokens(t.showing) == ts[e..]
    ensures TreeTokens(t) == ts
  {
    hide JoinClauseTokens, ClauseTokens, AskedTokens, ShowTokens;
    assert ts[m..] == AskedTokens(t.asked) + ShowTokens(t.showing);
    assert ts[d..] == t.modal + ts[m..];
    assert ts[c..] == ClauseTokens(t.exceptions) + ts[d..];
    assert ts[b..] == ClauseTokens(t.scope) + ts[c..];
    assert ts[2..] == JoinClauseTokens(t.joins) + ts[b..];
    assert ts == [t.quantifier, t.subject] + ts[2..];
  }

  /** Every sentence taken has a tree, and its rule is what the tree means. */
  lemma ParsedIsTree(ts: seq<Token>, v: Vocabulary) returns (t: Tree)
    requires Plainly(ts) && Parse(ts, v).Done?
    ensures TreeTokens(t) == ts && TreeMeans(t, v) == Some(Parse(ts, v).value)
  {
    hide Plainly, JoinClauses, Scope, Exceptions, ModalOf, Required, Showing, Lower, JoinClauseTokens, ClauseTokens,
      AskedTokens, ShowTokens, TreeTokens, JoinClausesMean, ClauseMeans, ModalMeans, AskedMeans, ShowMeans;
    var quantifier := Word(ts, 0);
    var b := JoinClauses(ts, 2, v).at;
    var c := Scope(ts, b).at;
    var d := Exceptions(ts, c).at;
    var m := ModalOf(ts, d, quantifier).at;
    var modal := ModalOf(ts, d, quantifier).value;
    var e := Required(ts, m, modal).at;
    var joins := JoinClausesSaid(ts, 2, v);
    var scope := ScopeSaid(ts, b);
    var exceptions := ExceptionsSaid(ts, c);
    ModalSaid(ts, d, quantifier);
    var asked := AskedSaid(ts, m, modal);
    var showing := ShowSaid(ts, e);
    t := Tree(ts[0], ts[1], joins, scope, exceptions, ts[d..m], asked, showing);
    PartsMakeTree(ts, t, b, c, d, m, e);
  }
}
