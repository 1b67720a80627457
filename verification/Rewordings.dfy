/** What the language takes and what it makes of each way of saying the same rule
    (hotelcontrols/compiler/grammar.py). */
module Rewordings {
  import opened Basics
  import opened Texts
  import opened Rules
  import opened Tokens
  import opened Keywords
  import opened Grammar
  import opened Absences
  import opened Spellings
  import opened Readings

  /** Some tree of these tokens means this rule. */
  ghost predicate Says(ts: seq<Token>, v: Vocabulary, l: Logic)
  {
    exists t :: TreeTokens(t) == ts && TreeMeans(t, v) == Some(l)
  }

  /** A sentence is taken, and read as a rule, exactly when the grammar says that rule with it. */
  lemma TakenIff(texts: seq<string>, v: Vocabulary, l: Logic)
    ensures Parse(Read(texts), v) == Done(l, |texts|) <==> Says(Read(texts), v, l)
    ensures Parse(Read(texts), v).Done? ==> Parse(Read(texts), v).at == |texts|
  {
    hide Read, Plainly, Parse, TreeTokens, TreeMeans;
    var ts := Read(texts);
    ReadIsPlain(texts);
    if Says(ts, v, l) {
      var t :| TreeTokens(t) == ts && TreeMeans(t, v) == Some(l);
      TreeIsParsed(t, v);
    }
    if Parse(ts, v).Done? {
      var t := ParsedIsTree(ts, v);
      TreeIsParsed(t, v);
    }
  }

  /** No sentence has two readings. */
  lemma OneReading(texts: seq<string>, v: Vocabulary, l: Logic, k: Logic)
    requires Says(Read(texts), v, l) && Says(Read(texts), v, k)
    ensures l == k
  {
    hide Read, Parse, Says;
    TakenIff(texts, v, l);
    TakenIff(texts, v, k);
  }

  // ------------------------------------------------------------------ the same rule in other words
  /** The same conditions, each with its operator said in any of its ways. */
  ghost predicate SameList(l: CondList, k: CondList)
  {
    match (l, k)
    case (LastCond(c), LastCond(d)) => SameCond(c, d)
    case (MoreConds(c, and, rest), MoreConds(d, and', rest')) =>
      SameCond(c, d) && and.word == and'.word && SameList(rest, rest')
    case _ => false
  }

  predicate SameCond(c: CondTree, d: CondTree)
  {
    c.field == d.field && c.operand == d.operand && c.absence == d.absence
    && VerbMeans(Words(c.verb)) == VerbMeans(Words(d.verb))
  }

  /** The same clause: exceptions open with `unless` or with `except where`. */
  ghost predicate SameClause(c: ClauseTree, d: ClauseTree)
  {
    match (c, d)
    case (NoClause, NoClause) => true
    case (Clause(opening, l), Clause(opening', k)) =>
      && OpensScope(Words(opening)) == OpensScope(Words(opening'))
      && OpensExceptions(Words(opening)) == OpensExceptions(Words(opening'))
      && SameList(l, k)
    case _ => false
  }

  ghost predicate SameAsked(a: AskedTree, b: AskedTree)
  {
    match (a, b)
    case (OfARecord(l), OfARecord(k)) => SameList(l, k)
    case (OfAGroup(s), OfAGroup(s')) => s == s'
    case _ => false
  }

  /** The same sentence in other words: another quantifier and modal of the same sense, another
      opening of the exceptions, other words for the operators. */
  ghost predicate Reworded(t: Tree, u: Tree)
  {
    && t.quantifier.word in {EveryWord, EachWord, AllWord, NoWord}
       && u.quantifier.word in {EveryWord, EachWord, AllWord, NoWord}
    && t.subject == u.subject && t.joins == u.joins && t.showing == u.showing
    && SameClause(t.scope, u.scope) && SameClause(t.exceptions, u.exceptions) && SameAsked(t.asked, u.asked)
    && ModalMeans(Words(t.modal), t.quantifier.word) == ModalMeans(Words(u.modal), u.quantifier.word)
  }

  lemma SameCondMeans(c: CondTree, d: CondTree)
    requires SameCond(c, d)
    ensures CondMeans(c) == CondMeans(d)
  {
    hide VerbMeans, Words, OperandMeans, AbsenceMeans, OperandKind, IntervalMeans;
  }

  lemma {:induction false} SameListMeans(l: CondList, k: CondList)
    requires SameList(l, k)
    ensures ListMeans(l) == ListMeans(k)
    decreases l
  {
    hide CondMeans, SameCond;
    SameCondMeans(l.c, k.c);
    match l {
      case LastCond(c) =>
      case MoreConds(c, and, rest) => SameListMeans(rest, k.rest);
    }
  }

  lemma SameClauseMeans(c: ClauseTree, d: ClauseTree, exceptions: bool)
    requires SameClause(c, d)
    ensures ClauseMeans(c, exceptions) == ClauseMeans(d, exceptions)
  {
    hide SameList, ListMeans, OpensScope, OpensExceptions;
    if c.Clause? {
      SameListMeans(c.conditions, d.conditions);
    }
  }

  /** The same sentence in other words says the very same rule. */
  lemma RewordedMeans(t: Tree, u: Tree, v: Vocabulary)
    requires Reworded(t, u)
    ensures TreeMeans(t, v) == TreeMeans(u, v)
  {
    hide SameList, SameClause, ListMeans, ClauseMeans, JoinClausesMean, ModalMeans, ShowMeans, AggregateMeans, Lower;
    SameClauseMeans(t.scope, u.scope, false);
    SameClauseMeans(t.exceptions, u.exceptions, true);
    if t.asked.OfARecord? {
      SameListMeans(t.asked.conditions, u.asked.conditions);
    }
  }

  /** A sentence that is taken is taken in other words as well, as the very same rule. */
  lemma RewordedIsTaken(texts: seq<string>, others: seq<string>, t: Tree, u: Tree, v: Vocabulary)
    requires Read(texts) == TreeTokens(t) && Read(others) == TreeTokens(u) && Reworded(t, u) && TreeMeans(t, v).Some?
    ensures Parse(Read(texts), v) == Done(TreeMeans(t, v).value, |texts|)
    ensures Parse(Read(others), v) == Done(TreeMeans(t, v).value, |others|)
  {
    hide Read, Plainly, Parse, TreeTokens, TreeMeans, Reworded;
    ReadIsPlain(texts);
    ReadIsPlain(others);
    RewordedMeans(t, u, v);
    TreeIsParsed(t, v);
    TreeIsParsed(u, v);
  }

  /** `is` before an operator's words changes nothing. */
  lemma IsIsOptional(ws: seq<Keyword>)
    requires BareVerb(ws).Some?
    ensures VerbMeans([IsWord] + ws) == VerbMeans(ws) == BareVerb(ws)
  {
    hide OneWordVerb, TwoWordVerb;
    assert ([IsWord] + ws)[1..] == ws;
    assert BareVerb([NotWord]).None?;
    VerbWordsAreNoOthers(ws[0], if |ws| == 2 then ws[1] else Other);
  }

  lemma OneWordMeans(w: Keyword)
    requires w != IsWord
    ensures VerbMeans([w]) == if w == NotWord then None else OneWordVerb(w)
    ensures VerbMeans([NotWord, w]) == if OneWordVerb(w).Some? then Opposite(OneWordVerb(w).value) else None
  {
    hide OneWordVerb, TwoWordVerb, Opposite;
    assert [NotWord, w][1..] == [w];
    assert [w][1..] == [];
  }

  lemma TwoWordsMean(first: Keyword, second: Keyword)
    requires first != IsWord && first != NotWord
    ensures VerbMeans([first, second]) == TwoWordVerb(first, second)
  {
    hide OneWordVerb, TwoWordVerb;
  }

  /** The operators that have more than one name. */
  lemma WaysToSayPresent()
    ensures VerbMeans([ExistsWord]) == VerbMeans([PresentWord]) == Some(Exists)
  {
    hide VerbMeans;
    OneWordMeans(ExistsWord);
    OneWordMeans(PresentWord);
  }

  lemma WaysToSayMissing()
    ensures VerbMeans([MissingWord]) == VerbMeans([NotWord, ExistsWord])
              == VerbMeans([NotWord, PresentWord]) == Some(NotExists)
  {
    hide VerbMeans;
    OneWordMeans(ExistsWord);
    OneWordMeans(PresentWord);
    OneWordMeans(MissingWord);
  }

  lemma WaysToSayMoreThan()
    ensures VerbMeans([GreaterWord, ThanWord]) == VerbMeans([MoreWord, ThanWord]) == Some(MoreThan)
  {
    hide VerbMeans;
    TwoWordsMean(GreaterWord, ThanWord);
    TwoWordsMean(MoreWord, ThanWord);
  }

  lemma WaysToSayMatching()
    ensures VerbMeans([MatchesWord]) == VerbMeans([MatchingWord]) == Some(MatchesIgnoreCase)
  {
    hide VerbMeans;
    OneWordMeans(MatchesWord);
    OneWordMeans(MatchingWord);
  }

  lemma WaysToSayUnresolved()
    ensures VerbMeans([UnresolvedWord]) == VerbMeans([NotWord, ResolvedWord]) == Some(ReferenceMissing)
  {
    hide VerbMeans;
    OneWordMeans(UnresolvedWord);
    OneWordMeans(ResolvedWord);
  }

  // ------------------------------------------------------------------ where `have` stands
  /** `may` or `not`, and `have` right after it. */
  predicate Pair(s: seq<Token>, i: nat)
  {
    i + 1 < |s| && s[i].word in {MayWord, NotWord} && s[i + 1].word == HaveWord
  }

  ghost predicate Unpaired(s: seq<Token>)
  {
    forall i: nat :: !Pair(s, i)
  }

  /** These tokens neither begin with `have` nor hold it after `may` or `not`. */
  ghost predicate Quiet(s: seq<Token>)
  {
    Unpaired(s) && (s != [] ==> s[0].word != HaveWord)
  }

  lemma Quietly(s: seq<Token>, rest: seq<Token>)
    requires Unpaired(s) && Quiet(rest)
    ensures Unpaired(s + rest)
    ensures Quiet(s) ==> Quiet(s + rest)
  {
    forall i: nat ensures !Pair(s + rest, i) {
      assert !Pair(s, i);
      if i >= |s| {
        assert !Pair(rest, i - |s|);
      }
    }
  }

  /** A name may be `have`, where the word before it is neither `may` nor `not`. */
  lemma NameIsQuiet(before: Token, s: seq<Token>)
    requires before.word !in {MayWord, NotWord, HaveWord} && Unpaired(s)
    ensures Quiet([before] + s)
  {
    forall i: nat ensures !Pair([before] + s, i) {
      if i > 0 {
        assert !Pair(s, i - 1);
      }
    }
  }

  lemma WordsAreQuiet(s: seq<Token>)
    requires HaveWord !in Words(s)
    ensures Quiet(s)
  {
    forall i | 0 <= i < |s| ensures s[i].word != HaveWord {
      assert Words(s)[i] == s[i].word;
    }
  }

  lemma VerbIsQuiet(s: seq<Token>)
    requires VerbMeans(Words(s)).Some?
    ensures Quiet(s)
  {
    var ws := Words(s);
    NoHaveInVerb(ws);
    WordsAreQuiet(s);
  }

  lemma NoHaveInVerb(ws: seq<Keyword>)
    requires VerbMeans(ws).Some?
    ensures HaveWord !in ws
  {
    hide OneWordVerb, TwoWordVerb;
    var bare := if ws[0] == IsWord then ws[1..] else ws;
    if bare != [] && bare != [NotWord] {
      var core := if bare[0] == NotWord then bare[1..] else bare;
      assert core != [] && PositiveVerb(core).Some?;
      NoHaveInCore(core);
      assert bare == if bare[0] == NotWord then [NotWord] + core else core;
    }
    assert ws == if ws[0] == IsWord then [IsWord] + bare else bare;
  }

  lemma NoHaveInCore(ws: seq<Keyword>)
    requires PositiveVerb(ws).Some?
    ensures HaveWord !in ws
  {
    if |ws| == 1 {
      assert ws == [ws[0]] && ws[0] != HaveWord;
    } else {
      assert ws == [ws[0], ws[1]] && ws[0] != HaveWord && ws[1] != HaveWord;
    }
  }

  lemma OperandIsQuiet(s: seq<Token>)
    requires OperandMeans(s).Some? && Plainly(s)
    ensures Quiet(s)
  {
    hide IsQuoted, IsNumber, HasDot;
    assert s == [s[0]] || s == [s[0], s[1]];
    assert s[0].word in {Other, TrueWord, FalseWord, SettingWord};
  }

  lemma ThreeAreQuiet(s: seq<Token>)
    requires Plainly(s) && IntervalMeans(s).Some?
    ensures Quiet(s)
  {
    assert s == [s[0], s[1], s[2]];
  }

  lemma ConditionIsQuiet(c: CondTree)
    requires Plainly(CondTokens(c)) && CondMeans(c).Some?
    ensures Quiet(CondTokens(c))
  {
    hide OperandMeans, AbsenceMeans, IntervalMeans, VerbMeans, OperandKind, Quiet, Plainly;
    PlainParts([c.field] + c.verb + c.operand, c.absence);
    PlainParts([c.field] + c.verb, c.operand);
    PlainParts([c.field], c.verb);
    FieldIsQuiet(c.field);
    VerbIsQuiet(c.verb);
    RestIsQuiet(c);
    QuietJoins([c.field], c.verb);
    QuietJoins([c.field] + c.verb, c.operand);
    QuietJoins([c.field] + c.verb + c.operand, c.absence);
  }

  lemma RestIsQuiet(c: CondTree)
    requires Plainly(c.operand) && CondMeans(c).Some?
    ensures Quiet(c.operand) && Quiet(c.absence)
  {
    hide OperandMeans, AbsenceMeans, IntervalMeans, VerbMeans, OperandKind, Plainly, Words;
    var op := VerbMeans(Words(c.verb)).value;
    match OperandKind(op) {
      case NoOperand =>
      case AnInterval => ThreeAreQuiet(c.operand);
      case OneOperand =>
        OperandIsQuiet(c.operand);
        AbsenceIsQuiet(c.absence);
    }
  }

  lemma AbsenceIsQuiet(s: seq<Token>)
    requires AbsenceMeans(Words(s)).Some?
    ensures Quiet(s)
  {
    WordsAreQuiet(s);
  }

  lemma FieldIsQuiet(t: Token)
    requires Plainly([t]) && HasDot(t.text)
    ensures Quiet([t])
  {
    assert [t][0] == t;
  }

  lemma QuietJoins(s: seq<Token>, rest: seq<Token>)
    requires Quiet(s) && Quiet(rest)
    ensures Quiet(s + rest)
  {
    Quietly(s, rest);
  }

  lemma PlainParts(s: seq<Token>, rest: seq<Token>)
    requires Plainly(s + rest)
    ensures Plainly(s) && Plainly(rest)
  {
    hide HasDot, IsQuoted, IsNumber, AllDigits;
    forall i | 0 <= i < |s|
      ensures (HasDot(s[i].text) || IsQuoted(s[i].text)
                || IsNumber(s[i].text) || (s[i].text != "" && AllDigits(s[i].text)))
              ==> s[i].word == Other
    {
      assert (s + rest)[i] == s[i];
    }
    forall i | 0 <= i < |rest|
      ensures (HasDot(rest[i].text) || IsQuoted(rest[i].text) || IsNumber(rest[i].text)
                || (rest[i].text != "" && AllDigits(rest[i].text))) ==> rest[i].word == Other
    {
      assert (s + rest)[|s| + i] == rest[i];
    }
  }

  lemma {:induction false} ListIsQuiet(l: CondList)
    requires Plainly(ListTokens(l)) && ListMeans(l).Some?
    ensures Quiet(ListTokens(l))
    decreases l
  {
    hide CondTokens, CondMeans, Quiet, Plainly;
    match l {
      case LastCond(c) => ConditionIsQuiet(c);
      case MoreConds(c, and, rest) =>
        PlainParts(CondTokens(c), [and] + ListTokens(rest));
        PlainParts([and], ListTokens(rest));
        ConditionIsQuiet(c);
        ListIsQuiet(rest);
        WordIsQuiet(and);
        QuietJoins([and], ListTokens(rest));
        QuietJoins(CondTokens(c), [and] + ListTokens(rest));
    }
  }

  lemma WordIsQuiet(t: Token)
    requires t.word != HaveWord
    ensures Quiet([t])
  {
  }

  /** Of a join only its first word can be `have`. */
  lemma JoinIsUnpaired(s: seq<Token>, kind: Kind, v: Vocabulary)
    requires Plainly(s) && JoinMeans(s, kind, v).Some?
    ensures Unpaired(s)
  {
    hide Plainly, HasDot, Lower, EntityOf, Unpaired;
    if s[0].word == TheWord {
      FieldIsOther(s, 3);
    } else if SaysKeys(s, 1) {
      FieldIsOther(s, 2);
      FieldIsOther(s, 4);
    } else {
      FieldIsOther(s, 5);
      FieldIsOther(s, 7);
    }
    OneHaveAtMost(s);
  }

  /** Where only the first word can be `have`. */
  lemma OneHaveAtMost(s: seq<Token>)
    requires forall i :: 1 <= i < |s| ==> s[i].word != HaveWord
    ensures Unpaired(s)
  {
  }

  lemma FieldIsOther(s: seq<Token>, i: nat)
    requires Plainly(s) && i < |s| && HasDot(s[i].text)
    ensures s[i].word == Other
  {
  }

  /** A list of joins, after the word it follows. */
  lemma {:induction false} JoinListIsQuiet(word: Token, j: JoinTree, kind: Kind, v: Vocabulary)
    requires Plainly(JoinTokens(j)) && JoinsMean(j, kind, v).Some? && word.word !in {MayWord, NotWord, HaveWord}
    ensures Quiet([word] + JoinTokens(j))
    decreases j
  {
    hide JoinMeans, Quiet, Plainly, Unpaired;
    match j {
      case LastJoin(s) =>
        JoinIsUnpaired(s, kind, v);
        NameIsQuiet(word, s);
      case MoreJoin(s, and, rest) =>
        PlainParts(s, [and] + JoinTokens(rest));
        PlainParts([and], JoinTokens(rest));
        JoinIsUnpaired(s, kind, v);
        NameIsQuiet(word, s);
        JoinListIsQuiet(and, rest, kind, v);
        QuietJoins([word] + s, [and] + JoinTokens(rest));
        assert [word] + (s + ([and] + JoinTokens(rest))) == ([word] + s) + ([and] + JoinTokens(rest));
    }
  }

  lemma {:induction false} JoinClausesAreQuiet(j: JoinClauseTree, v: Vocabulary)
    requires Plainly(JoinClauseTokens(j)) && JoinClausesMean(j, v).Some?
    ensures Quiet(JoinClauseTokens(j))
    decreases j
  {
    hide JoinTokens, JoinsMean, Plainly;
    match j {
      case NoJoins =>
      case JoinClause(word, joins, rest) =>
        PlainParts([word], JoinTokens(joins) + JoinClauseTokens(rest));
        PlainParts(JoinTokens(joins), JoinClauseTokens(rest));
        JoinListIsQuiet(word, joins, if word.word == CollectingWord then Collection else Lookup, v);
        JoinClausesAreQuiet(rest, v);
        QuietJoins([word] + JoinTokens(joins), JoinClauseTokens(rest));
        assert [word] + (JoinTokens(joins) + JoinClauseTokens(rest))
          == ([word] + JoinTokens(joins)) + JoinClauseTokens(rest);
    }
  }

  lemma ClauseIsQuiet(c: ClauseTree, exceptions: bool)
    requires Plainly(ClauseTokens(c)) && ClauseMeans(c, exceptions).Some?
    ensures Quiet(ClauseTokens(c))
  {
    hide ListTokens, ListMeans, Plainly;
    if c.Clause? {
      PlainParts(c.opening, ListTokens(c.conditions));
      WordsAreQuiet(c.opening);
      ListIsQuiet(c.conditions);
      QuietJoins(c.opening, ListTokens(c.conditions));
    }
  }

  lemma NoHaveIsQuiet(s: seq<Token>)
    requires forall i :: 0 <= i < |s| ==> s[i].word != HaveWord
    ensures Quiet(s)
  {
  }

  lemma AggregateIsQuiet(s: seq<Token>)
    requires Plainly(s) && AggregateMeans(s).Some?
    ensures Quiet(s)
  {
    hide HasDot, Plainly, AllDigits, NatOf, Quiet;
    if |s| == 9 {
      OverlapIsQuiet(s);
    } else {
      DigitsAreOther(s, 2);
      FieldIsOther(s, 3);
      FieldIsOther(s, 5);
      NoHaveIsQuiet(s);
    }
  }

  lemma OverlapIsQuiet(s: seq<Token>)
    requires Plainly(s) && |s| == 9 && AggregateMeans(s).Some?
    ensures Quiet(s)
  {
    hide HasDot, Plainly, Quiet;
    assert s[4..7][0] == s[4] && s[4..7][1] == s[5] && s[4..7][2] == s[6];
    FieldIsOther(s, 2);
    FieldIsOther(s, 4);
    FieldIsOther(s, 6);
    FieldIsOther(s, 8);
    NoHaveIsQuiet(s);
  }

  lemma DigitsAreOther(s: seq<Token>, i: nat)
    requires Plainly(s) && i < |s| && s[i].text != "" && AllDigits(s[i].text)
    ensures s[i].word == Other
  {
  }

  lemma AskedIsQuiet(a: AskedTree, modal: Modal)
    requires Plainly(AskedTokens(a)) && AskedMeans(a, modal).Some?
    ensures Quiet(AskedTokens(a))
  {
    hide ListTokens, ListMeans, Plainly, Quiet, AggregateMeans;
    match a {
      case OfARecord(conditions) => ListIsQuiet(conditions);
      case OfAGroup(s) => AggregateIsQuiet(s);
    }
  }

  lemma {:induction false} FieldsAreQuiet(f: FieldsTree)
    requires Plainly(FieldsTokens(f)) && FieldsMean(f).Some?
    ensures Quiet(FieldsTokens(f))
    decreases f
  {
    hide Plainly, Quiet, HasDot;
    match f {
      case LastField(t) => FieldIsQuiet(t);
      case MoreFields(t, and, rest) =>
        PlainParts([t], [and] + FieldsTokens(rest));
        PlainParts([and], FieldsTokens(rest));
        FieldIsQuiet(t);
        WordIsQuiet(and);
        FieldsAreQuiet(rest);
        QuietJoins([and], FieldsTokens(rest));
        QuietJoins([t], [and] + FieldsTokens(rest));
    }
  }

  lemma ShowIsQuiet(s: ShowTree)
    requires Plainly(ShowTokens(s)) && ShowMeans(s).Some?
    ensures Quiet(ShowTokens(s))
  {
    hide Plainly, FieldsTokens, FieldsMean;
    if s.Show? {
      PlainParts([s.word], FieldsTokens(s.fields));
      FieldsAreQuiet(s.fields);
      WordIsQuiet(s.word);
      QuietJoins([s.word], FieldsTokens(s.fields));
    }
  }

  /** What a sentence holds before its modal, and after it. */
  function Before(t: Tree): seq<Token>
  {
    [t.quantifier, t.subject] + (JoinClauseTokens(t.joins) + (ClauseTokens(t.scope) + ClauseTokens(t.exceptions)))
  }

  function Behind(t: Tree): seq<Token>
  {
    AskedTokens(t.asked) + ShowTokens(t.showing)
  }

  lemma AroundTheModal(t: Tree)
    ensures TreeTokens(t) == Before(t) + (t.modal + Behind(t))
  {
    hide JoinClauseTokens, ClauseTokens, AskedTokens, ShowTokens;
  }

  lemma BeforeIsUnpaired(t: Tree, v: Vocabulary)
    requires Plainly(TreeTokens(t)) && TreeMeans(t, v).Some?
    ensures Unpaired(Before(t))
  {
    hide JoinClauseTokens, ClauseTokens, AskedTokens, ShowTokens, Plainly, Quiet, Unpaired, TreeTokens,
      JoinClausesMean, ClauseMeans, ModalMeans, AskedMeans, ShowMeans, Lower;
    AroundTheModal(t);
    var clauses := ClauseTokens(t.scope) + ClauseTokens(t.exceptions);
    PlainParts(Before(t), t.modal + Behind(t));
    PlainParts([t.quantifier, t.subject], JoinClauseTokens(t.joins) + clauses);
    PlainParts(JoinClauseTokens(t.joins), clauses);
    PlainParts(ClauseTokens(t.scope), ClauseTokens(t.exceptions));
    JoinClausesAreQuiet(t.joins, v);
    ClauseIsQuiet(t.scope, false);
    ClauseIsQuiet(t.exceptions, true);
    QuietJoins(ClauseTokens(t.scope), ClauseTokens(t.exceptions));
    QuietJoins(JoinClauseTokens(t.joins), clauses);
    OpeningIsUnpaired(t.quantifier, t.subject);
    Quietly([t.quantifier, t.subject], JoinClauseTokens(t.joins) + clauses);
  }

  lemma OpeningIsUnpaired(quantifier: Token, subject: Token)
    requires IsQuantifier(quantifier.word)
    ensures Unpaired([quantifier, subject])
  {
  }

  lemma BehindIsQuiet(t: Tree, v: Vocabulary)
    requires Plainly(TreeTokens(t)) && TreeMeans(t, v).Some?
    ensures Quiet(Behind(t))
  {
    hide JoinClauseTokens, ClauseTokens, AskedTokens, ShowTokens, Plainly, Quiet, TreeTokens, Before,
      JoinClausesMean, ClauseMeans, ModalMeans, AskedMeans, ShowMeans, Lower;
    AroundTheModal(t);
    PlainParts(Before(t), t.modal + Behind(t));
    PlainParts(t.modal, Behind(t));
    PlainParts(AskedTokens(t.asked), ShowTokens(t.showing));
    AskedIsQuiet(t.asked, ModalMeans(Words(t.modal), t.quantifier.word).value);
    ShowIsQuiet(t.showing);
    QuietJoins(AskedTokens(t.asked), ShowTokens(t.showing));
  }

  /** In a sentence that is taken, `may have` and `not have` are its modal and stand nowhere else. */
  lemma PairIsModal(t: Tree, v: Vocabulary, i: nat)
    requires Plainly(TreeTokens(t)) && TreeMeans(t, v).Some? && Pair(TreeTokens(t), i)
    ensures i + 2 == |Before(t)| + |t.modal|
    ensures Words(t.modal) == if TreeTokens(t)[i].word == MayWord then [MayWord, HaveWord]
              else [MustWord, NotWord, HaveWord]
  {
    hide Plainly, Quiet, Unpaired, TreeTokens, TreeMeans, Before, Behind;
    AroundTheModal(t);
    BeforeIsUnpaired(t, v);
    BehindIsQuiet(t, v);
    ModalMeansSomething(t, v);
    PairInTheMiddle(Before(t), t.modal, Behind(t), i, t.quantifier.word);
  }

  lemma ModalMeansSomething(t: Tree, v: Vocabulary)
    requires TreeMeans(t, v).Some?
    ensures ModalMeans(Words(t.modal), t.quantifier.word).Some?
  {
    hide JoinClausesMean, ClauseMeans, ModalMeans, AskedMeans, ShowMeans, Lower;
  }

  lemma PairInTheMiddle(before: seq<Token>, modal: seq<Token>, behind: seq<Token>, i: nat, quantifier: Keyword)
    requires Unpaired(before) && Quiet(behind) && ModalMeans(Words(modal), quantifier).Some?
    requires Pair(before + (modal + behind), i)
    ensures i + 2 == |before| + |modal|
    ensures Words(modal)
         == if (before + (modal + behind))[i].word == MayWord then [MayWord, HaveWord]
           else [MustWord, NotWord, HaveWord]
  {
    hide Quiet, Unpaired, ModalMeans, Words;
    var all := before + (modal + behind);
    assert all == (before + modal) + behind;
    PairIsInFront(before + modal, behind, i);
    ModalOpens(modal, quantifier);
    PairIsInside(before, modal, i);
    var k := i - |before|;
    assert all[i] == modal[k] && all[i + 1] == modal[k + 1];
    PairOfModal(modal, quantifier, k);
  }

  lemma ModalOpens(modal: seq<Token>, quantifier: Keyword)
    requires ModalMeans(Words(modal), quantifier).Some?
    ensures modal != [] && modal[0].word != HaveWord
  {
    assert Words(modal)[0] == modal[0].word;
  }

  lemma PairIsInside(before: seq<Token>, modal: seq<Token>, i: nat)
    requires Unpaired(before) && Pair(before + modal, i) && modal != [] && modal[0].word != HaveWord
    ensures i >= |before|
  {
    assert !Pair(before, i);
  }

  lemma PairOfModal(modal: seq<Token>, quantifier: Keyword, k: nat)
    requires ModalMeans(Words(modal), quantifier).Some? && Pair(modal, k)
    ensures k + 2 == |modal|
    ensures Words(modal) == if modal[k].word == MayWord then [MayWord, HaveWord] else [MustWord, NotWord, HaveWord]
  {
    hide Words;
    WordAt(modal, k);
    WordAt(modal, k + 1);
  }

  lemma WordAt(s: seq<Token>, i: nat)
    requires i < |s|
    ensures |Words(s)| == |s| && Words(s)[i] == s[i].word
  {
  }

  lemma PairIsInFront(front: seq<Token>, behind: seq<Token>, i: nat)
    requires Quiet(behind) && Pair(front + behind, i)
    ensures Pair(front, i)
  {
    assert !Pair(behind, if i >= |front| then i - |front| else 0);
  }

  // ------------------------------------------------------------------ `no ... may have`
  /** Both are refused, or both are read as the same rule. */
  predicate ReadAlike(ts: seq<Token>, us: seq<Token>, v: Vocabulary)
  {
    && (Parse(ts, v).Done? <==> Parse(us, v).Done?)
    && (Parse(ts, v).Done? ==> Parse(ts, v).value == Parse(us, v).value)
  }

  /** One tree's modal and quantifier for another's. */
  lemma WithModal(t: Tree, v: Vocabulary, first: Token, middle: seq<Token>, modal: seq<Token>, after: seq<Token>,
                  quantifier: Token, said: seq<Token>)
    requires Plainly(TreeTokens(t)) && TreeMeans(t, v).Some? && TreeTokens(t) == [first] + middle + (modal + after)
    requires t.modal == modal && |Before(t)| == 1 + |middle| && IsQuantifier(quantifier.word)
    requires ModalMeans(Words(modal), first.word) == ModalMeans(Words(said), quantifier.word)
    ensures var u := t.(quantifier := quantifier, modal := said);
            TreeTokens(u) == [quantifier] + middle + (said + after) && TreeMeans(u, v) == TreeMeans(t, v)
  {
    hide Plainly, JoinClauseTokens, ClauseTokens, AskedTokens, ShowTokens, JoinClausesMean, ClauseMeans, ModalMeans,
      AskedMeans, ShowMeans, Lower, TreeTokens;
    var u := t.(quantifier := quantifier, modal := said);
    AroundTheModal(t);
    AroundTheModal(u);
    assert Before(t) == ([first] + middle + (modal + after))[..1 + |middle|] == [first] + middle;
    assert modal + Behind(t) == ([first] + middle + (modal + after))[1 + |middle|..] == modal + after;
    assert Behind(t) == (modal + after)[|modal|..] == after;
    assert Before(t)[0] == first;
    assert Before(u) == [quantifier] + Before(t)[1..];
  }

  lemma MayIsMustNot(ts: seq<Token>, us: seq<Token>, v: Vocabulary, no: Token, every: Token,
                     middle: seq<Token>, may: seq<Token>, must: seq<Token>, after: seq<Token>)
    requires Plainly(ts) && ts == [no] + middle + (may + after)
    requires Plainly(us) && us == [every] + middle + (must + after)
    requires no.word == NoWord && Words(may) == [MayWord, HaveWord]
    requires IsQuantifier(every.word) && Words(must) == [MustWord, NotWord, HaveWord]
    ensures ReadAlike(ts, us, v)
  {
    hide Plainly, Parse, TreeTokens, TreeMeans, Before;
    if Parse(ts, v).Done? {
      var t := ParsedIsTree(ts, v);
      ModalFound(t, v, no, middle, may, after);
      WithModal(t, v, no, middle, may, after, every, must);
      TreeIsParsed(t.(quantifier := every, modal := must), v);
    }
    if Parse(us, v).Done? {
      var t := ParsedIsTree(us, v);
      ModalFound(t, v, every, middle, must, after);
      WithModal(t, v, every, middle, must, after, no, may);
      TreeIsParsed(t.(quantifier := no, modal := may), v);
    }
  }

  lemma ModalFound(t: Tree, v: Vocabulary, first: Token, middle: seq<Token>, modal: seq<Token>, after: seq<Token>)
    requires Plainly(TreeTokens(t)) && TreeMeans(t, v).Some? && TreeTokens(t) == [first] + middle + (modal + after)
    requires Words(modal) == [MayWord, HaveWord] || Words(modal) == [MustWord, NotWord, HaveWord]
    ensures t.modal == modal && |Before(t)| == 1 + |middle|
  {
    hide Plainly, TreeTokens, TreeMeans, Before, Behind;
    var i := |middle| + |modal| - 1;
    var ts := TreeTokens(t);
    WordAt(modal, |modal| - 2);
    WordAt(modal, |modal| - 1);
    assert ts[i] == modal[|modal| - 2] && ts[i + 1] == modal[|modal| - 1];
    PairIsModal(t, v, i);
    AroundTheModal(t);
    assert t.modal == ts[|Before(t)|..|Before(t)| + |t.modal|];
    assert modal == ts[1 + |middle|..1 + |middle| + |modal|];
  }

  lemma ReadJoins(texts: seq<string>, rest: seq<string>)
    ensures Read(texts + rest) == Read(texts) + Read(rest)
  {
    hide KeywordOf;
  }

  /** The words these texts are. */
  predicate AreWords(texts: seq<string>, ws: seq<Keyword>)
  {
    |texts| == |ws| && forall i :: 0 <= i < |ws| ==> KeywordOf(texts[i]) == ws[i]
  }

  /** `no <subject> ... may have ...` is the very rule of `every <subject> ... must not have ...`, with
      any words between and after, and where one is refused so is the other. */
  lemma MayHaveForbids(no: string, every: string, middle: seq<string>, may: seq<string>, must: seq<string>,
                       after: seq<string>, v: Vocabulary)
    requires KeywordOf(no) == NoWord && AreWords(may, [MayWord, HaveWord])
    requires KeywordOf(every) in {EveryWord, EachWord, AllWord, NoWord} && AreWords(must, [MustWord, NotWord, HaveWord])
    ensures ReadAlike(Read([no] + middle + (may + after)), Read([every] + middle + (must + after)), v)
  {
    hide KeywordOf, Plainly, ReadAlike;
    ReadIsPlain([no] + middle + (may + after));
    ReadIsPlain([every] + middle + (must + after));
    ReadJoins([no] + middle, may + after);
    ReadJoins([every] + middle, must + after);
    ReadJoins([no], middle);
    ReadJoins([every], middle);
    ReadJoins(may, after);
    ReadJoins(must, after);
    assert Words(Read(may)) == [MayWord, HaveWord];
    assert Words(Read(must)) == [MustWord, NotWord, HaveWord];
    MayIsMustNot(Read([no] + middle + (may + after)), Read([every] + middle + (must + after)), v,
                 Read([no])[0], Read([every])[0], Read(middle), Read(may), Read(must), Read(after));
  }

  /** `may have` is refused where the sentence does not start with `no`. */
  lemma MayNeedsNo(texts: seq<string>, v: Vocabulary, i: nat)
    requires i + 1 < |texts| && KeywordOf(texts[i]) == MayWord && KeywordOf(texts[i + 1]) == HaveWord
    requires KeywordOf(texts[0]) != NoWord
    ensures !Parse(Read(texts), v).Done?
  {
    hide KeywordOf, Plainly, Parse, TreeTokens, TreeMeans, Before;
    var ts := Read(texts);
    ReadIsPlain(texts);
    if Parse(ts, v).Done? {
      var t := ParsedIsTree(ts, v);
      PairIsModal(t, v, i);
      ModalMeansSomething(t, v);
      AroundTheModal(t);
      FirstToken(t);
      assert false;
    }
  }

  lemma FirstToken(t: Tree)
    ensures TreeTokens(t)[0] == t.quantifier
  {
  }

  /** `every`, `each` and `all` are one word to the language. */
  lemma QuantifiersAreOne(first: string, other: string, rest: seq<string>, v: Vocabulary)
    requires KeywordOf(first) in {EveryWord, EachWord, AllWord} && KeywordOf(other) in {EveryWord, EachWord, AllWord}
    ensures ReadAlike(Read([first] + rest), Read([other] + rest), v)
  {
    hide KeywordOf, Plainly, TreeTokens, TreeMeans;
    var ts, us := Read([first] + rest), Read([other] + rest);
    ReadIsPlain([first] + rest);
    ReadIsPlain([other] + rest);
    ReadJoins([first], rest);
    ReadJoins([other], rest);
    if Parse(ts, v).Done? {
      OtherQuantifier(ts, us, v);
    }
    if Parse(us, v).Done? {
      OtherQuantifier(us, ts, v);
    }
  }

  lemma OtherQuantifier(ts: seq<Token>, us: seq<Token>, v: Vocabulary)
    requires |ts| == |us| > 0 && ts[1..] == us[1..] && Plainly(ts) && Plainly(us) && Parse(ts, v).Done?
    requires IsQuantifier(us[0].word) && (ts[0].word == NoWord ==> us[0].word == NoWord)
    ensures Parse(us, v).Done? && Parse(us, v).value == Parse(ts, v).value
  {
    hide Plainly, Parse, JoinClauseTokens, ClauseTokens, AskedTokens, ShowTokens, JoinClausesMean, ClauseMeans,
      AskedMeans,
      ShowMeans, Lower;
    var t := ParsedIsTree(ts, v);
    var u := t.(quantifier := us[0]);
    assert us == [us[0]] + us[1..] && TreeTokens(u) == [us[0]] + ts[1..];
    TreeIsParsed(u, v);
  }
}
