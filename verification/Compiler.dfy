/** From a sentence to a rule and back (hotelcontrols/compiler/grammar.py). */
module Compiler {
  import opened Basics
  import opened Texts
  import opened Rules
  import opened Tokens
  import opened Keywords
  import opened Grammar
  import opened WellFormed
  import opened Printer
  import opened Checks
  import opened Parser

  function Compile(sentence: string, v: Vocabulary): Parsed<Logic>
  {
    Parse(Read(TokensOf(sentence)), v)
  }

  /** A rule as a sentence, without its full stop. */
  function Write(l: Logic): string
  {
    Sentence(TextsOf(Print(l)))
  }

  function TextsOf(ps: seq<Piece>): (texts: seq<string>)
    ensures |texts| == |ps| && forall i :: 0 <= i < |ps| ==> texts[i] == TextOf(ps[i])
  {
    seq(|ps|, i requires 0 <= i < |ps| => TextOf(ps[i]))
  }

  // ------------------------------------------------------------------ what is written can be read
  /** A piece the tokenizer and the keyword table give back as it was meant. */
  predicate Sayable(p: Piece)
  {
    match p
    case Key(k) => k != Other
    case Text(text) => Lexable(text) && KeywordOf(text) == Other
    case Name(text) => Lexable(text)
  }

  predicate AllSayable(ps: seq<Piece>)
  {
    forall p :: p in ps ==> Sayable(p)
  }

  lemma SayableReads(p: Piece)
    requires Sayable(p)
    ensures Lexable(TextOf(p)) && ReadsAs(p, Token(TextOf(p), KeywordOf(TextOf(p))))
  {
    match p {
      case Key(k) =>
        SpellingIsLexable(k);
        Spelled(k);
        LettersAreNoNumber(Spelling(k));
      case Text(text) =>
      case Name(text) =>
    }
  }

  lemma LettersAreNoNumber(t: string)
    requires Letters(t) && t != ""
    ensures !IsQuoted(t) && !IsNumber(t)
  {
    assert 'a' <= t[0] <= 'z';
    assert PointAt(t) > 0 ==> t[..PointAt(t)][0] == t[0];
  }

  lemma FieldIsSayable(f: string)
    requires HasDot(f) && Lexable(f)
    ensures Sayable(Text(f))
  {
    var i :| 0 <= i < |f| && f[i] == '.';
    NotKeyword(f, i);
  }

  lemma NumberIsSayable(t: string)
    requires IsNumber(t) && Lexable(t)
    ensures Sayable(Text(t))
  {
    var body := if t != "" && t[0] == '-' then t[1..] else t;
    assert IsDigit(body[..PointAt(body)][0]);
    NotKeyword(t, 0);
  }

  lemma WholeIsSayable(n: int)
    ensures Sayable(Text(IntText(n)))
  {
    var t := IntText(n);
    var digits := if n < 0 then NatText(-n) else NatText(n);
    assert IsDigit(digits[0]);
    assert forall i :: 0 <= i < |t| ==> t[i] == '-' || IsDigit(t[i]);
    WholeIsNumber(n);
    NumberIsSayable(t);
  }

  lemma QuotedIsSayable(t: string)
    requires IsQuoted(t) && Lexable(t)
    ensures Sayable(Text(t))
  {
    NotKeyword(t, 0);
  }

  lemma Together(a: seq<Piece>, b: seq<Piece>)
    requires AllSayable(a) && AllSayable(b)
    ensures AllSayable(a + b)
  {
  }

  lemma IntervalIsSayable(i: Interval)
    requires WFInterval(Some(i), LexableText())
    ensures AllSayable(IntervalTokens(i))
  {
    FieldIsSayable(i.start);
    FieldIsSayable(i.end);
  }

  lemma LiteralIsSayable(l: RuleLiteral)
    requires WFLiteral(l, LexableText())
    ensures AllSayable(LiteralTokens(l))
  {
    match l {
      case TextLiteral(s) => QuotedIsSayable("\"" + s + "\"");
      case WholeLiteral(n) => WholeIsSayable(n);
      case DecimalLiteral(text) => NumberIsSayable(text);
      case TruthLiteral(b) =>
    }
  }

  lemma OperandIsSayable(p: Predicate)
    requires WFCondition(p, LexableText())
    ensures AllSayable(OperandTokens(p))
  {
    hide Sayable, IsNumber, KeywordOf, Lexable, IntervalTokens, LiteralTokens;
    match OperandKind(p.operator) {
      case NoOperand =>
      case AnInterval => IntervalIsSayable(p.interval.value);
      case OneOperand =>
        SideIsSayable(p);
        AbsenceIsSayable(p.absent);
        Together(SideTokens(SideOf(p)), AbsenceTokens(p.absent));
    }
  }

  lemma SideIsSayable(p: Predicate)
    requires OneSide(p, LexableText())
    ensures AllSayable(SideTokens(SideOf(p)))
  {
    hide IsNumber, KeywordOf, Lexable, LiteralTokens;
    if p.value.Some? {
      LiteralIsSayable(p.value.value);
    } else if p.compareTo.Some? {
      assert Lexable(p.compareTo.value);
      FieldIsSayable(p.compareTo.value);
    } else {
      assert Lexable(p.tenantSetting.value);
    }
  }

  lemma AbsenceIsSayable(absent: Option<bool>)
    ensures AllSayable(AbsenceTokens(absent))
  {
  }

  lemma PhraseIsSayable(op: Operator)
    ensures AllSayable(IsTokens(op)) && AllSayable(PhraseTokens(op))
  {
  }

  lemma ConditionIsSayable(p: Predicate)
    requires WFCondition(p, LexableText())
    ensures AllSayable(ConditionTokens(p))
  {
    hide AllSayable, OperandTokens, PhraseTokens, IsTokens;
    FieldIsSayable(p.field);
    OneSayable(Text(p.field));
    PhraseIsSayable(p.operator);
    OperandIsSayable(p);
    Together([Text(p.field)], IsTokens(p.operator));
    Together(PhraseTokens(p.operator), OperandTokens(p));
    Together([Text(p.field)] + IsTokens(p.operator), PhraseTokens(p.operator) + OperandTokens(p));
  }

  lemma OneSayable(p: Piece)
    requires Sayable(p)
    ensures AllSayable([p])
  {
  }

  lemma {:induction false} ConditionsAreSayable(ps: seq<Predicate>)
    requires WFConditions(ps, LexableText())
    ensures AllSayable(ConditionsTokens(ps))
  {
    hide AllSayable, ConditionTokens, WFCondition;
    if ps == [] {
      NothingSayable();
    } else {
      ConditionIsSayable(ps[0]);
      if |ps| > 1 {
        ConditionsAreSayable(ps[1..]);
        OneSayable(Key(AndWord));
        Together([Key(AndWord)], ConditionsTokens(ps[1..]));
        Together(ConditionTokens(ps[0]), [Key(AndWord)] + ConditionsTokens(ps[1..]));
      }
    }
  }

  lemma NothingSayable()
    ensures AllSayable([])
  {
  }

  lemma ClauseIsSayable(k: Keyword, ps: seq<Predicate>)
    requires k != Other && WFConditions(ps, LexableText())
    ensures AllSayable(ClauseTokens(k, ps))
  {
    hide ConditionsTokens, WFConditions;
    ConditionsAreSayable(ps);
    OneSayable(Key(k));
    Together([Key(k)], ConditionsTokens(ps));
  }

  lemma ReferenceIsSayable(r: Reference, v: Vocabulary)
    requires WFReference(r, v, LexableText())
    ensures AllSayable(ReferenceTokens(r))
  {
    hide Lexable, KeywordOf, HasDot;
    if r.kind.ValueSet? {
      FieldIsSayable(r.setField.value);
    } else {
      assert Lexable(r.entity) && Lexable(r.localField.value) && Lexable(r.remoteField.value);
      FieldIsSayable(r.localField.value);
      FieldIsSayable(r.remoteField.value);
      Together(SourceTokens(r.fromTenant), KeyTokens(r));
      Together([Name(r.entity)], SourceTokens(r.fromTenant) + KeyTokens(r));
    }
  }

  lemma {:induction false} ReferencesAreSayable(rs: seq<Reference>, v: Vocabulary)
    requires WFReferences(rs, v, LexableText())
    ensures AllSayable(ReferencesTokens(rs))
  {
    hide WFReference, ReferenceTokens;
    if rs != [] {
      ReferenceIsSayable(rs[0], v);
      ReferencesAreSayable(rs[1..], v);
    }
  }

  lemma AggregateIsSayable(p: Predicate, key: string)
    requires WFAggregate(p, LexableText()) && WFField(key, LexableText())
    ensures AllSayable(AggregateTokens(p, key))
  {
    hide Lexable, KeywordOf, HasDot, IntervalTokens;
    FieldIsSayable(p.field);
    FieldIsSayable(key);
    if p.operator.CountLte? {
      WholeIsSayable(LimitOf(p));
    } else {
      IntervalIsSayable(p.interval.value);
      Together(IntervalTokens(p.interval.value), [Key(PerWord), Text(key)]);
    }
  }

  lemma AssertionIsSayable(a: Assertion)
    requires WFAssertion(a, LexableText())
    ensures AllSayable(AssertionTokens(a))
  {
    hide AggregateTokens, ConditionsTokens, WFAggregate, WFCondition, Lexable;
    if a.mode.Aggregate? {
      AggregateIsSayable(a.predicates[0], a.groupBy.value);
    } else {
      ConditionsAreSayable(a.predicates);
    }
  }

  lemma {:induction false} FieldsAreSayable(fs: seq<string>)
    requires WFFields(fs, LexableText())
    ensures AllSayable(FieldsTokens(fs))
  {
    hide Lexable, KeywordOf, HasDot;
    if fs != [] {
      assert WFField(fs[0], LexableText());
      FieldIsSayable(fs[0]);
      FieldsAreSayable(fs[1..]);
    }
  }

  lemma PrintIsSayable(l: Logic, v: Vocabulary)
    requires WFLogic(l, v, LexableText())
    ensures AllSayable(Print(l))
  {
    hide AllSayable, ReferencesTokens, ClauseTokens, AssertionTokens, ShowingTokens, FieldsTokens;
    hide WFReferences, WFConditions, WFAssertion, WFFields, Lexable;
    assert Lexable(l.rule.entity);
    ShowingIsSayable(l.showing);
    AssertionIsSayable(l.rule.assertion);
    ClauseIsSayable(UnlessWord, l.rule.exceptions);
    ClauseIsSayable(WhereWord, l.rule.scope);
    ReferencesAreSayable(l.rule.references, v);
    HeadIsSayable(l.rule.entity);
    var scope, exceptions := ClauseTokens(WhereWord, l.rule.scope), ClauseTokens(UnlessWord, l.rule.exceptions);
    var assertion, showing := AssertionTokens(l.rule.assertion), ShowingTokens(l.showing);
    Together(assertion, showing);
    Together(exceptions, assertion + showing);
    Together(scope, exceptions + (assertion + showing));
    Together(ReferencesTokens(l.rule.references), ClausesTokens(l));
    Together([Key(EveryWord), Name(l.rule.entity)], ReferencesTokens(l.rule.references) + ClausesTokens(l));
  }

  lemma HeadIsSayable(entity: string)
    requires Lexable(entity)
    ensures AllSayable([Key(EveryWord), Name(entity)])
  {
  }

  lemma ShowingIsSayable(fs: seq<string>)
    requires WFFields(fs, LexableText())
    ensures AllSayable(ShowingTokens(fs))
  {
    hide FieldsTokens, WFFields;
    FieldsAreSayable(fs);
  }

  lemma SayableStands(ps: seq<Piece>)
    requires AllSayable(ps)
    ensures AllLexable(TextsOf(ps)) && Stands(Read(TextsOf(ps)), 0, ps)
  {
    hide Sayable, ReadsAs, KeywordOf, Lexable, TextOf;
    var ts := Read(TextsOf(ps));
    forall i: nat | i < |ps| ensures Lexable(TextsOf(ps)[i]) && StandsOne(ts, 0, ps, i) {
      assert ps[i] in ps;
      SayableReads(ps[i]);
    }
  }

  // ------------------------------------------------------------------ the round trip
  /** Compiling a written rule gives back exactly that rule and uses every token: always when the
      sentence ends in its full stop, and without one when its last word does not. */
  lemma CompileUndoesWrite(l: Logic, v: Vocabulary)
    requires WFLogic(l, v, LexableText())
    ensures Compile(Write(l) + ".", v) == Done(l, |Print(l)|)
    ensures Write(l) != ""
    ensures Write(l)[|Write(l)| - 1] != '.' ==> Compile(Write(l), v) == Done(l, |Print(l)|)
  {
    hide WFLogic, Lexable, Parse, AllSayable, Stands;
    var texts := TextsOf(Print(l));
    PrintIsSayable(l, v);
    SayableStands(Print(l));
    SentenceEnds(texts);
    TokensOfSentence(texts);
    ParsePrinted(Read(texts), l, v, LexableText());
  }

  /** Every sentence the compiler accepts has a normal form that compiles to the same rule. */
  lemma NormalForm(sentence: string, v: Vocabulary)
    requires AllLexable(TokensOf(sentence)) && Compile(sentence, v).Done?
    ensures var l := Compile(sentence, v).value;
            Compile(Write(l) + ".", v) == Done(l, |Print(l)|)
  {
    hide Lexable, Parse, Print;
    var texts := TokensOf(sentence);
    ReadIsMadeOf(texts);
    AcceptedIsWellFormed(Read(texts), v, LexableText());
    CompileUndoesWrite(Compile(sentence, v).value, v);
  }

  /** Two rules written the same are the same rule. */
  lemma WriteIsInjective(a: Logic, b: Logic, v: Vocabulary)
    requires WFLogic(a, v, LexableText()) && WFLogic(b, v, LexableText()) && Write(a) == Write(b)
    ensures a == b
  {
    hide WFLogic, Print, Compile;
    CompileUndoesWrite(a, v);
    CompileUndoesWrite(b, v);
  }

  // ------------------------------------------------------------------ the compiler as it runs
  /** A field the rule needs, whether the hotel rather than the provider supplies it, and - of a
      field the registry has - whether any provider can. */
  datatype Evidence = Evidence(field: string, fromTenant: bool, resolvable: Option<bool>)

  /** The registered fields, and which of them some provider can supply. */
  type Registry = map<string, bool>

  function TenantEntities(references: seq<Reference>): set<string>
  {
    set r | r in references && r.fromTenant :: r.entity
  }

  function EntryOf(l: Logic, registry: Registry, name: string): Evidence
  {
    Evidence(name, EntityOf(name) in TenantEntities(l.rule.references), if name in registry then Some(registry[name])
      else None)
  }

  /** The declaration a sentence stands for: its fields, once each, in the order it names them. */
  function EvidenceOf(l: Logic, registry: Registry): (evidence: seq<Evidence>)
    ensures |evidence| == |Once(NamesInOrder(l))|
    ensures forall i :: 0 <= i < |evidence| ==> evidence[i] == EntryOf(l, registry, Once(NamesInOrder(l))[i])
  {
    var names := Once(NamesInOrder(l));
    seq(|names|, i requires 0 <= i < |names| => EntryOf(l, registry, names[i]))
  }

  method DeriveEvidence(l: Logic, registry: Registry) returns (evidence: seq<Evidence>)
    ensures evidence == EvidenceOf(l, registry)
  {
    hide NamesInOrder, Once;
    var entities := TenantEntities(l.rule.references);
    var names := FieldsInOrder(l);
    evidence := [];
    for i := 0 to |names|
      invariant |evidence| == i
      invariant forall j :: 0 <= j < i ==> evidence[j] == EntryOf(l, registry, names[j])
    {
      var entry := Evidence(names[i], EntityOf(names[i]) in entities, None);
      if names[i] in registry {
        entry := entry.(resolvable := Some(registry[names[i]]));
      }
      evidence := evidence + [entry];
    }
  }

  /** What the declaration says: each field the rule needs exactly once, the hotel's exactly when a
      reference from the hotel joins its entity, unresolvable exactly when the registry says so. */
  lemma EvidenceSays(l: Logic, registry: Registry)
    ensures var evidence := EvidenceOf(l, registry);
            && (forall i, j :: 0 <= i < j < |evidence| ==> evidence[i].field != evidence[j].field)
            && (forall n :: n != "" && n in NamesInOrder(l) <==> exists e :: e in evidence && e.field == n)
            && (forall e :: e in evidence ==>
                  (e.fromTenant <==>
                     exists r :: r in l.rule.references && r.fromTenant && r.entity == EntityOf(e.field)))
            && (forall e :: e in evidence ==>
                  (e.resolvable == Some(false) <==> e.field in registry && !registry[e.field]))
  {
    hide NamesInOrder, Once, EntityOf;
    var evidence, names := EvidenceOf(l, registry), Once(NamesInOrder(l));
    OnceMeans(NamesInOrder(l));
    forall n | n != "" && n in NamesInOrder(l)
      ensures exists e :: e in evidence && e.field == n
    {
      var i :| 0 <= i < |names| && names[i] == n;
      assert evidence[i] in evidence && evidence[i].field == n;
    }
    forall e | e in evidence
      ensures e.field in names && e == EntryOf(l, registry, e.field)
    {
      var i :| 0 <= i < |evidence| && evidence[i] == e;
    }
  }

  method CompileSentence(sentence: string, v: Vocabulary, registry: Registry) returns (r: Step<(Logic, seq<Evidence>)>)
    ensures match Compile(sentence, v)
            case Done(l, _) => r == Took((l, EvidenceOf(l, registry)))
            case Refused => r == Raised(false)
            case Ambiguous => r == Raised(true)
  {
    hide Parse, EvidenceOf;
    var cursor := new Cursor(sentence, v);
    var l :- cursor.ParseSentence();
    var evidence := DeriveEvidence(l, registry);
    r := Took((l, evidence));
  }
}
