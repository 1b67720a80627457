/** Where every compilation ends: the deployment's half joined to the sentence's, and the whole put
    through the validator (hotelcontrols/compiler/grammar.py, hotelcontrols/compiler/problems.py). */
module Finish {
  import opened Basics
  import opened Rules
  import opened Tokens
  import opened Grammar
  import opened WellFormed
  import opened Printer
  import opened Parser
  import opened Checks
  import opened Compiler
  import opened Absences

  /** What a sentence cannot say. */
  const DEPLOYMENT_KEYS := {"control_id", "version", "name", "source_control", "population", "execution",
                            "freshness_requirement", "unknown_conditions", "action", "caveats"}

  /** What only the sentence may say. */
  const LOGIC_KEYS := {"entity", "references", "scope", "exceptions", "assertion", "required_evidence"}

  const SENTENCE_KEYS := {"natural_language", "restricted_language"}

  const OPTIONAL_KEYS := {"caveats"}

  /** The deployment's values are opaque. */
  type Deployment = map<string, string>

  /** A control as it is filed: the deployment's half, the rule with its evidence, and its sentence. */
  datatype Document = Document(deployment: Deployment, rule: Rule, evidence: seq<Evidence>, sentence: string)

  /** The rest of the validator, as functions of the document: its schema, and every check but those of
      `Checks`. `gaps` are the registered fields whose absence means unknown. */
  datatype Gate = Gate(gaps: set<string>, schema: Document -> seq<string>, others: Document -> seq<string>)

  datatype Complaint =
    | Unparsed
    | SentencesHalf(key: string) | NoPartOfIt(key: string) | StillNeeded(key: string)
    | Structural(problem: Problem) | Other(text: string)

  /** A validated document, or every reason there is none, or two readings. */
  datatype Compilation =
    | Compiled(document: Document)
    | Rejected(complaints: seq<Complaint>, logic: Option<Logic>)
    | Unclear

  // ------------------------------------------------------------------ the specification
  /** What whoever deploys a rule must give. */
  predicate MustGive(key: string)
  {
    || key == "control_id" || key == "version" || key == "name" || key == "source_control" || key == "population"
    || key == "execution" || key == "freshness_requirement" || key == "unknown_conditions" || key == "action"
  }

  /** What the sentence says of itself. */
  predicate IsSentences(key: string)
  {
    || key == "entity" || key == "references" || key == "scope" || key == "exceptions" || key == "assertion"
    || key == "required_evidence" || key == "natural_language" || key == "restricted_language"
  }

  lemma KeysMean(d: Deployment)
    ensures forall key :: key in Needed(d) <==> MustGive(key) && key !in d
    ensures forall key :: key in Owned(d) <==> key in d && IsSentences(key)
    ensures forall key :: key in Foreign(d) <==> key in d && !MustGive(key) && key != "caveats"
  {
  }

  function Owned(d: Deployment): set<string>
  {
    d.Keys * (LOGIC_KEYS + SENTENCE_KEYS)
  }

  function Foreign(d: Deployment): set<string>
  {
    d.Keys - DEPLOYMENT_KEYS
  }

  function Needed(d: Deployment): set<string>
  {
    DEPLOYMENT_KEYS - OPTIONAL_KEYS - d.Keys
  }

  /** The deployment says what is its to say, and all that is needed. */
  predicate Whole(d: Deployment)
  {
    Owned(d) == {} && Foreign(d) == {} && Needed(d) == {}
  }

  function FieldsIn(evidence: seq<Evidence>): set<string>
  {
    set e | e in evidence :: e.field
  }

  ghost predicate Valid(gate: Gate, doc: Document)
  {
    gate.schema(doc) == [] && gate.others(doc) == [] && Passes(doc.rule, FieldsIn(doc.evidence), gate.gaps)
  }

  /** The half of a document that a sentence cannot say. */
  function DeploymentOf(d: Deployment): Deployment
  {
    map key | key in d && key in DEPLOYMENT_KEYS :: d[key]
  }

  function DocumentOf(l: Logic, registry: Registry, sentence: string, d: Deployment): Document
  {
    Document(DeploymentOf(d), l.rule, EvidenceOf(l, registry), sentence)
  }

  ghost predicate Accepts(sentence: string, v: Vocabulary, registry: Registry, gate: Gate, d: Deployment)
  {
    Compile(sentence, v).Done? && Whole(d) && Valid(gate, DocumentOf(Compile(sentence, v).value, registry, sentence, d))
  }

  // ------------------------------------------------------------------ as it runs
  /** One complaint for each of these keys. */
  method ComplainOf(keys: set<string>, complain: string -> Complaint) returns (complaints: seq<Complaint>)
    ensures complaints == [] <==> keys == {}
    ensures forall c :: c in complaints <==> exists key :: key in keys && c == complain(key)
  {
    complaints := [];
    var left := keys;
    while left != {}
      invariant left <= keys
      invariant complaints == [] <==> left == keys
      invariant forall c :: c in complaints <==> exists key :: key in keys - left && c == complain(key)
      decreases left
    {
      var key :| key in left;
      assert key in keys - (left - {key});
      complaints := complaints + [complain(key)];
      left := left - {key};
    }
  }

  /** Everything wrong with what the deployment carries. */
  method CheckDeployment(d: Deployment) returns (complaints: seq<Complaint>)
    ensures complaints == [] <==> Whole(d)
    ensures forall c :: c in complaints <==>
              || (c.SentencesHalf? && c.key in Owned(d))
              || (c.NoPartOfIt? && c.key in Foreign(d))
              || (c.StillNeeded? && c.key in Needed(d))
    ensures forall key :: StillNeeded(key) in complaints <==> MustGive(key) && key !in d
    ensures forall key :: SentencesHalf(key) in complaints <==> key in d && IsSentences(key)
    ensures forall key :: NoPartOfIt(key) in complaints <==> key in d && !MustGive(key) && key != "caveats"
  {
    KeysMean(d);
    hide Owned, Foreign, Needed;
    var owned := ComplainOf(Owned(d), key => SentencesHalf(key));
    var foreigners := ComplainOf(Foreign(d), key => NoPartOfIt(key));
    var needed := ComplainOf(Needed(d), key => StillNeeded(key));
    complaints := owned + foreigners + needed;
  }

  function OthersIn(texts: seq<string>): (complaints: seq<Complaint>)
    ensures |complaints| == |texts| && forall i :: 0 <= i < |texts| ==> complaints[i] == Other(texts[i])
  {
    seq(|texts|, i requires 0 <= i < |texts| => Other(texts[i]))
  }

  function Structurals(problems: seq<Problem>): (complaints: seq<Complaint>)
    ensures |complaints| == |problems| && forall i :: 0 <= i < |problems| ==> complaints[i] == Structural(problems[i])
  {
    seq(|problems|, i requires 0 <= i < |problems| => Structural(problems[i]))
  }

  /** `validate`: the schema first, and nothing else of a document that breaks it. */
  method Validate(doc: Document, gate: Gate) returns (complaints: seq<Complaint>)
    ensures complaints == [] <==> Valid(gate, doc)
    ensures gate.schema(doc) != [] ==> complaints == OthersIn(gate.schema(doc))
    ensures forall c :: c in complaints ==> c.Structural? || c.Other?
  {
    hide Passes;
    var schema := gate.schema(doc);
    if schema != [] {
      return OthersIn(schema);
    }
    var problems := CheckStructure(doc.rule, FieldsIn(doc.evidence), gate.gaps);
    complaints := Structurals(problems) + OthersIn(gate.others(doc));
  }

  /** `finish`: the deployment checked, the two halves joined, and only a whole document validated. */
  method FinishIt(l: Logic, registry: Registry, sentence: string, d: Deployment, gate: Gate, evidence: seq<Evidence>)
    returns (r: Compilation)
    requires evidence == EvidenceOf(l, registry)
    ensures r.Compiled? <==> Whole(d) && Valid(gate, DocumentOf(l, registry, sentence, d))
    ensures r.Compiled? ==> r.document == DocumentOf(l, registry, sentence, d)
    ensures !r.Compiled? ==> r.Rejected? && r.logic == Some(l) && r.complaints != []
    ensures r.Rejected? && Whole(d) ==> forall c :: c in r.complaints ==> c.Structural? || c.Other?
    ensures r.Rejected? && !Whole(d) ==>
              forall c :: c in r.complaints <==>
                || (c.SentencesHalf? && c.key in Owned(d))
                || (c.NoPartOfIt? && c.key in Foreign(d))
                || (c.StillNeeded? && c.key in Needed(d))
  {
    hide Owned, Foreign, Needed, EvidenceOf, Valid;
    var complaints := CheckDeployment(d);
    var doc := Document(DeploymentOf(d), l.rule, evidence, sentence);
    if complaints == [] {
      complaints := Validate(doc, gate);
    }
    r := if complaints != [] then Rejected(complaints, Some(l)) else Compiled(doc);
  }

  /** `compile`: one sentence, and a validated document or every reason there is none. */
  method CompileDocument(sentence: string, v: Vocabulary, registry: Registry, d: Deployment, gate: Gate)
    returns (r: Compilation)
    ensures r.Compiled? <==> Accepts(sentence, v, registry, gate, d)
    ensures r.Compiled? ==> r.document == DocumentOf(Compile(sentence, v).value, registry, sentence, d)
    ensures r.Unclear? <==> Compile(sentence, v).Ambiguous?
    ensures Compile(sentence, v).Refused? ==> r == Rejected([Unparsed], None)
    ensures Compile(sentence, v).Done? && r.Rejected? ==> r.logic == Some(Compile(sentence, v).value)
  {
    hide Compile, Whole, Valid, DocumentOf, EvidenceOf;
    var step := CompileSentence(sentence, v, registry);
    match step {
      case Raised(ambiguous) =>
        r := if ambiguous then Unclear else Rejected([Unparsed], None);
      case Took((l, evidence)) =>
        r := FinishIt(l, registry, sentence, d, gate, evidence);
    }
  }

  // ------------------------------------------------------------------ what is accepted
  lemma DeclaredFields(l: Logic, registry: Registry)
    ensures FieldsIn(EvidenceOf(l, registry)) == set n | n in Once(NamesInOrder(l))
  {
    hide NamesInOrder, Once;
    var evidence, names := EvidenceOf(l, registry), Once(NamesInOrder(l));
    forall n | n in names
      ensures n in FieldsIn(evidence)
    {
      var i :| 0 <= i < |names| && names[i] == n;
      assert evidence[i] in evidence && evidence[i].field == n;
    }
  }

  /** Over all sentences and deployments: a document comes of it exactly when the sentence parses, the
      deployment is whole, each absence phrase stands after an ordering and its operand, of a field
      whose absence is a fact, and the rest of the validator finds nothing. Of the structural checks
      only the ninth can refuse a sentence that parses. */
  lemma AcceptsIff(sentence: string, v: Vocabulary, registry: Registry, gate: Gate, d: Deployment)
    ensures Accepts(sentence, v, registry, gate, d) <==>
              && Compile(sentence, v).Done? && Whole(d) && WellPlaced(TokensOf(sentence))
              && var l := Compile(sentence, v).value;
                 var doc := DocumentOf(l, registry, sentence, d);
                 && (forall p :: p in AllPredicates(l.rule) && p.absent.Some? ==> p.field !in gate.gaps)
                 && gate.schema(doc) == [] && gate.others(doc) == []
  {
    hide Parse, Whole, WellPlaced, Passes, EvidenceOf, NamesInOrder, Once, FieldsIn, TokensOf;
    if Compile(sentence, v).Done? {
      AcceptedPassesIff(TokensOf(sentence), v, gate.gaps);
      DeclaredFields(Compile(sentence, v).value, registry);
    }
  }

  /** A filed control is its own source: taken apart and compiled again, its sentence and its
      deployment give back the very document. */
  lemma CompilesAgain(sentence: string, v: Vocabulary, registry: Registry, gate: Gate, d: Deployment)
    requires Accepts(sentence, v, registry, gate, d)
    ensures var doc := DocumentOf(Compile(sentence, v).value, registry, sentence, d);
            && Accepts(doc.sentence, v, registry, gate, DeploymentOf(doc.deployment))
            && DocumentOf(Compile(doc.sentence, v).value, registry, doc.sentence, DeploymentOf(doc.deployment)) == doc
  {
    hide Compile, Valid, EvidenceOf, DEPLOYMENT_KEYS, LOGIC_KEYS, SENTENCE_KEYS, OPTIONAL_KEYS;
    assert DeploymentOf(d) == d;
  }

  /** And so does the rule written out: the same document but for the words of its sentence, wherever
      the rest of the validator does not judge the words. */
  lemma CompilesFromItsWords(sentence: string, v: Vocabulary, registry: Registry, gate: Gate, d: Deployment)
    requires Accepts(sentence, v, registry, gate, d) && AllLexable(TokensOf(sentence))
    requires forall doc: Document, words: string ::
               gate.schema(doc.(sentence := words)) == gate.schema(doc)
               && gate.others(doc.(sentence := words)) == gate.others(doc)
    ensures var l := Compile(sentence, v).value;
            var words := Write(l) + ".";
            && Accepts(words, v, registry, gate, d)
            && DocumentOf(Compile(words, v).value, registry, words, d)
               == DocumentOf(l, registry, sentence, d).(sentence := words)
  {
    hide Compile, EvidenceOf, Write, Print, TokensOf, Passes, Whole;
    NormalForm(sentence, v);
    var l := Compile(sentence, v).value;
    var words := Write(l) + ".";
    var doc := DocumentOf(l, registry, sentence, d);
    assert DocumentOf(l, registry, words, d) == doc.(sentence := words);
  }
}
