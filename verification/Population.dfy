/** Questions about a group of records (hotelcontrols/evaluator/population.py). */
module Population {
  import opened Basics
  import opened Texts
  import opened Values
  import opened Rules
  import opened Bundles
  import opened Predicates
  import opened Judgements
  import opened Collections
  import opened Records

  // ------------------------------------------------------------------ step 1: scope and exceptions
  function Answers(clause: seq<Predicate>, b: Bundle, s: Settings): (hs: seq<Holds>)
    ensures |hs| == |clause| && forall k :: 0 <= k < |hs| ==> hs[k] == Evaluate(clause[k], b, s)
  {
    seq(|clause|, k requires 0 <= k < |clause| => Evaluate(clause[k], b, s))
  }

  /** The first answer from `i` on that does not let a record through. */
  function FirstBreak(hs: seq<Holds>, through: Holds, i: nat): (k: nat)
    requires i <= |hs|
    ensures i <= k <= |hs|
    ensures forall j :: i <= j < k ==> hs[j] == through
    ensures k < |hs| ==> hs[k] != through
    decreases |hs| - i
  {
    if i < |hs| && hs[i] == through then FirstBreak(hs, through, i + 1) else i
  }

  function Broken(hs: seq<Holds>, through: Holds): Option<Outcome>
  {
    var k := FirstBreak(hs, through, 0);
    if k == |hs| then None
    else if hs[k].Raises? then Some(RAISED)
    else if hs[k].CannotTell? then Some(UNKNOWN)
    else Some(EXCLUDED)
  }

  /** The outcome of a record that never reaches its group, or None if it does: the first scope
      clause that does not hold settles it, then the first exception that does not fail. */
  function Settles(rule: Rule, b: Bundle, s: Settings): Option<Outcome>
  {
    var scope := Broken(Answers(rule.scope, b, s), Yes);
    if scope.Some? then scope else Broken(Answers(rule.exceptions, b, s), No)
  }

  method ClauseSettles(clause: seq<Predicate>, b: Bundle, s: Settings, through: Holds)
    returns (settled: Option<Outcome>)
    requires Definite(through)
    ensures settled == Broken(Answers(clause, b, s), through)
  {
    ghost var hs := Answers(clause, b, s);
    for k := 0 to |clause|
      invariant FirstBreak(hs, through, 0) == FirstBreak(hs, through, k)
    {
      var h := Evaluate(clause[k], b, s);
      if h == Negate(through) { return Some(EXCLUDED); }
      if h.CannotTell? { return Some(UNKNOWN); }
      if h.Raises? { return Some(RAISED); }
    }
    return None;
  }

  method ScopeAndExceptions(rule: Rule, b: Bundle, s: Settings) returns (settled: Option<Outcome>)
    ensures settled == Settles(rule, b, s)
  {
    settled := ClauseSettles(rule.scope, b, s, Yes);
    if settled.None? {
      settled := ClauseSettles(rule.exceptions, b, s, No);
    }
  }

  lemma AnswersStable(clause: seq<Predicate>, b: Bundle, b': Bundle, s: Settings, s': Settings, k: nat)
    requires BundleRefines(b, b') && SettingsRefine(s, s')
    requires k < |clause| && Definite(Answers(clause, b, s)[k])
    ensures Answers(clause, b', s')[k] == Answers(clause, b, s)[k]
  {
    PredicateStable(clause[k], b, b', s, s');
  }

  lemma BrokenSame(hs: seq<Holds>, hs': seq<Holds>, through: Holds)
    requires |hs| == |hs'| && Definite(through) && Broken(hs, through) in {None, Some(EXCLUDED)}
    requires forall j :: 0 <= j < |hs| && Definite(hs[j]) ==> hs'[j] == hs[j]
    ensures Broken(hs', through) == Broken(hs, through)
  {
    var k, k' := FirstBreak(hs, through, 0), FirstBreak(hs', through, 0);
    assert forall j :: 0 <= j < k ==> hs'[j] == hs[j] == through;
    assert k < |hs| ==> hs'[k] == hs[k];
    assert k' == k;
  }

  /** A clause that let a record through, or excluded it, still does. */
  lemma BrokenStable(clause: seq<Predicate>, b: Bundle, b': Bundle, s: Settings, s': Settings, through: Holds)
    requires BundleRefines(b, b') && SettingsRefine(s, s') && Definite(through)
    requires Broken(Answers(clause, b, s), through) in {None, Some(EXCLUDED)}
    ensures Broken(Answers(clause, b', s'), through) == Broken(Answers(clause, b, s), through)
  {
    forall j | 0 <= j < |clause| && Definite(Answers(clause, b, s)[j])
      ensures Answers(clause, b', s')[j] == Answers(clause, b, s)[j]
    {
      AnswersStable(clause, b, b', s, s', j);
    }
    BrokenSame(Answers(clause, b, s), Answers(clause, b', s'), through);
  }

  /** A record settled as EXCLUDED stays so, and one that reaches its group still does. */
  lemma SettlesStable(rule: Rule, b: Bundle, b': Bundle, s: Settings, s': Settings)
    requires BundleRefines(b, b') && SettingsRefine(s, s')
    requires Settles(rule, b, s) in {None, Some(EXCLUDED)}
    ensures Settles(rule, b', s') == Settles(rule, b, s)
  {
    BrokenStable(rule.scope, b, b', s, s', Yes);
    if Broken(Answers(rule.scope, b, s), Yes).None? {
      BrokenStable(rule.exceptions, b, b', s, s', No);
    }
  }

  /** An unsure answer comes before an excluding one, and before any other excluding one. */
  ghost predicate UnsureFirst(hs: seq<Holds>, excluding: Holds)
  {
    exists j, k :: 0 <= j < k < |hs| && hs[j].CannotTell? && hs[k] == excluding && forall i :: 0 <= i < j ==>
      hs[i] != excluding
  }

  /** What the record evaluator makes of a clause: any excluding answer, then any unsure one. */
  function AnyOrder(hs: seq<Holds>, excluding: Holds): Option<Outcome>
  {
    if excluding in hs then Some(EXCLUDED) else if CannotTell in hs then Some(UNKNOWN) else None
  }

  lemma OrderMatters(hs: seq<Holds>, through: Holds)
    requires Definite(through) && Raises !in hs
    ensures Broken(hs, through) != AnyOrder(hs, Negate(through)) <==> UnsureFirst(hs, Negate(through))
    ensures Broken(hs, through).None? <==> AnyOrder(hs, Negate(through)).None?
  {
    var k, excluding := FirstBreak(hs, through, 0), Negate(through);
    if k < |hs| {
      assert hs[k] in hs;
      if hs[k].CannotTell? && excluding in hs {
        var l :| 0 <= l < |hs| && hs[l] == excluding;
        assert k < l;
      }
    } else {
      assert forall h :: h in hs ==> h == through;
    }
  }

  lemma GivesIsAnswer(clause: seq<Predicate>, b: Bundle, s: Settings, h: Holds)
    ensures Gives(clause, b, s, h) <==> h in Answers(clause, b, s)
  {
  }

  /** The record evaluator excludes on any clause, this step on the first that breaks. Where nothing
      raises, the two give a settled record different outcomes exactly when an unsure clause comes
      before an excluding one: the record evaluator says EXCLUDED, this step UNKNOWN. */
  lemma ScopeDriftIff(rule: Rule, b: Bundle, s: Settings)
    requires !Gives(rule.scope, b, s, Raises) && !Gives(rule.exceptions, b, s, Raises)
    requires Settles(rule, b, s).Some?
    ensures Settles(rule, b, s).value != RecordOutcome(rule, b, s) <==>
              UnsureFirst(Answers(rule.scope, b, s), No)
              || (Broken(Answers(rule.scope, b, s), Yes).None? && UnsureFirst(Answers(rule.exceptions, b, s), Yes))
  {
    forall h: Holds
      ensures Gives(rule.scope, b, s, h) <==> h in Answers(rule.scope, b, s)
      ensures Gives(rule.exceptions, b, s, h) <==> h in Answers(rule.exceptions, b, s)
    {
      GivesIsAnswer(rule.scope, b, s, h);
      GivesIsAnswer(rule.exceptions, b, s, h);
    }
    OrderMatters(Answers(rule.scope, b, s), Yes);
    OrderMatters(Answers(rule.exceptions, b, s), No);
  }

  function Is(name: string): Predicate
  {
    Predicate(name, Equals, Some(TruthLiteral(true)), None, None, None, None)
  }

  /** "Where r.a is yes and r.b is yes", of a record that says no to r.b and nothing about r.a: with
      any assertion, and so with any aggregate, which is what this step is given. */
  lemma ScopeDrifts(rule: Rule, b: Bundle, a: Assertion)
    requires rule == Rule("r", [], [Is("r.a"), Is("r.b")], [], a)
    requires b == Bundle("r", None, map["r.a" := Unknown("unread", None), "r.b" := Known(Flag(false), None)],
                         map[], map[], map[], map[])
    ensures Settles(rule, b, None) == Some(UNKNOWN) && RecordOutcome(rule, b, None) == EXCLUDED
    ensures AggregateRule(rule) && a.mode.Aggregate? ==> PopulationOutcome(rule, [b], None, 0) == UNKNOWN
  {
    assert Evaluate(rule.scope[0], b, None) == CannotTell && Evaluate(rule.scope[1], b, None) == No;
    var hs := Answers(rule.scope, b, None);
    assert hs[0] == CannotTell && hs[1] == No;
    assert UnsureFirst(hs, No);
    ScopeDriftIff(rule, b, None);
    assert Gives(rule.scope, b, None, No);
  }

  // ------------------------------------------------------------------ step 2 and 3: the specification
  function IdOf(name: string, b: Bundle): Option<string>
  {
    if name in b.fields && b.fields[name].Known? then Some(Str(b.fields[name].payload)) else None
  }

  /** One record's identity and the nights it holds, if all three could be read. */
  datatype Segment = Segment(id: string, start: string, end: string)

  function SegmentOf(p: Predicate, b: Bundle): Option<Segment>
    requires p.interval.Some?
  {
    match (IdOf(p.field, b), IdOf(p.interval.value.start, b), IdOf(p.interval.value.end, b))
    case (Some(id), Some(start), Some(end)) => Some(Segment(id, start, end))
    case _ => None
  }

  /** Half-open at the end: a stay departing on the day another arrives does not overlap it. */
  predicate Overlaps(one: Segment, two: Segment)
  {
    Lt(one.start, two.end) && Lt(two.start, one.end)
  }

  predicate Clash(one: Segment, two: Segment)
  {
    one.id != two.id && Overlaps(one, two)
  }

  /** A validated aggregate rule: one predicate with what its operator needs, and a grouping key. */
  predicate AggregateRule(rule: Rule)
  {
    && rule.assertion.groupBy.Some? && rule.assertion.predicates != []
    && var p := rule.assertion.predicates[0];
    && (p.operator.CountLte? ==> p.value.Some? && p.value.value.WholeLiteral?)
    && (p.operator.NoOverlap? ==> p.interval.Some?)
  }

  /** One population under one aggregate rule. */
  datatype Population = Population(rule: Rule, bundles: seq<Bundle>, settings: Settings) {
    function Ask(): Predicate
      requires AggregateRule(rule)
    {
      rule.assertion.predicates[0]
    }

    function SettledAs(i: nat): Option<Outcome>
      requires i < |bundles|
    {
      Settles(rule, bundles[i], settings)
    }

    function Key(i: nat): Option<string>
      requires i < |bundles| && AggregateRule(rule)
    {
      IdOf(rule.assertion.groupBy.value, bundles[i])
    }

    /** The records counted under one key. */
    function Group(key: string): (g: set<nat>)
      requires AggregateRule(rule)
      ensures forall i :: i in g ==> i < |bundles|
    {
      set i: nat | i < |bundles| && SettledAs(i) == None && Key(i) == Some(key)
    }

    /** Some record that may belong holds this key. */
    predicate Uncertain(key: string)
      requires AggregateRule(rule)
    {
      exists i: nat :: i < |bundles| && SettledAs(i) == Some(UNKNOWN) && Key(i) == Some(key)
    }

    function Id(i: nat): Option<string>
      requires i < |bundles| && AggregateRule(rule)
    {
      IdOf(Ask().field, bundles[i])
    }

    function Readable(g: set<nat>): set<nat>
      requires AggregateRule(rule) && forall i :: i in g ==> i < |bundles|
    {
      set i | i in g && Id(i).Some?
    }

    /** The distinct identifiers that could be read. */
    function Identifiers(g: set<nat>): set<string>
      requires AggregateRule(rule) && forall i :: i in g ==> i < |bundles|
    {
      set i | i in g && Id(i).Some? :: Id(i).value
    }

    function CountOutcome(g: set<nat>, i: nat): Outcome
      requires AggregateRule(rule) && Ask().operator.CountLte?
      requires i in g && forall i :: i in g ==> i < |bundles|
    {
      var limit := Ask().value.value.n;
      if Id(i).None? then UNKNOWN
      else if |Identifiers(g)| > limit then FAIL
      else if |Identifiers(g)| + |g - Readable(g)| <= limit then PASS
      else UNKNOWN
    }

    function Stay(i: nat): Option<Segment>
      requires i < |bundles| && AggregateRule(rule) && Ask().operator.NoOverlap?
    {
      SegmentOf(Ask(), bundles[i])
    }

    predicate Clashes(g: set<nat>, i: nat)
      requires AggregateRule(rule) && Ask().operator.NoOverlap?
      requires i < |bundles| && forall i :: i in g ==> i < |bundles|
    {
      Stay(i).Some? && exists j :: j in g && Stay(j).Some? && Clash(Stay(i).value, Stay(j).value)
    }

    function OverlapOutcome(g: set<nat>, i: nat): Outcome
      requires AggregateRule(rule) && Ask().operator.NoOverlap?
      requires i in g && forall i :: i in g ==> i < |bundles|
    {
      if Stay(i).None? then UNKNOWN
      else if Clashes(g, i) then FAIL
      else if exists j :: j in g && Stay(j).None? then UNKNOWN
      else PASS
    }

    function GroupOutcome(g: set<nat>, i: nat): Outcome
      requires AggregateRule(rule)
      requires i in g && forall i :: i in g ==> i < |bundles|
    {
      match Ask().operator
      case CountLte => CountOutcome(g, i)
      case NoOverlap => OverlapOutcome(g, i)
      case _ => UNKNOWN
    }

    /** The one verdict of record `i`. */
    function OutcomeOf(i: nat): Outcome
      requires i < |bundles| && AggregateRule(rule)
    {
      if SettledAs(i).Some? then SettledAs(i).value
      else if Key(i).None? then UNKNOWN
      else
        var key := Key(i).value;
        var outcome := GroupOutcome(Group(key), i);
        if outcome.PASS? && Uncertain(key) then UNKNOWN else outcome
    }
  }

  // ------------------------------------------------------------------ the loops
  /** `members` lists the set `g`, each element once. */
  ghost predicate Lists(members: seq<nat>, g: set<nat>)
  {
    (forall i: nat :: i in members <==> i in g)
    && forall x, y :: 0 <= x < y < |members| ==> members[x] != members[y]
  }

  lemma {:induction false} ListingSize(members: seq<nat>, g: set<nat>)
    requires Lists(members, g)
    ensures |members| == |g|
  {
    if members != [] {
      var n := |members| - 1;
      assert members == members[..n] + [members[n]];
      ListingSize(members[..n], g - {members[n]});
    } else {
      assert g == {};
    }
  }

  /** A group of in-range records, listed. */
  ghost predicate GroupOf(pop: Population, members: seq<nat>, g: set<nat>)
  {
    AggregateRule(pop.rule) && Lists(members, g) && forall i :: i in g ==> i < |pop.bundles|
  }

  function Unreadable(values: seq<Option<string>>): nat
  {
    if values == [] then 0
    else Unreadable(values[..|values| - 1]) + if values[|values| - 1].None? then 1 else 0
  }

  /** The distinct identifiers that could be read, and how many records have none. */
  method Tally(values: seq<Option<string>>) returns (identifiers: set<string>, unreadable: nat)
    ensures forall id :: id in identifiers <==> Some(id) in values
    ensures unreadable == Unreadable(values)
  {
    identifiers, unreadable := {}, 0;
    for x := 0 to |values|
      invariant forall id :: id in identifiers <==> Some(id) in values[..x]
      invariant unreadable == Unreadable(values[..x])
    {
      assert values[..x + 1] == values[..x] + [values[x]];
      if values[x].Some? {
        identifiers := identifiers + {values[x].value};
      } else {
        unreadable := unreadable + 1;
      }
    }
    assert values[..|values|] == values;
  }

  function Ids(pop: Population, members: seq<nat>): (values: seq<Option<string>>)
    requires AggregateRule(pop.rule) && forall x :: 0 <= x < |members| ==> members[x] < |pop.bundles|
    ensures |values| == |members| && forall x :: 0 <= x < |members| ==> values[x] == pop.Id(members[x])
  {
    seq(|members|, x requires 0 <= x < |members| => pop.Id(members[x]))
  }

  lemma {:induction false} CountMissing(members: seq<nat>, values: seq<Option<string>>, missing: set<nat>)
    requires |values| == |members| && forall x, y :: 0 <= x < y < |members| ==> members[x] != members[y]
    requires forall i: nat :: i in missing <==> exists x :: 0 <= x < |members| && members[x] == i && values[x].None?
    ensures |missing| == Unreadable(values)
  {
    if members == [] {
      assert missing == {};
    } else {
      var n := |members| - 1;
      CountMissing(members[..n], values[..n], missing - {members[n]});
    }
  }

  lemma UnreadableSize(pop: Population, members: seq<nat>, g: set<nat>)
    requires GroupOf(pop, members, g) && forall x :: 0 <= x < |members| ==> members[x] < |pop.bundles|
    ensures Unreadable(Ids(pop, members)) == |g - pop.Readable(g)|
  {
    var values, missing := Ids(pop, members), g - pop.Readable(g);
    forall i: nat
      ensures i in missing <==> exists x :: 0 <= x < |members| && members[x] == i && values[x].None?
    {
      if i in missing {
        var x :| 0 <= x < |members| && members[x] == i;
        assert values[x].None?;
      }
      if x :| 0 <= x < |members| && members[x] == i && values[x].None? {
        assert members[x] in members;
      }
    }
    CountMissing(members, values, missing);
  }

  lemma IdentifiersOf(pop: Population, members: seq<nat>, g: set<nat>, identifiers: set<string>)
    requires GroupOf(pop, members, g) && forall x :: 0 <= x < |members| ==> members[x] < |pop.bundles|
    requires forall id :: id in identifiers <==> Some(id) in Ids(pop, members)
    ensures identifiers == pop.Identifiers(g)
  {
    var values := Ids(pop, members);
    forall id | id in identifiers
      ensures id in pop.Identifiers(g)
    {
      var x :| 0 <= x < |values| && values[x] == Some(id);
      assert members[x] in members;
      assert pop.Id(members[x]) == Some(id);
    }
    forall id | id in pop.Identifiers(g)
      ensures id in identifiers
    {
      var i :| i in g && pop.Id(i).Some? && pop.Id(i).value == id;
      var x :| 0 <= x < |members| && members[x] == i;
      assert values[x] == Some(id);
    }
  }

  /** At most N distinct values of the field may share this key. */
  method CountLte(pop: Population, members: seq<nat>, ghost g: set<nat>) returns (rows: map<nat, Outcome>)
    requires GroupOf(pop, members, g) && pop.Ask().operator.CountLte?
    ensures rows.Keys == g && forall i :: i in g ==> rows[i] == pop.CountOutcome(g, i)
  {
    assert forall x :: 0 <= x < |members| ==> members[x] in g;
    var limit := pop.Ask().value.value.n;
    var identifiers, unreadable := Tally(Ids(pop, members));
    UnreadableSize(pop, members, g);
    IdentifiersOf(pop, members, g, identifiers);
    var atMost := |identifiers| + unreadable;
    var verdict := if |identifiers| > limit then FAIL else if atMost <= limit then PASS else UNKNOWN;
    rows := map i | i in members :: if pop.Id(i).None? then UNKNOWN else verdict;
  }

  lemma ClashIsSymmetric(one: Segment, two: Segment)
    ensures Clash(one, two) <==> Clash(two, one)
  {
  }

  /** Some pair compared so far puts segment `i` in conflict: the outer loop is at `a`, the inner at `b`. */
  ghost predicate Compared(stays: seq<Segment>, a: nat, b: nat, i: nat)
  {
    exists x, y :: 0 <= x < y < |stays| && (x < a || (x == a && y < b))
      && (x == i || y == i) && Clash(stays[x], stays[y])
  }

  lemma ComparedNext(stays: seq<Segment>, a: nat, b: nat, i: nat)
    requires a < b < |stays|
    ensures Compared(stays, a, b + 1, i) <==>
              Compared(stays, a, b, i) || ((i == a || i == b) && Clash(stays[a], stays[b]))
  {
  }

  lemma ComparedRow(stays: seq<Segment>, a: nat, i: nat)
    ensures Compared(stays, a, |stays|, i) <==> Compared(stays, a + 1, 0, i)
    ensures Compared(stays, a, 0, i) <==> Compared(stays, a, a + 1, i)
  {
  }

  lemma ComparedAll(stays: seq<Segment>, i: nat)
    ensures Compared(stays, |stays|, 0, i) <==> i < |stays| && exists j :: 0 <= j < |stays| && Clash(stays[i], stays[j])
  {
    if i < |stays| {
      if j :| 0 <= j < |stays| && Clash(stays[i], stays[j]) {
        ClashIsSymmetric(stays[i], stays[j]);
        assert i != j;
      }
      if Compared(stays, |stays|, 0, i) {
        var x, y :| 0 <= x < y < |stays| && (x == i || y == i) && Clash(stays[x], stays[y]);
        ClashIsSymmetric(stays[x], stays[y]);
      }
    }
  }

  function Accuse(conflicts: map<nat, set<string>>, i: nat, id: string): (more: map<nat, set<string>>)
    ensures more.Keys == conflicts.Keys + {i}
  {
    conflicts[i := (if i in conflicts then conflicts[i] else {}) + {id}]
  }

  /** The segments in conflict with another, and the identifiers of those they are in conflict with:
      every pair, compared once. */
  method Conflicts(stays: seq<Segment>) returns (conflicts: map<nat, set<string>>)
    ensures forall i: nat :: i in conflicts <==>
              i < |stays| && exists j :: 0 <= j < |stays| && Clash(stays[i], stays[j])
  {
    hide UpTo, Clash, Accuse;
    conflicts := map[];
    NoneYet(stays);
    for a := 0 to |stays|
      invariant UpTo(conflicts, stays, a, 0)
    {
      RowBegins(conflicts, stays, a);
      for b := a + 1 to |stays|
        invariant UpTo(conflicts, stays, a, b)
      {
        ghost var before := conflicts;
        if Clash(stays[a], stays[b]) {
          conflicts := Accuse(Accuse(conflicts, a, stays[b].id), b, stays[a].id);
        }
        PairCompared(before, conflicts, stays, a, b);
      }
      RowEnds(conflicts, stays, a);
    }
    AllCompared(conflicts, stays);
  }

  /** In conflict are the segments of the pairs compared so far. */
  ghost predicate UpTo(conflicts: map<nat, set<string>>, stays: seq<Segment>, a: nat, b: nat)
  {
    forall i: nat :: i in conflicts <==> Compared(stays, a, b, i)
  }

  lemma NoneYet(stays: seq<Segment>)
    ensures UpTo(map[], stays, 0, 0)
  {
  }

  lemma RowBegins(conflicts: map<nat, set<string>>, stays: seq<Segment>, a: nat)
    requires UpTo(conflicts, stays, a, 0)
    ensures UpTo(conflicts, stays, a, a + 1)
  {
    hide Compared;
    forall i: nat { ComparedRow(stays, a, i); }
  }

  lemma RowEnds(conflicts: map<nat, set<string>>, stays: seq<Segment>, a: nat)
    requires UpTo(conflicts, stays, a, |stays|)
    ensures UpTo(conflicts, stays, a + 1, 0)
  {
    hide Compared;
    forall i: nat { ComparedRow(stays, a, i); }
  }

  lemma PairCompared(before: map<nat, set<string>>, after: map<nat, set<string>>, stays: seq<Segment>, a: nat, b: nat)
    requires a < b < |stays| && UpTo(before, stays, a, b)
    requires after.Keys == if Clash(stays[a], stays[b]) then before.Keys + {a, b} else before.Keys
    ensures UpTo(after, stays, a, b + 1)
  {
    hide Compared, Clash;
    forall i: nat
      ensures i in after <==> Compared(stays, a, b + 1, i)
    {
      ComparedNext(stays, a, b, i);
    }
  }

  lemma AllCompared(conflicts: map<nat, set<string>>, stays: seq<Segment>)
    requires UpTo(conflicts, stays, |stays|, 0)
    ensures forall i: nat :: i in conflicts <==>
              i < |stays| && exists j :: 0 <= j < |stays| && Clash(stays[i], stays[j])
  {
    hide Compared, Clash;
    forall i: nat { ComparedAll(stays, i); }
  }

  /** The members that could be read, with their stays, and whether some could not. */
  method Split(pop: Population, members: seq<nat>) returns (readable: seq<nat>, stays: seq<Segment>, gap: bool)
    requires AggregateRule(pop.rule) && pop.Ask().operator.NoOverlap?
    requires forall x :: 0 <= x < |members| ==> members[x] < |pop.bundles|
    ensures |stays| == |readable|
    ensures forall y :: 0 <= y < |readable| ==> readable[y] in members && pop.Stay(readable[y]) == Some(stays[y])
    ensures forall x :: 0 <= x < |members| && pop.Stay(members[x]).Some? ==> members[x] in readable
    ensures gap <==> exists x :: 0 <= x < |members| && pop.Stay(members[x]).None?
  {
    readable, stays, gap := [], [], false;
    for x := 0 to |members|
      invariant |stays| == |readable|
      invariant forall y :: 0 <= y < |readable| ==> readable[y] in members && pop.Stay(readable[y]) == Some(stays[y])
      invariant forall z :: 0 <= z < x && pop.Stay(members[z]).Some? ==> members[z] in readable
      invariant gap <==> exists z :: 0 <= z < x && pop.Stay(members[z]).None?
    {
      var stay := pop.Stay(members[x]);
      if stay.Some? {
        readable, stays := readable + [members[x]], stays + [stay.value];
      } else {
        gap := true;
      }
    }
  }

  /** No two distinct records in this group may hold overlapping intervals. */
  method NoOverlaps(pop: Population, members: seq<nat>, ghost g: set<nat>) returns (rows: map<nat, Outcome>)
    requires GroupOf(pop, members, g) && pop.Ask().operator.NoOverlap?
    ensures rows.Keys == g && forall i :: i in g ==> rows[i] == pop.OverlapOutcome(g, i)
  {
    assert forall x :: 0 <= x < |members| ==> members[x] in g;
    var readable, stays, gap := Split(pop, members);
    var conflicts := Conflicts(stays);
    rows := map i | i in members :: Row(readable, conflicts, gap, i);
    forall i | i in g
      ensures rows[i] == pop.OverlapOutcome(g, i)
    {
      RowCorrect(pop, members, g, readable, stays, conflicts, gap, i);
    }
  }

  function Row(readable: seq<nat>, conflicts: map<nat, set<string>>, gap: bool, i: nat): Outcome
  {
    if i !in readable then UNKNOWN
    else if exists y :: 0 <= y < |readable| && readable[y] == i && y in conflicts then FAIL
    else if gap then UNKNOWN else PASS
  }

  lemma RowCorrect(pop: Population, members: seq<nat>, g: set<nat>, readable: seq<nat>, stays: seq<Segment>,
                   conflicts: map<nat, set<string>>, gap: bool, i: nat)
    requires GroupOf(pop, members, g) && pop.Ask().operator.NoOverlap?
    requires forall x :: 0 <= x < |members| ==> members[x] < |pop.bundles|
    requires |stays| == |readable|
    requires forall y :: 0 <= y < |readable| ==> readable[y] in members && pop.Stay(readable[y]) == Some(stays[y])
    requires forall x :: 0 <= x < |members| && pop.Stay(members[x]).Some? ==> members[x] in readable
    requires gap <==> exists x :: 0 <= x < |members| && pop.Stay(members[x]).None?
    requires forall y: nat :: y in conflicts <==>
               y < |stays| && exists j :: 0 <= j < |stays| && Clash(stays[y], stays[j])
    requires i in g
    ensures Row(readable, conflicts, gap, i) == pop.OverlapOutcome(g, i)
  {
    if i in readable {
      var y :| 0 <= y < |readable| && readable[y] == i;
      RowIsOutcome(pop, members, g, readable, stays, y);
      if z :| 0 <= z < |readable| && readable[z] == i && z in conflicts {
        assert stays[z] == stays[y];
      }
    } else {
      var x :| 0 <= x < |members| && members[x] == i;
      assert pop.Stay(i).None?;
    }
  }

  lemma RowIsOutcome(pop: Population, members: seq<nat>, g: set<nat>, readable: seq<nat>, stays: seq<Segment>, y: nat)
    requires GroupOf(pop, members, g) && pop.Ask().operator.NoOverlap?
    requires forall x :: 0 <= x < |members| ==> members[x] < |pop.bundles|
    requires |stays| == |readable| && y < |readable|
    requires forall y :: 0 <= y < |readable| ==> readable[y] in members && pop.Stay(readable[y]) == Some(stays[y])
    requires forall x :: 0 <= x < |members| && pop.Stay(members[x]).Some? ==> members[x] in readable
    ensures readable[y] in g
    ensures pop.OverlapOutcome(g, readable[y])
            == if exists j :: 0 <= j < |stays| && Clash(stays[y], stays[j]) then FAIL
               else if exists x :: 0 <= x < |members| && pop.Stay(members[x]).None? then UNKNOWN else PASS
  {
    var i := readable[y];
    if pop.Clashes(g, i) {
      var j :| j in g && pop.Stay(j).Some? && Clash(pop.Stay(i).value, pop.Stay(j).value);
      var x :| 0 <= x < |members| && members[x] == j;
      assert members[x] in readable;
      var z :| 0 <= z < |readable| && readable[z] == j;
      assert Clash(stays[y], stays[z]);
    }
    if z :| 0 <= z < |stays| && Clash(stays[y], stays[z]) {
      assert readable[z] in g && Clash(pop.Stay(i).value, pop.Stay(readable[z]).value);
    }
    if j :| j in g && pop.Stay(j).None? {
      var x :| 0 <= x < |members| && members[x] == j;
    }
    if x :| 0 <= x < |members| && pop.Stay(members[x]).None? {
      assert members[x] in g;
    }
  }

  /** One group, judged. */
  method Judge(pop: Population, members: seq<nat>, ghost g: set<nat>) returns (rows: map<nat, Outcome>)
    requires GroupOf(pop, members, g)
    ensures rows.Keys == g && forall i :: i in g ==> rows[i] == pop.GroupOutcome(g, i)
  {
    if pop.Ask().operator.CountLte? {
      rows := CountLte(pop, members, g);
    } else if pop.Ask().operator.NoOverlap? {
      rows := NoOverlaps(pop, members, g);
    } else {
      rows := map i | i in members :: UNKNOWN;
    }
  }

  method SettleAll(pop: Population) returns (raised: bool, settled: seq<Option<Outcome>>)
    ensures raised <==> exists i: nat :: i < |pop.bundles| && pop.SettledAs(i) == Some(RAISED)
    ensures !raised ==> |settled| == |pop.bundles| && forall i :: 0 <= i < |settled| ==> settled[i] == pop.SettledAs(i)
  {
    hide Settles;
    settled := [];
    for n := 0 to |pop.bundles|
      invariant |settled| == n
      invariant forall i :: 0 <= i < n ==> settled[i] == pop.SettledAs(i) != Some(RAISED)
    {
      var outcome := ScopeAndExceptions(pop.rule, pop.bundles[n], pop.settings);
      if outcome == Some(RAISED) {
        assert pop.SettledAs(n) == Some(RAISED);
        return true, [];
      }
      settled := settled + [outcome];
    }
    return false, settled;
  }

  /** Step 1: the records still in play, in order, and the keys held by a record that could not be settled. */
  method Sort(settled: seq<Option<Outcome>>, keys: seq<Option<string>>)
    returns (inPlay: seq<nat>, uncertain: set<string>)
    requires |settled| == |keys|
    ensures forall i: nat :: i in inPlay <==> i < |settled| && settled[i].None?
    ensures forall x, y :: 0 <= x < y < |inPlay| ==> inPlay[x] < inPlay[y]
    ensures forall key :: key in uncertain <==>
              exists i :: 0 <= i < |settled| && settled[i] == Some(UNKNOWN) && keys[i] == Some(key)
  {
    inPlay, uncertain := [], {};
    for n := 0 to |settled|
      invariant forall i: nat :: i in inPlay <==> i < n && settled[i].None?
      invariant forall x, y :: 0 <= x < y < |inPlay| ==> inPlay[x] < inPlay[y]
      invariant forall key :: key in uncertain <==>
                  exists i :: 0 <= i < n && settled[i] == Some(UNKNOWN) && keys[i] == Some(key)
    {
      if settled[n].None? {
        assert forall x :: 0 <= x < |inPlay| ==> inPlay[x] in inPlay;
        inPlay := inPlay + [n];
      } else if settled[n].value.UNKNOWN? && keys[n].Some? {
        uncertain := uncertain + {keys[n].value};
      }
    }
  }

  /** Step 2: the survivors by their key, and those without a readable one. */
  method GroupUp(keys: seq<Option<string>>, inPlay: seq<nat>) returns (keyless: set<nat>, groups: map<string, seq<nat>>)
    requires forall i: nat :: i in inPlay ==> i < |keys|
    requires forall x, y :: 0 <= x < y < |inPlay| ==> inPlay[x] < inPlay[y]
    ensures forall i: nat :: i in keyless <==> i in inPlay && keys[i].None?
    ensures forall key :: key in groups ==>
              && (forall i: nat :: i in groups[key] <==> i in inPlay && keys[i] == Some(key))
              && (forall x, y :: 0 <= x < y < |groups[key]| ==> groups[key][x] < groups[key][y])
    ensures forall i: nat :: i in inPlay && keys[i].Some? ==> keys[i].value in groups
  {
    keyless, groups := {}, map[];
    for n := 0 to |inPlay|
      invariant forall i: nat :: i in keyless <==> i < |keys| && i in inPlay[..n] && keys[i].None?
      invariant forall key :: key in groups ==>
                  && (forall i: nat :: i in groups[key] <==> i < |keys| && i in inPlay[..n] && keys[i] == Some(key))
                  && (forall x, y :: 0 <= x < y < |groups[key]| ==> groups[key][x] < groups[key][y])
      invariant forall i: nat :: i < |keys| && i in inPlay[..n] && keys[i].Some? ==> keys[i].value in groups
    {
      var i := inPlay[n];
      assert i in inPlay && inPlay[..n + 1] == inPlay[..n] + [i];
      var key := keys[i];
      if key.None? {
        keyless := keyless + {i};
      } else {
        var before := if key.value in groups then groups[key.value] else [];
        assert forall x :: 0 <= x < |before| ==> before[x] in before && before[x] in inPlay[..n];
        groups := groups[key.value := before + [i]];
      }
    }
    assert inPlay[..|inPlay|] == inPlay;
  }

  lemma GroupIs(pop: Population, members: seq<nat>, key: string)
    requires AggregateRule(pop.rule)
    requires forall i: nat :: i in members <==> i < |pop.bundles| && pop.SettledAs(i).None? && pop.Key(i) == Some(key)
    requires forall x, y :: 0 <= x < y < |members| ==> members[x] < members[y]
    ensures GroupOf(pop, members, pop.Group(key))
  {
  }

  /** What steps 1 and 2 tabulate about a population. */
  ghost predicate Tables(pop: Population, settled: seq<Option<Outcome>>, keys: seq<Option<string>>,
                         uncertain: set<string>)
  {
    && AggregateRule(pop.rule) && |settled| == |keys| == |pop.bundles|
    && (forall i :: 0 <= i < |settled| ==> settled[i] == pop.SettledAs(i))
    && (forall i :: 0 <= i < |keys| ==> keys[i] == pop.Key(i))
    && (forall k :: k in uncertain <==>
       exists i :: 0 <= i < |settled| && settled[i] == Some(UNKNOWN) && keys[i] == Some(k))
  }

  /** One group's verdicts, a PASS withheld where the key is uncertain. */
  method JudgeKey(pop: Population, members: seq<nat>, key: string, uncertain: set<string>,
                  ghost settled: seq<Option<Outcome>>, ghost keys: seq<Option<string>>, ghost expected: seq<Outcome>)
    returns (rows: map<nat, Outcome>)
    requires Tables(pop, settled, keys, uncertain)
    requires |expected| == |settled| && forall i :: 0 <= i < |expected| ==> expected[i] == pop.OutcomeOf(i)
    requires forall i: nat :: i in members <==> i < |settled| && settled[i].None? && keys[i] == Some(key)
    requires forall x, y :: 0 <= x < y < |members| ==> members[x] < members[y]
    ensures forall i: nat :: i in rows <==> i in members
    ensures forall i: nat :: i in rows ==> i < |expected| && rows[i] == expected[i]
  {
    GroupIs(pop, members, key);
    var raw := Judge(pop, members, pop.Group(key));
    rows := map i | i in raw :: if raw[i].PASS? && key in uncertain then UNKNOWN else raw[i];
    forall i: nat | i in rows
      ensures i < |expected| && rows[i] == expected[i]
    {
      MemberOutcome(pop, settled, keys, uncertain, key, i);
    }
  }

  /** Step 3: every group, judged. */
  method JudgeGroups(pop: Population, settled: seq<Option<Outcome>>, keys: seq<Option<string>>)
    returns (verdicts: seq<Outcome>)
    requires AggregateRule(pop.rule) && |settled| == |keys| == |pop.bundles|
    requires forall i :: 0 <= i < |settled| ==> settled[i] == pop.SettledAs(i)
    requires forall i :: 0 <= i < |keys| ==> keys[i] == pop.Key(i)
    ensures |verdicts| == |pop.bundles| && forall i :: 0 <= i < |verdicts| ==> verdicts[i] == pop.OutcomeOf(i)
  {
    ghost var expected := seq(|settled|, i requires 0 <= i < |settled| => pop.OutcomeOf(i));
    var inPlay, uncertain := Sort(settled, keys);
    var keyless, groups := GroupUp(keys, inPlay);
    assert Tables(pop, settled, keys, uncertain);
    var answers := Settlements(settled, keys);
    Beginning(pop, settled, keys, expected, answers);
    answers := JudgeAll(pop, groups, uncertain, settled, keys, expected, answers);
    verdicts := seq(|settled|, i requires 0 <= i < |settled| && i in answers => answers[i]);
  }

  method JudgeAll(pop: Population, groups: map<string, seq<nat>>, uncertain: set<string>,
                  settled: seq<Option<Outcome>>, keys: seq<Option<string>>, ghost expected: seq<Outcome>,
                  start: map<nat, Outcome>) returns (answers: map<nat, Outcome>)
    requires Tables(pop, settled, keys, uncertain)
    requires |expected| == |settled| && forall i :: 0 <= i < |expected| ==> expected[i] == pop.OutcomeOf(i)
    requires forall key :: key in groups ==>
               && (forall i: nat :: i in groups[key] <==> i < |settled| && settled[i].None? && keys[i] == Some(key))
               && (forall x, y :: 0 <= x < y < |groups[key]| ==> groups[key][x] < groups[key][y])
    requires forall i: nat :: i < |settled| && settled[i].None? && keys[i].Some? ==> keys[i].value in groups
    requires forall i: nat :: i in start ==> i < |expected| && start[i] == expected[i]
    requires forall i: nat :: i < |settled| && (settled[i].Some? || keys[i].None?) ==> i in start
    ensures forall i: nat :: i < |settled| ==> i in answers && answers[i] == expected[i]
  {
    answers := start;
    var left := groups.Keys;
    while left != {}
      invariant left <= groups.Keys
      invariant forall i: nat :: i in answers ==> i < |expected| && answers[i] == expected[i]
      invariant forall i: nat :: i < |settled| && (settled[i].Some? || keys[i].None? || keys[i].value !in left) ==>
                  i in answers
      decreases left
    {
      var key :| key in left;
      var rows := JudgeKey(pop, groups[key], key, uncertain, settled, keys, expected);
      answers := answers + rows;
      left := left - {key};
    }
  }

  function Settlements(settled: seq<Option<Outcome>>, keys: seq<Option<string>>): map<nat, Outcome>
    requires |settled| == |keys|
  {
    map i: nat | i < |settled| && (settled[i].Some? || keys[i].None?) :: if settled[i].Some? then settled[i].value
      else UNKNOWN
  }

  lemma Beginning(pop: Population, settled: seq<Option<Outcome>>, keys: seq<Option<string>>, expected: seq<Outcome>,
                  answers: map<nat, Outcome>)
    requires AggregateRule(pop.rule) && |settled| == |keys| == |pop.bundles| == |expected|
    requires forall i :: 0 <= i < |settled| ==> settled[i] == pop.SettledAs(i)
    requires forall i :: 0 <= i < |keys| ==> keys[i] == pop.Key(i)
    requires forall i :: 0 <= i < |expected| ==> expected[i] == pop.OutcomeOf(i)
    requires answers == Settlements(settled, keys)
    ensures forall i: nat :: i in answers ==> i < |expected| && answers[i] == expected[i]
  {
  }

  lemma MemberOutcome(pop: Population, settled: seq<Option<Outcome>>, keys: seq<Option<string>>,
                      uncertain: set<string>, key: string, i: nat)
    requires Tables(pop, settled, keys, uncertain)
    requires i in pop.Group(key)
    ensures pop.OutcomeOf(i)
            == var row := pop.GroupOutcome(pop.Group(key), i); if row.PASS? && key in uncertain then UNKNOWN else row
  {
    if key in uncertain {
      var j :| 0 <= j < |settled| && settled[j] == Some(UNKNOWN) && keys[j] == Some(key);
      assert pop.SettledAs(j) == Some(UNKNOWN) && pop.Key(j) == Some(key);
    }
    if pop.Uncertain(key) {
      var j: nat :| j < |pop.bundles| && pop.SettledAs(j) == Some(UNKNOWN) && pop.Key(j) == Some(key);
      assert settled[j] == Some(UNKNOWN) && keys[j] == Some(key);
    }
  }

  // ------------------------------------------------------------------ what the verdicts mean
  lemma BrokenMeans(clause: seq<Predicate>, b: Bundle, s: Settings, through: Holds)
    requires Definite(through)
    ensures var o := Broken(Answers(clause, b, s), through);
            && (o == None <==> AllAnswer(clause, b, s, through))
            && (o == Some(RAISED) <==> FirstAnswer(clause, b, s, through, Raises))
            && (o == Some(UNKNOWN) <==> FirstAnswer(clause, b, s, through, CannotTell))
            && (o == Some(EXCLUDED) <==> FirstAnswer(clause, b, s, through, Negate(through)))
  {
    hide Evaluate;
    var hs := Answers(clause, b, s);
    var k := FirstBreak(hs, through, 0);
    assert forall j :: 0 <= j < |clause| ==> hs[j] == Evaluate(clause[j], b, s);
    if k < |hs| {
      assert Evaluate(clause[k], b, s) == hs[k];
      forall h | FirstAnswer(clause, b, s, through, h)
        ensures h == hs[k]
      {
        var j :| 0 <= j < |clause| && Evaluate(clause[j], b, s) == h != through
                 && forall i :: 0 <= i < j ==> Evaluate(clause[i], b, s) == through;
        assert hs[j] == h;
        assert j == k;
      }
      assert FirstAnswer(clause, b, s, through, hs[k]);
    }
  }

  /** How this step settles a record: by the first clause that does not let it through. */
  lemma SettlesMeans(rule: Rule, b: Bundle, s: Settings)
    ensures Settles(rule, b, s) == None <==> InScope(rule, b, s)
    ensures Settles(rule, b, s) == Some(RAISED) <==> StopsAt(rule, b, s, Raises, Raises)
    ensures Settles(rule, b, s) == Some(UNKNOWN) <==> MayBelong(rule, b, s)
    ensures Settles(rule, b, s) == Some(EXCLUDED) <==> StopsAt(rule, b, s, No, Yes)
  {
    hide Evaluate, Broken, FirstAnswer, AllAnswer;
    BrokenMeans(rule.scope, b, s, Yes);
    BrokenMeans(rule.exceptions, b, s, No);
  }

  lemma StayMeans(p: Predicate, b: Bundle)
    requires p.interval.Some?
    ensures SegmentOf(p, b).Some? <==> StayReadable(p, b)
    ensures StayReadable(p, b) ==>
              SegmentOf(p, b) == Some(Segment(TextOf(b, p.field), TextOf(b, p.interval.value.start),
                TextOf(b, p.interval.value.end)))
  {
  }

  lemma GroupMeans(pop: Population, key: string)
    requires AggregateRule(pop.rule)
    ensures forall j: nat :: j in pop.Group(key) <==> Counted(pop.rule, pop.bundles, pop.settings, key, j)
    ensures pop.Uncertain(key) <==> SomeMayBelong(pop.rule, pop.bundles, pop.settings, key)
  {
    hide Settles, InScope, MayBelong;
    forall j: nat | j < |pop.bundles|
      ensures pop.SettledAs(j) == None <==> InScope(pop.rule, pop.bundles[j], pop.settings)
      ensures pop.SettledAs(j) == Some(UNKNOWN) <==> MayBelong(pop.rule, pop.bundles[j], pop.settings)
    {
      SettlesMeans(pop.rule, pop.bundles[j], pop.settings);
    }
    if SomeMayBelong(pop.rule, pop.bundles, pop.settings, key) {
      var j: nat :| j < |pop.bundles| && MayBelong(pop.rule, pop.bundles[j], pop.settings)
                    && IsText(pop.bundles[j], pop.rule.assertion.groupBy.value, key);
      assert pop.SettledAs(j) == Some(UNKNOWN) && pop.Key(j) == Some(key);
    }
  }

  lemma OverlapMeans(pop: Population, key: string, i: nat)
    requires AggregateRule(pop.rule) && pop.Ask().operator.NoOverlap?
    requires Counted(pop.rule, pop.bundles, pop.settings, key, i)
    ensures pop.SettledAs(i).None? && pop.Key(i) == Some(key)
    ensures OverlapSays(pop.rule, pop.bundles, pop.settings, key, pop.Ask(), i, pop.OutcomeOf(i))
  {
    hide Settles, InScope, MayBelong, SegmentOf, SomeMayBelong, TextOf, StayReadable, Clash, Meets;
    var p, g := pop.Ask(), pop.Group(key);
    GroupMeans(pop, key);
    assert i in g;
    StayMeans(p, pop.bundles[i]);
    forall j | j in g
      ensures pop.Stay(j).Some? <==> StayReadable(p, pop.bundles[j])
      ensures pop.Stay(i).Some? && pop.Stay(j).Some? ==>
                (Clash(pop.Stay(i).value, pop.Stay(j).value) <==> Meets(p, pop.bundles[i], pop.bundles[j]))
    {
      StayMeans(p, pop.bundles[j]);
      if pop.Stay(i).Some? && pop.Stay(j).Some? {
        ClashMeans(p, pop.bundles[i], pop.bundles[j]);
      }
    }
    assert forall j: nat :: Counted(pop.rule, pop.bundles, pop.settings, key, j) <==> j in g;
  }

  lemma ClashMeans(p: Predicate, b: Bundle, c: Bundle)
    requires p.interval.Some? && StayReadable(p, b) && StayReadable(p, c)
    ensures SegmentOf(p, b).Some? && SegmentOf(p, c).Some?
    ensures Clash(SegmentOf(p, b).value, SegmentOf(p, c).value) <==> Meets(p, b, c)
  {
    hide Lt;
    StayMeans(p, b);
    StayMeans(p, c);
  }

  lemma IdsMean(pop: Population, key: string)
    requires AggregateRule(pop.rule)
    ensures IdsRead(pop.rule, pop.bundles, pop.settings, key, pop.Ask().field) == pop.Identifiers(pop.Group(key))
    ensures Unread(pop.rule, pop.bundles, pop.settings, key, pop.Ask().field)
            == pop.Group(key) - pop.Readable(pop.Group(key))
  {
    hide Settles, InScope, MayBelong, SomeMayBelong, Str, Counted;
    var name, g, bundles := pop.Ask().field, pop.Group(key), pop.bundles;
    GroupMeans(pop, key);
    var read := IdsRead(pop.rule, bundles, pop.settings, key, name);
    forall id | id in read
      ensures id in pop.Identifiers(g)
    {
      var j: nat :| j < |bundles| && Counted(pop.rule, bundles, pop.settings, key, j) && Readable(bundles[j], name)
                    && TextOf(bundles[j], name) == id;
      assert j in g && pop.Id(j) == Some(id);
    }
    forall id | id in pop.Identifiers(g)
      ensures id in read
    {
      var j :| j in g && pop.Id(j).Some? && pop.Id(j).value == id;
      assert Counted(pop.rule, bundles, pop.settings, key, j) && Readable(bundles[j], name);
    }
  }

  lemma CountMeans(pop: Population, key: string, i: nat)
    requires AggregateRule(pop.rule) && pop.Ask().operator.CountLte?
    requires Counted(pop.rule, pop.bundles, pop.settings, key, i)
    ensures pop.SettledAs(i).None? && pop.Key(i) == Some(key)
    ensures CountSays(pop.rule, pop.bundles, pop.settings, key, pop.Ask(), pop.Ask().value.value.n, i, pop.OutcomeOf(i))
  {
    hide Settles, InScope, MayBelong, SomeMayBelong, Str, IdsRead, Unread;
    GroupMeans(pop, key);
    IdsMean(pop, key);
    assert i in pop.Group(key);
    assert pop.GroupOutcome(pop.Group(key), i) == pop.CountOutcome(pop.Group(key), i);
  }

  /** What an aggregate rule tells each of its records, said of their fields. */
  lemma MemberMeans(pop: Population, i: nat)
    requires AggregateRule(pop.rule) && i < |pop.bundles|
    ensures MemberSays(pop.rule, pop.bundles, pop.settings, i, pop.OutcomeOf(i))
  {
    hide Settles, InScope, MayBelong, StopsAt, OverlapSays, CountSays, TextOf;
    SettlesMeans(pop.rule, pop.bundles[i], pop.settings);
    var b, p := pop.bundles[i], pop.Ask();
    if InScope(pop.rule, b, pop.settings) && Readable(b, pop.rule.assertion.groupBy.value) {
      var key := TextOf(b, pop.rule.assertion.groupBy.value);
      if p.operator.NoOverlap? {
        OverlapMeans(pop, key, i);
      } else if p.operator.CountLte? {
        CountMeans(pop, key, i);
      }
    }
  }

  /** Whether evaluating this population raises instead of answering. */
  ghost predicate PopulationRaises(rule: Rule, bundles: seq<Bundle>, s: Settings)
  {
    if rule.assertion.mode.Aggregate?
    then exists i: nat :: i < |bundles| && Settles(rule, bundles[i], s) == Some(RAISED)
    else exists i: nat :: i < |bundles| && RecordOutcome(rule, bundles[i], s).RAISED?
  }

  ghost function PopulationOutcome(rule: Rule, bundles: seq<Bundle>, s: Settings, i: nat): Outcome
    requires i < |bundles| && (rule.assertion.mode.Aggregate? ==> AggregateRule(rule))
  {
    if rule.assertion.mode.Aggregate? then Population(rule, bundles, s).OutcomeOf(i)
    else RecordOutcome(rule, bundles[i], s)
  }

  /** A row, said of the records' own fields. */
  ghost predicate RowSays(rule: Rule, bundles: seq<Bundle>, s: Settings, i: nat, o: Outcome)
    requires i < |bundles| && (rule.assertion.mode.Aggregate? ==> AggregateRule(rule))
  {
    if rule.assertion.mode.Aggregate? then MemberSays(rule, bundles, s, i, o) else RecordSays(rule, bundles[i], s, o)
  }

  /** An aggregate rule raises exactly when a clause raises that settles some record. */
  lemma RaisesMeans(rule: Rule, bundles: seq<Bundle>, s: Settings)
    requires rule.assertion.mode.Aggregate?
    ensures PopulationRaises(rule, bundles, s) <==>
              exists i :: 0 <= i < |bundles| && StopsAt(rule, bundles[i], s, Raises, Raises)
  {
    hide Settles, StopsAt, RecordOutcome;
    forall i | 0 <= i < |bundles|
      ensures Settles(rule, bundles[i], s) == Some(RAISED) <==> StopsAt(rule, bundles[i], s, Raises, Raises)
    {
      SettlesMeans(rule, bundles[i], s);
    }
  }

  lemma RowMeans(rule: Rule, bundles: seq<Bundle>, s: Settings, i: nat)
    requires i < |bundles| && (rule.assertion.mode.Aggregate? ==> AggregateRule(rule))
    ensures RowSays(rule, bundles, s, i, PopulationOutcome(rule, bundles, s, i))
  {
    hide MemberSays, RecordSays, RecordOutcome;
    if rule.assertion.mode.Aggregate? {
      MemberMeans(Population(rule, bundles, s), i);
    } else {
      RecordMeans(rule, bundles[i], s);
    }
  }

  lemma RowsMean(rule: Rule, bundles: seq<Bundle>, s: Settings, verdicts: seq<Outcome>)
    requires |verdicts| == |bundles| && (rule.assertion.mode.Aggregate? ==> AggregateRule(rule))
    requires forall i :: 0 <= i < |verdicts| ==> verdicts[i] == PopulationOutcome(rule, bundles, s, i)
    ensures forall i :: 0 <= i < |verdicts| ==> RowSays(rule, bundles, s, i, verdicts[i])
  {
    hide PopulationOutcome, RowSays;
    forall i | 0 <= i < |verdicts|
      ensures RowSays(rule, bundles, s, i, verdicts[i])
    {
      RowMeans(rule, bundles, s, i);
    }
  }

  /** Exactly one verdict per bundle, in input order: every record is settled by scope, by an
      unreadable key, or by the one group it belongs to. */
  method EvaluatePopulation(rule: Rule, bundles: seq<Bundle>, s: Settings)
    returns (raised: bool, verdicts: seq<Outcome>)
    requires rule.assertion.mode.Aggregate? ==> AggregateRule(rule)
    ensures raised <==> PopulationRaises(rule, bundles, s)
    ensures !raised ==> |verdicts| == |bundles|
    ensures !raised ==> forall i :: 0 <= i < |bundles| ==> verdicts[i] == PopulationOutcome(rule, bundles, s, i)
    ensures !raised ==> forall i :: 0 <= i < |bundles| ==> RowSays(rule, bundles, s, i, verdicts[i])
  {
    hide RecordOutcome, Settles, RowSays, RecordSays;
    if !rule.assertion.mode.Aggregate? {
      verdicts := [];
      for n := 0 to |bundles|
        invariant |verdicts| == n
        invariant forall i :: 0 <= i < n ==> verdicts[i] == RecordOutcome(rule, bundles[i], s) && !verdicts[i].RAISED?
      {
        var outcome := EvaluateRecord(rule, bundles[n], s);
        if outcome.RAISED? {
          assert RecordOutcome(rule, bundles[n], s).RAISED?;
          return true, [];
        }
        verdicts := verdicts + [outcome];
      }
      RowsMean(rule, bundles, s, verdicts);
      return false, verdicts;
    }
    var pop := Population(rule, bundles, s);
    var settled;
    raised, settled := SettleAll(pop);
    assert forall i: nat :: i < |bundles| ==> pop.SettledAs(i) == Settles(rule, bundles[i], s);
    if raised {
      return true, [];
    }
    verdicts := JudgeGroups(pop, settled, seq(|bundles|, i requires 0 <= i < |bundles| => pop.Key(i)));
    RowsMean(rule, bundles, s, verdicts);
  }
}
