/** What a verdict about a group is worth (hotelcontrols/evaluator/population.py). */
module PopulationTheorems {
  import opened Basics
  import opened Texts
  import opened Values
  import opened Rules
  import opened Bundles
  import opened Predicates
  import opened Judgements
  import opened Collections
  import opened Records
  import opened Population

  // ------------------------------------------------------------------ counting
  /** The distinct values of a map. */
  function Range(m: map<nat, string>): set<string>
  {
    set i | i in m.Keys :: m[i]
  }

  lemma {:induction false} RangeSize(m: map<nat, string>)
    ensures |Range(m)| <= |m.Keys|
  {
    if m != map[] {
      var i :| i in m;
      var rest := m - {i};
      RangeSize(rest);
      assert m.Keys == rest.Keys + {i};
      assert Range(m) <= Range(rest) + {m[i]};
      Subset(Range(m), Range(rest) + {m[i]});
    } else {
      assert Range(m) == {};
    }
  }

  lemma {:induction false} InjectiveSize(m: map<nat, string>)
    requires forall i, j :: i in m && j in m && i != j ==> m[i] != m[j]
    ensures |Range(m)| == |m.Keys|
  {
    if m != map[] {
      var i :| i in m;
      var rest := m - {i};
      InjectiveSize(rest);
      assert m.Keys == rest.Keys + {i};
      assert Range(m) == Range(rest) + {m[i]};
    } else {
      assert Range(m) == {};
    }
  }

  lemma {:induction false} Subset<T>(small: set<T>, large: set<T>)
    requires small <= large
    ensures |small| <= |large|
  {
    if small != {} {
      var x :| x in small;
      Subset(small - {x}, large - {x});
    }
  }

  // ------------------------------------------------------------------ completions of a group
  /** Every unread identifier filled in, some way. */
  ghost predicate Completes(pop: Population, g: set<nat>, c: map<nat, string>)
    requires AggregateRule(pop.rule) && forall i :: i in g ==> i < |pop.bundles|
  {
    c.Keys == g && forall i :: i in g && pop.Id(i).Some? ==> c[i] == pop.Id(i).value
  }

  function ReadPart(pop: Population, g: set<nat>): map<nat, string>
    requires AggregateRule(pop.rule) && forall i :: i in g ==> i < |pop.bundles|
  {
    map i | i in g && pop.Id(i).Some? :: pop.Id(i).value
  }

  /** The counted range brackets the true number of distinct identifiers in every completion. */
  lemma CountBrackets(pop: Population, g: set<nat>, c: map<nat, string>)
    requires AggregateRule(pop.rule) && forall i :: i in g ==> i < |pop.bundles|
    requires Completes(pop, g, c)
    ensures |pop.Identifiers(g)| <= |Range(c)| <= |pop.Identifiers(g)| + |g - pop.Readable(g)|
  {
    var unread := map i | i in g && pop.Id(i).None? :: c[i];
    RangeSize(unread);
    assert unread.Keys == g - pop.Readable(g);
    forall id | id in pop.Identifiers(g)
      ensures id in Range(c)
    {
      var i :| i in g && pop.Id(i).Some? && pop.Id(i).value == id;
      assert c[i] == id;
    }
    Subset(pop.Identifiers(g), Range(c));
    forall id | id in Range(c)
      ensures id in pop.Identifiers(g) + Range(unread)
    {
      var i: nat :| i in c && c[i] == id;
      if pop.Id(i).None? {
        assert unread[i] == id;
      }
    }
    Subset(Range(c), pop.Identifiers(g) + Range(unread));
  }

  // ------------------------------------------------------------------ the range is exact
  function Repeat(n: nat): (s: string)
    ensures |s| == n
  {
    if n == 0 then "" else "x" + Repeat(n - 1)
  }

  ghost function Longest(ids: set<string>): (n: nat)
    ensures forall id :: id in ids ==> |id| <= n
  {
    if ids == {} then 0
    else
      var id :| id in ids;
      var rest := Longest(ids - {id});
      if |id| > rest then |id| else rest
  }

  /** A text no identifier in the group equals, different for every record. */
  function Fresh(longest: nat, i: nat): (id: string)
    ensures |id| > longest
  {
    Repeat(longest) + NatText(i)
  }

  lemma FreshDiffers(longest: nat, i: nat, j: nat)
    requires i != j
    ensures Fresh(longest, i) != Fresh(longest, j)
  {
    NatRoundTrip(i);
    NatRoundTrip(j);
    assert Fresh(longest, i)[longest..] == NatText(i) && Fresh(longest, j)[longest..] == NatText(j);
  }

  /** Every unread record repeats an identifier that was read. */
  lemma FewestCompletion(pop: Population, g: set<nat>, known: nat) returns (c: map<nat, string>)
    requires AggregateRule(pop.rule) && forall i :: i in g ==> i < |pop.bundles|
    requires known in g && pop.Id(known).Some?
    ensures Completes(pop, g, c) && |Range(c)| == |pop.Identifiers(g)|
  {
    c := map i | i in g :: if pop.Id(i).Some? then pop.Id(i).value else pop.Id(known).value;
    forall id | id in Range(c)
      ensures id in pop.Identifiers(g)
    {
      var i: nat :| i in c && c[i] == id;
      var j := if pop.Id(i).Some? then i else known;
      assert j in g && pop.Id(j).Some? && pop.Id(j).value == id;
    }
    Subset(Range(c), pop.Identifiers(g));
    CountBrackets(pop, g, c);
  }

  lemma ReadPartIsIdentifiers(pop: Population, g: set<nat>)
    requires AggregateRule(pop.rule) && forall i :: i in g ==> i < |pop.bundles|
    ensures Range(ReadPart(pop, g)) == pop.Identifiers(g)
    ensures ReadPart(pop, g).Keys == pop.Readable(g)
  {
    var part := ReadPart(pop, g);
    forall id | id in pop.Identifiers(g)
      ensures id in Range(part)
    {
      var i :| i in g && pop.Id(i).Some? && pop.Id(i).value == id;
      assert part[i] == id;
    }
  }

  lemma DisjointRanges(m: map<nat, string>, n: map<nat, string>, sum: map<nat, string>)
    requires Range(m) !! Range(n) && sum.Keys == m.Keys + n.Keys
    requires forall i :: i in m ==> sum[i] == m[i]
    requires forall i :: i in n ==> sum[i] == n[i]
    ensures |Range(sum)| == |Range(m)| + |Range(n)|
  {
    forall id | id in Range(m)
      ensures id in Range(sum)
    {
      var i: nat :| i in m && m[i] == id;
      assert sum[i] == id;
    }
    forall id | id in Range(n)
      ensures id in Range(sum)
    {
      var i: nat :| i in n && n[i] == id;
      assert sum[i] == id;
    }
    forall id | id in Range(sum)
      ensures id in Range(m) + Range(n)
    {
      var i: nat :| i in sum && sum[i] == id;
      assert i in m.Keys || i in n.Keys;
    }
    assert Range(sum) == Range(m) + Range(n);
  }

  function Strangers(longest: nat, unread: set<nat>): (m: map<nat, string>)
    ensures m.Keys == unread && forall i :: i in unread ==> m[i] == Fresh(longest, i)
  {
    map i | i in unread :: Fresh(longest, i)
  }

  lemma StrangersAreNew(longest: nat, unread: set<nat>)
    ensures |Range(Strangers(longest, unread))| == |unread|
    ensures forall id :: id in Range(Strangers(longest, unread)) ==> |id| > longest
  {
    var strangers := Strangers(longest, unread);
    forall i: nat, j: nat | i in strangers && j in strangers && i != j
      ensures strangers[i] != strangers[j]
    {
      FreshDiffers(longest, i, j);
    }
    InjectiveSize(strangers);
  }

  lemma ExtendRead(pop: Population, g: set<nat>, extra: map<nat, string>)
    requires AggregateRule(pop.rule) && forall i :: i in g ==> i < |pop.bundles|
    requires extra.Keys == g - pop.Readable(g)
    ensures Completes(pop, g, ReadPart(pop, g) + extra)
    ensures ReadPart(pop, g).Keys !! extra.Keys
  {
  }

  lemma Apart(ids: set<string>, others: set<string>, longest: nat)
    requires forall id :: id in ids ==> |id| <= longest
    requires forall id :: id in others ==> |id| > longest
    ensures ids !! others
  {
  }

  /** Every unread record is somebody else. */
  lemma MostCompletion(pop: Population, g: set<nat>) returns (c: map<nat, string>)
    requires AggregateRule(pop.rule) && forall i :: i in g ==> i < |pop.bundles|
    ensures Completes(pop, g, c) && |Range(c)| == |pop.Identifiers(g)| + |g - pop.Readable(g)|
  {
    var ids, unread := pop.Identifiers(g), g - pop.Readable(g);
    var longest := Longest(ids);
    var strangers, part := Strangers(longest, unread), ReadPart(pop, g);
    ReadPartIsIdentifiers(pop, g);
    StrangersAreNew(longest, unread);
    ExtendRead(pop, g, strangers);
    Apart(ids, Range(strangers), longest);
    c := part + strangers;
    assert |Range(c)| == |Range(part)| + |Range(strangers)| by {
      DisjointRanges(part, strangers, c);
    }
  }

  /** A counted verdict says neither more nor less than the evidence: PASS exactly when every
      completion of the group stays within the limit, FAIL exactly when every one exceeds it - and
      so UNKNOWN exactly when the unread identifiers could go either way. */
  lemma CountIsExact(pop: Population, g: set<nat>, i: nat)
    requires AggregateRule(pop.rule) && pop.Ask().operator.CountLte? && forall i :: i in g ==> i < |pop.bundles|
    requires i in g && pop.Id(i).Some?
    ensures pop.CountOutcome(g, i).PASS? <==> forall c :: Completes(pop, g, c) ==> |Range(c)| <= pop.Ask().value.value.n
    ensures pop.CountOutcome(g, i).FAIL? <==> forall c :: Completes(pop, g, c) ==> |Range(c)| > pop.Ask().value.value.n
  {
    forall c | Completes(pop, g, c)
      ensures |pop.Identifiers(g)| <= |Range(c)| <= |pop.Identifiers(g)| + |g - pop.Readable(g)|
    {
      CountBrackets(pop, g, c);
    }
    var fewest := FewestCompletion(pop, g, i);
    var most := MostCompletion(pop, g);
    assert Completes(pop, g, fewest) && Completes(pop, g, most);
  }

  // ------------------------------------------------------------------ nights
  /** A stay holds the nights from its start up to, not including, its end. */
  predicate HoldsNight(stay: Segment, night: string)
  {
    Le(stay.start, night) && Lt(night, stay.end)
  }

  predicate SharedNight(one: Segment, two: Segment, night: string)
  {
    HoldsNight(one, night) && HoldsNight(two, night)
  }

  /** A stay of no nights, strictly inside another. */
  predicate EmptyInside(one: Segment, two: Segment)
  {
    one.start == one.end && Lt(two.start, one.start) && Lt(one.end, two.end)
  }

  lemma SharedNightOverlaps(one: Segment, two: Segment, night: string)
    requires SharedNight(one, two, night)
    ensures Overlaps(one, two)
  {
    if Le(two.end, one.start) { LeTransitive(two.end, one.start, night); }
    if Le(one.end, two.start) { LeTransitive(one.end, two.start, night); }
  }

  /** Two stays overlap exactly when they share a night, or one holds no night at all and lies
      strictly inside the other. */
  lemma OverlapIffNight(one: Segment, two: Segment)
    requires Le(one.start, one.end) && Le(two.start, two.end)
    ensures Overlaps(one, two) <==>
              (exists night :: SharedNight(one, two, night)) || EmptyInside(one, two) || EmptyInside(two, one)
  {
    if night :| SharedNight(one, two, night) {
      SharedNightOverlaps(one, two, night);
    }
    LeReflexive(one.start);
    LeReflexive(two.start);
    LeTotal(one.start, two.start);
    if Overlaps(one, two) {
      if Le(one.start, two.start) {
        if Lt(two.start, two.end) {
          assert SharedNight(one, two, two.start);
        } else {
          LeAntisymmetric(two.start, two.end);
          assert EmptyInside(two, one);
        }
      } else if Lt(one.start, one.end) {
        assert SharedNight(one, two, one.start);
      } else {
        LeAntisymmetric(one.start, one.end);
        assert EmptyInside(one, two);
      }
    }
  }

  /** If every member of a group PASSes, every night is held by at most one reservation. */
  lemma ClearGroupHasOneIdPerNight(pop: Population, g: set<nat>, night: string, i: nat, j: nat)
    requires AggregateRule(pop.rule) && pop.Ask().operator.NoOverlap? && forall i :: i in g ==> i < |pop.bundles|
    requires forall i :: i in g ==> pop.OverlapOutcome(g, i).PASS?
    requires i in g && j in g
    ensures pop.Stay(i).Some? && pop.Stay(j).Some?
    ensures SharedNight(pop.Stay(i).value, pop.Stay(j).value, night) ==> pop.Stay(i).value.id == pop.Stay(j).value.id
  {
    assert pop.OverlapOutcome(g, i).PASS? && pop.OverlapOutcome(g, j).PASS?;
    if SharedNight(pop.Stay(i).value, pop.Stay(j).value, night) {
      SharedNightOverlaps(pop.Stay(i).value, pop.Stay(j).value, night);
    }
  }

  /** Two records of different identifiers meet exactly when some night is held by both, or one holds
      no night at all and lies strictly inside the other. */
  lemma MeetsIffNight(p: Predicate, b: Bundle, c: Bundle)
    requires p.interval.Some? && StayReadable(p, b) && StayReadable(p, c) && TextOf(b, p.field) != TextOf(c, p.field)
    requires Le(TextOf(b, p.interval.value.start), TextOf(b, p.interval.value.end))
    requires Le(TextOf(c, p.interval.value.start), TextOf(c, p.interval.value.end))
    ensures var (b0, b1) := (TextOf(b, p.interval.value.start), TextOf(b, p.interval.value.end));
            var (c0, c1) := (TextOf(c, p.interval.value.start), TextOf(c, p.interval.value.end));
            Meets(p, b, c) <==>
              || (exists night :: HoldsTheNight(p, b, night) && HoldsTheNight(p, c, night))
              || (b0 == b1 && Lt(c0, b0) && Lt(b0, c1))
              || (c0 == c1 && Lt(b0, c0) && Lt(c0, b1))
  {
    hide Le, TextOf;
    var one := Segment(TextOf(b, p.field), TextOf(b, p.interval.value.start), TextOf(b, p.interval.value.end));
    var two := Segment(TextOf(c, p.field), TextOf(c, p.interval.value.start), TextOf(c, p.interval.value.end));
    OverlapIffNight(one, two);
    if night :| SharedNight(one, two, night) {
      assert HoldsTheNight(p, b, night) && HoldsTheNight(p, c, night);
    }
    if night :| HoldsTheNight(p, b, night) && HoldsTheNight(p, c, night) {
      assert SharedNight(one, two, night);
    }
  }

  /** If every record counted under a key is told PASS, no night is held under two identifiers. */
  lemma PassingKeepsNightsApart(rule: Rule, bundles: seq<Bundle>, s: Settings, key: string, night: string, i: nat,
                                j: nat)
    requires rule.assertion.mode.Aggregate? && AggregateRule(rule) && rule.assertion.predicates[0].operator.NoOverlap?
    requires forall k: nat | k < |bundles|
               && Counted(rule, bundles, s, key, k) :: PopulationOutcome(rule, bundles, s, k).PASS?
    requires Counted(rule, bundles, s, key, i) && Counted(rule, bundles, s, key, j)
    ensures var p := rule.assertion.predicates[0];
            && StayReadable(p, bundles[i]) && StayReadable(p, bundles[j])
            && (HoldsTheNight(p, bundles[i], night) && HoldsTheNight(p, bundles[j], night) ==>
                  TextOf(bundles[i], p.field) == TextOf(bundles[j], p.field))
  {
    hide InScope, TextOf, Le;
    var pop, p := Population(rule, bundles, s), rule.assertion.predicates[0];
    OverlapMeans(pop, key, i);
    OverlapMeans(pop, key, j);
    assert StayReadable(p, bundles[i]) && StayReadable(p, bundles[j]) && !Meets(p, bundles[i], bundles[j]);
    if HoldsTheNight(p, bundles[i], night) && HoldsTheNight(p, bundles[j], night) {
      var b0, b1 := TextOf(bundles[i], p.interval.value.start), TextOf(bundles[i], p.interval.value.end);
      var c0, c1 := TextOf(bundles[j], p.interval.value.start), TextOf(bundles[j], p.interval.value.end);
      if Le(b1, c0) { LeTransitive(b1, c0, night); }
      if Le(c1, b0) { LeTransitive(c1, b0, night); }
    }
  }

  /** An accusation is mutual: whoever a FAILing record overlaps FAILs too. */
  lemma AccusationIsMutual(pop: Population, g: set<nat>, i: nat)
    requires AggregateRule(pop.rule) && pop.Ask().operator.NoOverlap? && forall i :: i in g ==> i < |pop.bundles|
    requires i in g && pop.OverlapOutcome(g, i).FAIL?
    ensures exists j :: j in g && j != i && pop.OverlapOutcome(g, j).FAIL?
              && Clash(pop.Stay(i).value, pop.Stay(j).value)
  {
    var j :| j in g && pop.Stay(j).Some? && Clash(pop.Stay(i).value, pop.Stay(j).value);
    ClashIsSymmetric(pop.Stay(i).value, pop.Stay(j).value);
    assert pop.Clashes(g, j);
  }

  // ------------------------------------------------------------------ stable under refinement
  ghost predicate PopulationRefines(a: Population, b: Population)
  {
    && a.rule == b.rule && |a.bundles| == |b.bundles| && SettingsRefine(a.settings, b.settings)
    && forall i :: 0 <= i < |a.bundles| ==> BundleRefines(a.bundles[i], b.bundles[i])
  }

  /** No record whose key could not be read, and that may belong, turns out to hold this key. */
  ghost predicate KeysHeld(a: Population, b: Population, key: string)
    requires AggregateRule(a.rule) && PopulationRefines(a, b)
  {
    forall i: nat :: i < |a.bundles| && a.Key(i).None? && a.SettledAs(i) != Some(EXCLUDED) ==> b.Key(i) != Some(key)
  }

  lemma IdStable(name: string, b: Bundle, b': Bundle)
    requires FieldsRefine(b.fields, b'.fields)
    ensures IdOf(name, b).Some? ==> IdOf(name, b') == IdOf(name, b)
  {
  }

  lemma MemberStable(a: Population, b: Population, i: nat)
    requires AggregateRule(a.rule) && PopulationRefines(a, b) && i < |a.bundles|
    ensures a.SettledAs(i) in {None, Some(EXCLUDED)} ==> b.SettledAs(i) == a.SettledAs(i)
    ensures a.Key(i).Some? ==> b.Key(i) == a.Key(i)
    ensures a.Id(i).Some? ==> b.Id(i) == a.Id(i)
    ensures a.Ask().operator.NoOverlap? && a.Stay(i).Some? ==> b.Stay(i) == a.Stay(i)
  {
    if a.SettledAs(i) in {None, Some(EXCLUDED)} {
      SettlesStable(a.rule, a.bundles[i], b.bundles[i], a.settings, b.settings);
    }
    var p := a.Ask();
    IdStable(a.rule.assertion.groupBy.value, a.bundles[i], b.bundles[i]);
    IdStable(p.field, a.bundles[i], b.bundles[i]);
    if p.operator.NoOverlap? {
      IdStable(p.interval.value.start, a.bundles[i], b.bundles[i]);
      IdStable(p.interval.value.end, a.bundles[i], b.bundles[i]);
    }
  }

  /** A group only gains members as evidence is read. */
  lemma GroupGrows(a: Population, b: Population, key: string)
    requires AggregateRule(a.rule) && PopulationRefines(a, b)
    ensures a.Group(key) <= b.Group(key)
  {
    forall i | i in a.Group(key)
      ensures i in b.Group(key)
    {
      MemberStable(a, b, i);
    }
  }

  /** A group without an uncertain record, and without an unread key turning into its own, stays the
      same group. */
  lemma GroupHeld(a: Population, b: Population, key: string)
    requires AggregateRule(a.rule) && PopulationRefines(a, b) && KeysHeld(a, b, key)
    requires !a.Uncertain(key) && forall i: nat :: i < |a.bundles| ==> a.SettledAs(i) != Some(RAISED)
    ensures b.Group(key) == a.Group(key) && !b.Uncertain(key)
  {
    GroupGrows(a, b, key);
    forall i: nat | i < |a.bundles| && b.Key(i) == Some(key) && b.SettledAs(i) in {None, Some(UNKNOWN)}
      ensures b.SettledAs(i) == None && i in a.Group(key)
    {
      MemberStable(a, b, i);
      assert a.SettledAs(i) != Some(EXCLUDED);
      assert a.Key(i) == Some(key);
    }
  }

  lemma UnionSize(a: set<string>, b: set<string>)
    ensures |a + b| <= |a| + |b|
  {
    assert a + b == a + (b - a) && a !! (b - a);
    Subset(b - a, b);
  }

  lemma PartsSize(g: set<nat>, all: set<nat>, read: set<nat>)
    requires read <= all <= g
    ensures |g - (all - read)| == |g - all| + |read|
  {
    assert g - (all - read) == (g - all) + read && (g - all) !! read;
  }

  lemma NewlyRead(ids: map<nat, string>, ids': map<nat, string>, read: map<nat, string>)
    requires forall i :: i in ids ==> i in ids' && ids'[i] == ids[i]
    requires forall i :: i in ids' && i !in ids ==> i in read && read[i] == ids'[i]
    ensures Range(ids') <= Range(ids) + Range(read)
  {
    forall id | id in Range(ids')
      ensures id in Range(ids) + Range(read)
    {
      var i :| i in ids' && ids'[i] == id;
      if i in ids {
        assert ids[i] == id;
      } else {
        assert read[i] == id;
      }
    }
  }

  /** The names that can be read, by record. */
  function Names(p: Population, g: set<nat>): map<nat, string>
    requires AggregateRule(p.rule) && forall i :: i in g ==> i < |p.bundles|
  {
    map i | i in g && p.Id(i).Some? :: p.Id(i).value
  }

  lemma NamesAreIdentifiers(p: Population, g: set<nat>)
    requires AggregateRule(p.rule) && forall i :: i in g ==> i < |p.bundles|
    ensures Names(p, g).Keys == p.Readable(g) && Range(Names(p, g)) == p.Identifiers(g)
  {
    var names := Names(p, g);
    forall id | id in p.Identifiers(g)
      ensures id in Range(names)
    {
      var i :| i in g && p.Id(i).Some? && p.Id(i).value == id;
      assert names[i] == id;
    }
  }

  /** What is read of these records in `a` is read the same in `b`. */
  ghost predicate ReadAlike(a: Population, b: Population, g: set<nat>)
    requires AggregateRule(a.rule) && a.rule == b.rule
    requires forall i :: i in g ==> i < |a.bundles| && i < |b.bundles|
  {
    forall i | i in g ::
      && (a.Id(i).Some? ==> b.Id(i) == a.Id(i))
      && (a.Ask().operator.NoOverlap? && a.Stay(i).Some? ==> b.Stay(i) == a.Stay(i))
  }

  lemma RefinedReadAlike(a: Population, b: Population, g: set<nat>)
    requires AggregateRule(a.rule) && PopulationRefines(a, b) && forall i :: i in g ==> i < |a.bundles|
    ensures ReadAlike(a, b, g)
  {
    forall i | i in g { MemberStable(a, b, i); }
  }

  /** Fewer unread identifiers never widen the counted range. */
  lemma RangeNarrows(a: Population, b: Population, g: set<nat>)
    requires AggregateRule(a.rule) && a.rule == b.rule
    requires forall i :: i in g ==> i < |a.bundles| && i < |b.bundles|
    requires ReadAlike(a, b, g)
    ensures |b.Identifiers(g)| + |g - b.Readable(g)| <= |a.Identifiers(g)| + |g - a.Readable(g)|
  {
    hide Range;
    NamesAreIdentifiers(a, g);
    NamesAreIdentifiers(b, g);
    var ids, ids' := Names(a, g), Names(b, g);
    var read := map i | i in ids'.Keys - ids.Keys :: ids'[i];
    RangeSize(read);
    NewlyRead(ids, ids', read);
    UnionSize(Range(ids), Range(read));
    Subset(Range(ids'), Range(ids) + Range(read));
    PartsSize(g, ids'.Keys, read.Keys);
    assert ids'.Keys - read.Keys == ids.Keys;
  }

  lemma CountStable(a: Population, b: Population, g: set<nat>, g': set<nat>, i: nat)
    requires AggregateRule(a.rule) && PopulationRefines(a, b) && a.Ask().operator.CountLte?
    requires g <= g' && i in g && forall i :: i in g' ==> i < |a.bundles|
    ensures a.CountOutcome(g, i).FAIL? ==> b.CountOutcome(g', i).FAIL?
    ensures a.CountOutcome(g, i).PASS? && g' == g ==> b.CountOutcome(g', i).PASS?
  {
    forall i | i in g { MemberStable(a, b, i); }
    assert a.Identifiers(g) <= b.Identifiers(g');
    Subset(a.Identifiers(g), b.Identifiers(g'));
    if g' == g {
      RefinedReadAlike(a, b, g);
      RangeNarrows(a, b, g);
    }
  }

  lemma OverlapStable(a: Population, b: Population, g: set<nat>, g': set<nat>, i: nat)
    requires AggregateRule(a.rule) && PopulationRefines(a, b) && a.Ask().operator.NoOverlap?
    requires g <= g' && i in g && forall i :: i in g' ==> i < |a.bundles|
    ensures a.OverlapOutcome(g, i).FAIL? ==> b.OverlapOutcome(g', i).FAIL?
    ensures a.OverlapOutcome(g, i).PASS? && g' == g ==> b.OverlapOutcome(g', i).PASS?
  {
    forall j | j in g
      ensures a.Stay(j).Some? ==> b.Stay(j) == a.Stay(j)
    {
      MemberStable(a, b, j);
    }
  }

  /** What a record of an aggregate rule is told survives completion. FAIL and EXCLUDED survive every
      refinement whatever is read. A PASS survives every refinement in which no record with an
      unreadable key, not already excluded, turns out to share its key. */
  lemma PopulationStable(a: Population, b: Population, i: nat)
    requires AggregateRule(a.rule) && PopulationRefines(a, b) && i < |a.bundles|
    requires forall j: nat :: j < |a.bundles| ==> a.SettledAs(j) != Some(RAISED)
    requires Conclusive(a.OutcomeOf(i))
    requires a.OutcomeOf(i).PASS? ==> a.Key(i).Some? && KeysHeld(a, b, a.Key(i).value)
    ensures b.OutcomeOf(i) == a.OutcomeOf(i)
  {
    MemberStable(a, b, i);
    if a.SettledAs(i).None? {
      var key := a.Key(i).value;
      var g, g' := a.Group(key), b.Group(key);
      GroupGrows(a, b, key);
      if a.OutcomeOf(i).PASS? {
        GroupHeld(a, b, key);
      }
      if a.Ask().operator.CountLte? {
        CountStable(a, b, g, g', i);
      } else if a.Ask().operator.NoOverlap? {
        OverlapStable(a, b, g, g', i);
      }
    }
  }

  // ------------------------------------------------------------------ why the keys must be held
  function Pair(secondKey: Value): Population
  {
    var ask := Predicate("r.id", CountLte, Some(WholeLiteral(1)), None, None, None, None);
    var first := Bundle("r", None, map["r.key" := Known(Text("A"), None), "r.id" := Known(Text("1"), None)], map[],
      map[], map[], map[]);
    var second := Bundle("r", None, map["r.key" := secondKey, "r.id" := Known(Text("2"), None)], map[], map[], map[],
      map[]);
    Population(Rule("r", [], [], [], Assertion(Aggregate, Some("r.key"), [ask])), [first, second], None)
  }

  lemma PairFacts(secondKey: Value)
    ensures var pop := Pair(secondKey);
            && AggregateRule(pop.rule) && pop.SettledAs(0) == pop.SettledAs(1) == None
            && pop.Key(0) == Some("A") && pop.Id(0) == Some("1") && pop.Id(1) == Some("2")
            && pop.Key(1) == (if secondKey.Known? then Some(Str(secondKey.payload)) else None)
            && pop.Ask().operator.CountLte? && pop.Ask().value.value.n == 1
  {
  }

  lemma TwoIds(pop: Population)
    requires AggregateRule(pop.rule) && |pop.bundles| == 2 && pop.Id(0) == Some("1") && pop.Id(1) == Some("2")
    ensures |pop.Identifiers({0, 1})| == 2
    ensures |pop.Identifiers({0})| == 1 && {0} - pop.Readable({0}) == {}
  {
    assert pop.Identifiers({0}) == {"1"};
    assert pop.Identifiers({0, 1}) == {"1", "2"};
    assert "1"[0] != "2"[0];
    assert |{"1", "2"}| == 2;
  }

  lemma PairOutcome(secondKey: Value)
    requires secondKey.Unknown? || secondKey == Known(Text("A"), None)
    ensures Pair(secondKey).OutcomeOf(0) == if secondKey.Unknown? then PASS else FAIL
  {
    var pop := Pair(secondKey);
    PairFacts(secondKey);
    TwoIds(pop);
    var g := pop.Group("A");
    assert 0 in g && (1 in g <==> secondKey.Known?);
    assert g == if secondKey.Known? then {0, 1} else {0};
    assert !pop.Uncertain("A");
    assert pop.GroupOutcome(g, 0) == pop.CountOutcome(g, 0);
  }

  lemma PairRefines(secondKey: Value)
    ensures PopulationRefines(Pair(Unknown("unread", None)), Pair(secondKey))
  {
    var a, b := Pair(Unknown("unread", None)), Pair(secondKey);
    BundleRefinesItself(a.bundles[0]);
    assert BundleRefines(a.bundles[1], b.bundles[1]);
  }

  /** "A is the only one" stops being true when the other record's key is read: the code counts a
      record with an unreadable key against no group. */
  lemma UnreadKeyEscapes(a: Population, b: Population)
    requires a == Pair(Unknown("unread", None)) && b == Pair(Known(Text("A"), None))
    ensures PopulationRefines(a, b) && a.OutcomeOf(0).PASS? && b.OutcomeOf(0).FAIL?
  {
    PairOutcome(Unknown("unread", None));
    PairOutcome(Known(Text("A"), None));
    PairRefines(Known(Text("A"), None));
  }
}
