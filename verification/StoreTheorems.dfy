/** What the store gives back, and to whom (hotelcontrols/store/sqlite.py). */
module StoreTheorems {
  import opened Basics
  import opened Values
  import opened Codec
  import opened Runs
  import opened Queue
  import opened Store

  // ------------------------------------------------------------------ rows
  lemma {:induction false} LinesAppend(a: seq<EvidenceRow>, b: seq<EvidenceRow>, id: RunId, p: nat)
    ensures LinesOf(a + b, id, p) == LinesOf(a, id, p) + LinesOf(b, id, p)
  {
    hide LineOf;
    if b == [] {
      assert a + b == a;
    } else {
      assert (a + b)[..|a + b| - 1] == a + b[..|b| - 1];
      LinesAppend(a, b[..|b| - 1], id, p);
    }
  }

  lemma {:induction false} VerdictsAppend(a: seq<VerdictRow>, b: seq<VerdictRow>, evidence: seq<EvidenceRow>,
                                          id: RunId, control: string)
    ensures VerdictsOf(a + b, evidence, id, control)
              == VerdictsOf(a, evidence, id, control) + VerdictsOf(b, evidence, id, control)
  {
    hide LinesOf;
    if b == [] {
      assert a + b == a;
    } else {
      assert (a + b)[..|a + b| - 1] == a + b[..|b| - 1];
      VerdictsAppend(a, b[..|b| - 1], evidence, id, control);
    }
  }

  /** Deleting a run's rows leaves none of them and every other run's. */
  lemma {:induction false} DeletedEvidence(rows: seq<EvidenceRow>, id: RunId, other: RunId, p: nat)
    ensures LinesOf(OtherEvidence(rows, id), other, p) == if other == id then [] else LinesOf(rows, other, p)
    ensures AllReadable(OtherEvidence(rows, id), other) <==> other == id || AllReadable(rows, other)
  {
    hide LineOf, RowReadable;
    if rows != [] {
      var front, last := rows[..|rows| - 1], rows[|rows| - 1];
      DeletedEvidence(front, id, other, p);
      var kept := OtherEvidence(front, id);
      ReadableThen(front, last, other);
      assert rows == front + [last];
      if last.run != id {
        ReadableThen(kept, last, other);
        LinesAppend(kept, [last], other, p);
        LinesAppend(front, [last], other, p);
      } else {
        assert OtherEvidence(rows, id) == kept;
        LinesAppend(front, [last], other, p);
        LinesOfOne(last, other, p);
      }
    }
  }

  lemma LinesOfOne(row: EvidenceRow, id: RunId, p: nat)
    ensures LinesOf([row], id, p) == if row.run == id && row.position == p then [LineOf(row)] else []
  {
    hide LineOf;
    assert [row][..0] == [];
  }

  lemma ReadableThen(rows: seq<EvidenceRow>, last: EvidenceRow, id: RunId)
    ensures AllReadable(rows + [last], id) <==> AllReadable(rows, id) && (last.run == id ==> RowReadable(last))
  {
    hide RowReadable;
    if AllReadable(rows + [last], id) {
      forall i | 0 <= i < |rows| && rows[i].run == id ensures RowReadable(rows[i]) {
        assert (rows + [last])[i] == rows[i];
      }
      if last.run == id {
        assert (rows + [last])[|rows|] == last;
      }
    }
  }

  lemma {:induction false} ReadableAppend(a: seq<EvidenceRow>, b: seq<EvidenceRow>, id: RunId)
    ensures AllReadable(a + b, id) <==> AllReadable(a, id) && AllReadable(b, id)
  {
    hide RowReadable;
    if b == [] {
      assert a + b == a;
    } else {
      var front, last := b[..|b| - 1], b[|b| - 1];
      ReadableAppend(a, front, id);
      ReadableThen(a + front, last, id);
      ReadableThen(front, last, id);
      assert a + b == (a + front) + [last] && b == front + [last];
    }
  }

  lemma {:induction false} DeletedVerdicts(rows: seq<VerdictRow>, id: RunId, other: RunId, evidence: seq<EvidenceRow>,
                                           control: string)
    ensures VerdictsOf(OtherVerdicts(rows, id), evidence, other, control)
            == if other == id then [] else VerdictsOf(rows, evidence, other, control)
  {
    hide LinesOf;
    if rows != [] {
      var front, last := rows[..|rows| - 1], rows[|rows| - 1];
      DeletedVerdicts(front, id, other, evidence, control);
      if last.run != id {
        assert (OtherVerdicts(front, id) + [last])[..|OtherVerdicts(front, id)|] == OtherVerdicts(front, id);
      } else {
        assert OtherVerdicts(rows, id) == OtherVerdicts(front, id);
      }
    }
  }

  // ------------------------------------------------------------------ the rows a run writes
  /** A line as it is read back. */
  function ReadBack(l: Line): Line
  {
    LineOf(LineRow(Given(""), 0, 0, l))
  }

  function AllReadBack(ls: seq<Line>): (back: seq<Line>)
    ensures |back| == |ls| && forall i :: 0 <= i < |ls| ==> back[i] == ReadBack(ls[i])
  {
    seq(|ls|, i requires 0 <= i < |ls| => ReadBack(ls[i]))
  }

  predicate LineReadable(l: Line)
  {
    RowReadable(LineRow(Given(""), 0, 0, l))
  }

  lemma RowSays(id: RunId, p: nat, n: nat, l: Line)
    ensures var row := LineRow(id, p, n, l);
            row.run == id && row.position == p && LineOf(row) == ReadBack(l) && (RowReadable(row) <==> LineReadable(l))
  {
    hide Encode, Decode;
  }

  lemma BackThen(ls: seq<Line>, l: Line)
    ensures AllReadBack(ls + [l]) == AllReadBack(ls) + [ReadBack(l)]
  {
    hide ReadBack;
  }

  lemma LinesThen(rows: seq<EvidenceRow>, last: EvidenceRow, id: RunId, p: nat)
    ensures LinesOf(rows + [last], id, p)
            == LinesOf(rows, id, p) + if last.run == id && last.position == p then [LineOf(last)] else []
  {
    hide LineOf;
    LinesAppend(rows, [last], id, p);
    LinesOfOne(last, id, p);
  }

  lemma {:induction false} LinesWritten(id: RunId, p: nat, ls: seq<Line>, other: RunId, q: nat)
    ensures LinesOf(LineRows(id, p, ls), other, q) == if other == id && q == p then AllReadBack(ls) else []
  {
    hide LineOf, LineRow, ReadBack, AllReadBack, LinesOf;
    if ls == [] {
      NoRows(other, q);
      assert AllReadBack(ls) == [];
    } else {
      var n := |ls| - 1;
      LinesWritten(id, p, ls[..n], other, q);
      var front, last := LineRows(id, p, ls[..n]), LineRow(id, p, n, ls[n]);
      RowSays(id, p, n, ls[n]);
      LinesThen(front, last, other, q);
      if other == id && q == p {
        BackThen(ls[..n], ls[n]);
        assert ls == ls[..n] + [ls[n]];
      }
    }
  }

  lemma {:induction false} LinesReadable(id: RunId, p: nat, ls: seq<Line>, other: RunId)
    ensures AllReadable(LineRows(id, p, ls), other) <==>
              other != id || forall i :: 0 <= i < |ls| ==> LineReadable(ls[i])
  {
    hide LineOf, RowReadable, LineRow, LineReadable, ReadBack, AllReadable;
    if ls == [] {
      NoRows(other, p);
    } else {
      var n := |ls| - 1;
      LinesReadable(id, p, ls[..n], other);
      RowSays(id, p, n, ls[n]);
      ReadableThen(LineRows(id, p, ls[..n]), LineRow(id, p, n, ls[n]), other);
      assert ls == ls[..n] + [ls[n]];
    }
  }

  predicate EvidenceReadable(vs: seq<Verdict>)
  {
    forall p, i :: 0 <= p < |vs| && 0 <= i < |vs[p].evidence| ==> LineReadable(vs[p].evidence[i])
  }

  lemma ReadableVerdictThen(vs: seq<Verdict>, v: Verdict)
    ensures EvidenceReadable(vs + [v]) <==>
              EvidenceReadable(vs) && forall i :: 0 <= i < |v.evidence| ==> LineReadable(v.evidence[i])
  {
    hide LineReadable;
    var all := vs + [v];
    assert all[|vs|] == v;
    if EvidenceReadable(all) {
      forall p, i | 0 <= p < |vs| && 0 <= i < |vs[p].evidence| ensures LineReadable(vs[p].evidence[i]) {
        assert all[p] == vs[p];
      }
      forall i | 0 <= i < |v.evidence| ensures LineReadable(v.evidence[i]) {
        assert LineReadable(all[|vs|].evidence[i]);
      }
    }
  }

  lemma {:induction false} EvidenceWritten(id: RunId, vs: seq<Verdict>, other: RunId, q: nat)
    ensures LinesOf(EvidenceRows(id, vs), other, q) == if other == id && q < |vs| then AllReadBack(vs[q].evidence)
              else []
  {
    hide LineRows, LinesOf, AllReadBack;
    if vs == [] {
      NoRows(other, q);
    } else {
      var n := |vs| - 1;
      EvidenceWritten(id, vs[..n], other, q);
      var front, rows := EvidenceRows(id, vs[..n]), LineRows(id, n, vs[n].evidence);
      LinesWritten(id, n, vs[n].evidence, other, q);
      LinesAppend(front, rows, other, q);
      var lines := LinesOf(front, other, q);
      assert lines + [] == lines && [] + AllReadBack(vs[n].evidence) == AllReadBack(vs[n].evidence);
    }
  }

  lemma {:induction false} EvidenceReads(id: RunId, vs: seq<Verdict>, other: RunId)
    ensures AllReadable(EvidenceRows(id, vs), other) <==> other != id || EvidenceReadable(vs)
  {
    hide LineRows, AllReadable, EvidenceReadable;
    if vs == [] {
      NoRows(other, 0);
      NothingToRead();
    } else {
      var n := |vs| - 1;
      EvidenceReads(id, vs[..n], other);
      LinesReadable(id, n, vs[n].evidence, other);
      ReadableAppend(EvidenceRows(id, vs[..n]), LineRows(id, n, vs[n].evidence), other);
      ReadableVerdictThen(vs[..n], vs[n]);
      assert vs == vs[..n] + [vs[n]];
    }
  }

  lemma NoRows(id: RunId, p: nat)
    ensures LinesOf([], id, p) == [] && AllReadable([], id)
  {
  }

  lemma NothingToRead()
    ensures EvidenceReadable([])
  {
  }

  /** A run as the store gives it back: each verdict names its control, and payloads are what their
      encoding says. */
  function VerdictBack(v: Verdict, control: string): Verdict
  {
    Verdict(v.outcome, v.reason, AllReadBack(v.evidence), Some(control), v.record)
  }

  function VerdictsBack(vs: seq<Verdict>, control: string): (back: seq<Verdict>)
    ensures |back| == |vs| && forall i :: 0 <= i < |vs| ==> back[i] == VerdictBack(vs[i], control)
  {
    seq(|vs|, i requires 0 <= i < |vs| => VerdictBack(vs[i], control))
  }

  lemma {:induction false} VerdictsWritten(id: RunId, vs: seq<Verdict>, all: seq<Verdict>, evidence: seq<EvidenceRow>,
                                           control: string)
    requires vs <= all && forall q: nat :: q < |all| ==> LinesOf(evidence, id, q) == AllReadBack(all[q].evidence)
    ensures VerdictsOf(VerdictRows(id, vs), evidence, id, control) == VerdictsBack(vs, control)
  {
    hide LinesOf, AllReadBack, VerdictsOf;
    if vs == [] {
      NoVerdictRows(evidence, id, control);
    } else {
      var n := |vs| - 1;
      VerdictsWritten(id, vs[..n], all, evidence, control);
      var front, last := VerdictRows(id, vs[..n]), VerdictRowOf(id, n, vs[n]);
      assert VerdictRows(id, vs) == front + [last];
      VerdictsAppend(front, [last], evidence, id, control);
      OneVerdict(last, evidence, id, control);
      assert LinesOf(evidence, id, n) == AllReadBack(all[n].evidence) && all[n] == vs[n];
      assert VerdictsBack(vs, control) == VerdictsBack(vs[..n], control) + [VerdictBack(vs[n], control)];
    }
  }

  lemma NoVerdictRows(evidence: seq<EvidenceRow>, id: RunId, control: string)
    ensures VerdictsOf([], evidence, id, control) == [] && VerdictsBack([], control) == []
  {
  }

  lemma OneVerdict(row: VerdictRow, evidence: seq<EvidenceRow>, id: RunId, control: string)
    requires row.run == id
    ensures VerdictsOf([row], evidence, id, control)
            == [Verdict(row.outcome, row.reason, LinesOf(evidence, id, row.position), Some(control), row.record)]
  {
    hide LinesOf;
    assert [row][..0] == [];
  }

  // ------------------------------------------------------------------ save and load
  /** What `load` gives after `save`, over every store and every run that is saved. */
  lemma ReloadAfterSave(t: Tables, run: Run)
    requires Save(t, run).Saved?
    ensures var after := Reload(Save(t, run).tables, IdOf(run), run.tenant);
            if EvidenceReadable(run.verdicts)
            then after == Loaded(run.(verdicts := VerdictsBack(run.verdicts, run.control), id := Some(IdOf(run))))
            else after == Unreadable
  {
    hide LinesOf, VerdictsOf, AllReadable, EvidenceReadable, AllReadBack, RunWritable;
    hide EvidenceRows, VerdictRows, OtherVerdicts, OtherEvidence;
    var id, vs := IdOf(run), run.verdicts;
    var after := Save(t, run).tables;
    forall q: nat | q < |vs|
      ensures LinesOf(after.evidence, id, q) == AllReadBack(vs[q].evidence)
    {
      LinesAppend(OtherEvidence(t.evidence, id), EvidenceRows(id, vs), id, q);
      DeletedEvidence(t.evidence, id, id, q);
      EvidenceWritten(id, vs, id, q);
    }
    ReadableAppend(OtherEvidence(t.evidence, id), EvidenceRows(id, vs), id);
    DeletedEvidence(t.evidence, id, id, 0);
    EvidenceReads(id, vs, id);
    VerdictsAppend(OtherVerdicts(t.verdicts, id), VerdictRows(id, vs), after.evidence, id, run.control);
    DeletedVerdicts(t.verdicts, id, id, after.evidence, run.control);
    VerdictsWritten(id, vs, vs, after.evidence, run.control);
  }

  predicate LineStorable(l: Line)
  {
    l.value.Known? ==> Storable(l.value.payload)
  }

  lemma StorableLine(l: Line)
    ensures LineWritable(l) && LineReadable(l) && ReadBack(l) == l <==> LineStorable(l)
  {
    hide Encode, Decode, Storable;
    if l.value.Known? {
      CodecRoundTrip(l.value.payload);
    }
  }

  predicate Attributed(run: Run)
  {
    forall p :: 0 <= p < |run.verdicts| ==> run.verdicts[p].control == Some(run.control)
  }

  predicate RunStorable(run: Run)
  {
    forall p, i :: 0 <= p < |run.verdicts| && 0 <= i < |run.verdicts[p].evidence| ==>
      LineStorable(run.verdicts[p].evidence[i])
  }

  /** `load` after `save` gives back the same run, under its id, exactly when every payload is one
      the codec gives back and every verdict already names the run's control. */
  lemma SaveThenReload(t: Tables, run: Run)
    requires !TakenByAnother(t, run)
    ensures Save(t, run).Saved?
            && Reload(Save(t, run).tables, IdOf(run), run.tenant) == Loaded(run.(id := Some(IdOf(run))))
            <==> RunStorable(run) && Attributed(run)
  {
    hide LineWritable, LineReadable, ReadBack, LineStorable, Reload;
    var vs := run.verdicts;
    forall p, i | 0 <= p < |vs| && 0 <= i < |vs[p].evidence|
      ensures var l := vs[p].evidence[i]; LineWritable(l) && LineReadable(l) && ReadBack(l) == l <==> LineStorable(l)
    {
      StorableLine(vs[p].evidence[i]);
    }
    if Save(t, run).Saved? {
      ReloadAfterSave(t, run);
      if VerdictsBack(vs, run.control) == vs && EvidenceReadable(vs) {
        forall p | 0 <= p < |vs|
          ensures vs[p].control == Some(run.control)
          ensures forall i :: 0 <= i < |vs[p].evidence| ==> LineStorable(vs[p].evidence[i])
        {
          assert VerdictBack(vs[p], run.control) == vs[p];
        }
      }
    }
    if RunStorable(run) && Attributed(run) {
      assert RunWritable(run) && EvidenceReadable(vs);
      forall p | 0 <= p < |vs| ensures VerdictBack(vs[p], run.control) == vs[p] {
        assert AllReadBack(vs[p].evidence) == vs[p].evidence;
      }
      assert VerdictsBack(vs, run.control) == vs;
    }
  }

  // ------------------------------------------------------------------ the order rows are read in
  datatype Spot = Spot(run: RunId, position: nat, line: nat)

  predicate Before(a: Spot, b: Spot)
  {
    a.run == b.run ==> a.position < b.position || (a.position == b.position && a.line < b.line)
  }

  function VerdictSpot(row: VerdictRow): Spot
  {
    Spot(row.run, row.position, 0)
  }

  function EvidenceSpot(row: EvidenceRow): Spot
  {
    Spot(row.run, row.position, row.line)
  }

  function VerdictSpots(rows: seq<VerdictRow>): (spots: seq<Spot>)
    ensures |spots| == |rows| && forall i :: 0 <= i < |rows| ==> spots[i] == VerdictSpot(rows[i])
  {
    seq(|rows|, i requires 0 <= i < |rows| => VerdictSpot(rows[i]))
  }

  function EvidenceSpots(rows: seq<EvidenceRow>): (spots: seq<Spot>)
    ensures |spots| == |rows| && forall i :: 0 <= i < |rows| ==> spots[i] == EvidenceSpot(rows[i])
  {
    seq(|rows|, i requires 0 <= i < |rows| => EvidenceSpot(rows[i]))
  }

  /** The rows of each run stand in the order of their position and line, each place once. */
  predicate Ordered(spots: seq<Spot>)
  {
    forall i, j :: 0 <= i < j < |spots| ==> Before(spots[i], spots[j])
  }

  predicate NotOf(spots: seq<Spot>, id: RunId)
  {
    forall i :: 0 <= i < |spots| ==> spots[i].run != id
  }

  predicate AllOf(spots: seq<Spot>, id: RunId)
  {
    forall i :: 0 <= i < |spots| ==> spots[i].run == id
  }

  lemma OrderedJoin(a: seq<Spot>, b: seq<Spot>, id: RunId)
    requires Ordered(a) && Ordered(b) && NotOf(a, id) && AllOf(b, id)
    ensures Ordered(a + b)
  {
  }

  lemma OrderedThen(a: seq<Spot>, s: Spot)
    requires Ordered(a) && forall i :: 0 <= i < |a| ==> Before(a[i], s)
    ensures Ordered(a + [s])
  {
  }

  lemma OrderedFront(a: seq<Spot>)
    requires Ordered(a) && a != []
    ensures Ordered(a[..|a| - 1]) && forall i :: 0 <= i < |a| - 1 ==> Before(a[i], a[|a| - 1])
  {
  }

  predicate SomeOf(some: seq<Spot>, all: seq<Spot>)
  {
    forall s :: s in some ==> s in all
  }

  lemma KeptStayOrdered(front: seq<Spot>, kept: seq<Spot>, last: Spot, id: RunId)
    requires Ordered(front + [last]) && Ordered(kept) && NotOf(kept, id) && SomeOf(kept, front) && last.run != id
    ensures Ordered(kept + [last]) && NotOf(kept + [last], id) && SomeOf(kept + [last], front + [last])
  {
    OrderedFront(front + [last]);
    forall i | 0 <= i < |kept| ensures Before(kept[i], last) {
      assert kept[i] in front;
      var j :| 0 <= j < |front| && front[j] == kept[i];
      assert (front + [last])[j] == front[j];
    }
    OrderedThen(kept, last);
  }

  lemma SomeOfMore(some: seq<Spot>, front: seq<Spot>, last: Spot)
    requires SomeOf(some, front)
    ensures SomeOf(some, front + [last])
  {
  }

  lemma {:induction false} DeletingKeepsEvidenceOrder(rows: seq<EvidenceRow>, id: RunId)
    requires Ordered(EvidenceSpots(rows))
    ensures var kept := EvidenceSpots(OtherEvidence(rows, id));
            Ordered(kept) && NotOf(kept, id) && SomeOf(kept, EvidenceSpots(rows))
  {
    hide Ordered, NotOf, SomeOf;
    if rows == [] {
      NothingOrdered(id);
      assert EvidenceSpots(OtherEvidence(rows, id)) == [] == EvidenceSpots(rows);
    } else {
      var front, last := rows[..|rows| - 1], rows[|rows| - 1];
      assert EvidenceSpots(rows) == EvidenceSpots(front) + [EvidenceSpot(last)];
      OrderedFront(EvidenceSpots(rows));
      assert EvidenceSpots(rows)[..|rows| - 1] == EvidenceSpots(front);
      DeletingKeepsEvidenceOrder(front, id);
      var kept := OtherEvidence(front, id);
      if last.run != id {
        KeptStayOrdered(EvidenceSpots(front), EvidenceSpots(kept), EvidenceSpot(last), id);
        assert EvidenceSpots(kept + [last]) == EvidenceSpots(kept) + [EvidenceSpot(last)];
      } else {
        SomeOfMore(EvidenceSpots(kept), EvidenceSpots(front), EvidenceSpot(last));
        assert OtherEvidence(rows, id) == kept;
      }
    }
  }

  lemma {:induction false} DeletingKeepsVerdictOrder(rows: seq<VerdictRow>, id: RunId)
    requires Ordered(VerdictSpots(rows))
    ensures var kept := VerdictSpots(OtherVerdicts(rows, id));
            Ordered(kept) && NotOf(kept, id) && SomeOf(kept, VerdictSpots(rows))
  {
    hide Ordered, NotOf, SomeOf;
    if rows == [] {
      NothingOrdered(id);
      assert VerdictSpots(OtherVerdicts(rows, id)) == [] == VerdictSpots(rows);
    } else {
      var front, last := rows[..|rows| - 1], rows[|rows| - 1];
      assert VerdictSpots(rows) == VerdictSpots(front) + [VerdictSpot(last)];
      OrderedFront(VerdictSpots(rows));
      assert VerdictSpots(rows)[..|rows| - 1] == VerdictSpots(front);
      DeletingKeepsVerdictOrder(front, id);
      var kept := OtherVerdicts(front, id);
      if last.run != id {
        KeptStayOrdered(VerdictSpots(front), VerdictSpots(kept), VerdictSpot(last), id);
        assert VerdictSpots(kept + [last]) == VerdictSpots(kept) + [VerdictSpot(last)];
      } else {
        SomeOfMore(VerdictSpots(kept), VerdictSpots(front), VerdictSpot(last));
        assert OtherVerdicts(rows, id) == kept;
      }
    }
  }

  lemma NothingOrdered(id: RunId)
    ensures Ordered([]) && NotOf([], id) && SomeOf([], [])
  {
  }

  lemma {:induction false} WrittenVerdictsOrdered(id: RunId, vs: seq<Verdict>)
    ensures var spots := VerdictSpots(VerdictRows(id, vs));
            Ordered(spots) && AllOf(spots, id) && forall i :: 0 <= i < |spots| ==> spots[i].position < |vs|
  {
    if vs != [] {
      var n := |vs| - 1;
      WrittenVerdictsOrdered(id, vs[..n]);
      var front, last := VerdictRows(id, vs[..n]), VerdictRowOf(id, n, vs[n]);
      OrderedThen(VerdictSpots(front), VerdictSpot(last));
      assert VerdictSpots(front + [last]) == VerdictSpots(front) + [VerdictSpot(last)];
    }
  }

  lemma {:induction false} WrittenLinesOrdered(id: RunId, p: nat, ls: seq<Line>)
    ensures var spots := EvidenceSpots(LineRows(id, p, ls));
            Ordered(spots) && AllOf(spots, id) && forall i :: 0 <= i < |spots| ==>
              spots[i].position == p && spots[i].line < |ls|
  {
    hide Encode;
    if ls != [] {
      var n := |ls| - 1;
      WrittenLinesOrdered(id, p, ls[..n]);
      var front, last := LineRows(id, p, ls[..n]), LineRow(id, p, n, ls[n]);
      OrderedThen(EvidenceSpots(front), EvidenceSpot(last));
      assert EvidenceSpots(front + [last]) == EvidenceSpots(front) + [EvidenceSpot(last)];
    }
  }

  lemma LaterPositions(a: seq<Spot>, b: seq<Spot>, id: RunId, n: nat)
    requires Ordered(a) && Ordered(b) && AllOf(a, id) && AllOf(b, id)
    requires (forall i :: 0 <= i < |a| ==> a[i].position < n) && forall i :: 0 <= i < |b| ==> b[i].position == n
    ensures Ordered(a + b) && AllOf(a + b, id) && forall i :: 0 <= i < |a + b| ==> (a + b)[i].position < n + 1
  {
  }

  lemma {:induction false} WrittenEvidenceOrdered(id: RunId, vs: seq<Verdict>)
    ensures var spots := EvidenceSpots(EvidenceRows(id, vs));
            Ordered(spots) && AllOf(spots, id) && forall i :: 0 <= i < |spots| ==> spots[i].position < |vs|
  {
    hide LineRows, Before;
    if vs != [] {
      var n := |vs| - 1;
      WrittenEvidenceOrdered(id, vs[..n]);
      WrittenLinesOrdered(id, n, vs[n].evidence);
      var front, rows := EvidenceRows(id, vs[..n]), LineRows(id, n, vs[n].evidence);
      LaterPositions(EvidenceSpots(front), EvidenceSpots(rows), id, n);
      assert EvidenceSpots(front + rows) == EvidenceSpots(front) + EvidenceSpots(rows);
    }
  }

  lemma OneWriteKeepsOrder(t: Tables, w: Write)
    requires Ordered(VerdictSpots(t.verdicts)) && Ordered(EvidenceSpots(t.evidence))
    ensures Ordered(VerdictSpots(Written(t, w).verdicts)) && Ordered(EvidenceSpots(Written(t, w).evidence))
  {
    hide Ordered, NotOf, AllOf, SomeOf, Apply, RunWritable, VerdictRows, EvidenceRows, OtherVerdicts, OtherEvidence;
    if w.SaveRun? && Save(t, w.run).Saved? {
      var id, vs := IdOf(w.run), w.run.verdicts;
      DeletingKeepsVerdictOrder(t.verdicts, id);
      DeletingKeepsEvidenceOrder(t.evidence, id);
      WrittenVerdictsOrdered(id, vs);
      WrittenEvidenceOrdered(id, vs);
      OrderedJoin(VerdictSpots(OtherVerdicts(t.verdicts, id)), VerdictSpots(VerdictRows(id, vs)), id);
      OrderedJoin(EvidenceSpots(OtherEvidence(t.evidence, id)), EvidenceSpots(EvidenceRows(id, vs)), id);
      assert VerdictSpots(OtherVerdicts(t.verdicts, id) + VerdictRows(id, vs))
          == VerdictSpots(OtherVerdicts(t.verdicts, id)) + VerdictSpots(VerdictRows(id, vs));
      assert EvidenceSpots(OtherEvidence(t.evidence, id) + EvidenceRows(id, vs))
          == EvidenceSpots(OtherEvidence(t.evidence, id)) + EvidenceSpots(EvidenceRows(id, vs));
    }
  }

  /** Over every sequence of writes the rows of each run stand in the order of their positions and
      lines: reading them in that order reads them as they stand. */
  lemma {:induction false} RowsStayOrdered(ws: seq<Write>)
    ensures Ordered(VerdictSpots(AllWritten(ws).verdicts)) && Ordered(EvidenceSpots(AllWritten(ws).evidence))
  {
    hide Ordered, Written;
    if ws == [] {
      NothingOrdered(Given(""));
      assert VerdictSpots(AllWritten(ws).verdicts) == [] && EvidenceSpots(AllWritten(ws).evidence) == [];
    } else {
      RowsStayOrdered(ws[..|ws| - 1]);
      OneWriteKeepsOrder(AllWritten(ws[..|ws| - 1]), ws[|ws| - 1]);
    }
  }
}
