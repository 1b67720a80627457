/** Joining a record to property-wide data (hotelcontrols/evidence/reference.py and the joins of
    hotelcontrols/evidence/gather.py). */
module References {
  import opened Basics
  import opened Values
  import opened Rules
  import opened Bundles

  /** A provider's record, as `adapter.resolve` reads it. */
  type Remote = Record

  function Resolve(name: string, r: Remote): Value
  {
    if name in r then r[name] else Unknown("not in this response", None)
  }

  /** The fields of one entity the rule declared it needs, resolved on one record. */
  function Project(r: Remote, wanted: set<string>): Record
  {
    map name | name in wanted :: Resolve(name, r)
  }

  /** A key that names something: known, and neither False nor not applicable. */
  predicate HasKey(key: Value)
  {
    key.Known? && !IsAbsence(key)
  }

  predicate KeyedBy(r: Remote, field: string, key: string)
  {
    HasKey(Resolve(field, r)) && Str(Resolve(field, r).payload) == key
  }

  // ------------------------------------------------------------------ the scan it speeds up
  /** Every record whose key reads as this text, in response order. */
  function Scan(records: seq<Remote>, field: string, key: string): seq<Remote>
  {
    Filter(records, r => KeyedBy(r, field, key))
  }

  /** Every record whose key could not be read, in response order. */
  function Unreadable(records: seq<Remote>, field: string): seq<Remote>
  {
    Filter(records, r => Resolve(field, r).Unknown?)
  }

  // ------------------------------------------------------------------ the index
  datatype Index = Index(
    kind: Kind,
    available: bool,
    remoteField: string,
    byKey: map<string, seq<Remote>>,
    unplaced: seq<Remote>)

  /** The index `build_references` makes of one response. */
  ghost predicate Indexes(index: Index, records: seq<Remote>)
  {
    && (forall key :: key in index.byKey ==> index.byKey[key] == Scan(records, index.remoteField, key) != [])
    && (forall key :: key !in index.byKey ==> Scan(records, index.remoteField, key) == [])
    && index.unplaced == Unreadable(records, index.remoteField)
  }

  lemma ScanGrows(records: seq<Remote>, r: Remote, field: string, key: string)
    ensures Scan(records + [r], field, key) == Scan(records, field, key) + if KeyedBy(r, field, key) then [r] else []
  {
    FilterAppend(records, [r], x => KeyedBy(x, field, key));
  }

  lemma UnreadableGrows(records: seq<Remote>, r: Remote, field: string)
    ensures Unreadable(records + [r], field) == Unreadable(records, field) + if Resolve(field, r).Unknown? then [r]
              else []
  {
    FilterAppend(records, [r], x => Resolve(field, x).Unknown?);
  }

  lemma ScanIsEmpty(records: seq<Remote>, field: string, key: string)
    ensures Scan(records, field, key) == [] <==> forall r :: r in records ==> !KeyedBy(r, field, key)
  {
    var scan := Scan(records, field, key);
    if scan != [] {
      assert scan[0] in scan;
    }
  }

  method AddRecord(index: Index, r: Remote, ghost records: seq<Remote>) returns (index': Index)
    requires Indexes(index, records)
    ensures Indexes(index', records + [r])
    ensures index'.kind == index.kind && index'.available == index.available && index'.remoteField == index.remoteField
  {
    var key := Resolve(index.remoteField, r);
    UnreadableGrows(records, r, index.remoteField);
    forall k: string
      ensures Scan(records + [r], index.remoteField, k)
              == Scan(records, index.remoteField, k) + if KeyedBy(r, index.remoteField, k) then [r] else []
    {
      ScanGrows(records, r, index.remoteField, k);
    }
    if HasKey(key) {
      var text := Str(key.payload);
      var found := if text in index.byKey then index.byKey[text] else [];
      index' := index.(byKey := index.byKey[text := found + [r]]);
    } else if key.Unknown? {
      index' := index.(unplaced := index.unplaced + [r]);
    } else {
      index' := index;
    }
  }

  method BuildIndex(kind: Kind, field: string, records: seq<Remote>) returns (index: Index)
    ensures index.kind == kind && index.available && index.remoteField == field
    ensures Indexes(index, records)
  {
    index := Index(kind, true, field, map[], []);
    for i := 0 to |records|
      invariant index.kind == kind && index.available && index.remoteField == field
      invariant Indexes(index, records[..i])
    {
      index := AddRecord(index, records[i], records[..i]);
      assert records[..i + 1] == records[..i] + [records[i]];
    }
    assert records[..|records|] == records;
  }

  /** Each remote record is indexed under its own key, or unplaced, or has an absent key - exactly
      one of the three - and under no other key. */
  lemma IndexedOnce(index: Index, records: seq<Remote>, r: Remote)
    requires Indexes(index, records) && r in records
    ensures HasKey(Resolve(index.remoteField, r)) <==>
              exists key :: key in index.byKey && r in index.byKey[key]
    ensures Resolve(index.remoteField, r).Unknown? <==> r in index.unplaced
    ensures forall key :: key in index.byKey && r in index.byKey[key] ==> KeyedBy(r, index.remoteField, key)
    ensures IsAbsence(Resolve(index.remoteField, r)) <==>
              r !in index.unplaced && forall key :: key in index.byKey ==> r !in index.byKey[key]
  {
    var key := Resolve(index.remoteField, r);
    if HasKey(key) {
      assert KeyedBy(r, index.remoteField, Str(key.payload));
      assert r in Scan(records, index.remoteField, Str(key.payload));
    }
  }

  // ------------------------------------------------------------------ match and joins
  /** The records for this key; None where the source gives a reason instead. */
  function Match(index: Index, key: Value): Option<seq<Remote>>
  {
    if !index.available || !HasKey(key) || Str(key.payload) !in index.byKey then None
    else Some(index.byKey[Str(key.payload)])
  }

  /** Whether a declared join matched, as its own three-valued answer. */
  function JoinOf(index: Index, key: Value): Value
  {
    if index.kind.ValueSet? then Known(Flag(index.available), None)
    else if !index.available then Unknown("the reference is unavailable", None)
    else if !HasKey(key) then Unknown("this record names no key", None)
    else Known(Flag(Str(key.payload) in index.byKey), None)
  }

  /** `match` is the scan: the records with this very key, in response order, and never a record
      for an absent or unknown key. */
  lemma MatchIsScan(index: Index, records: seq<Remote>, key: Value)
    requires Indexes(index, records) && index.available
    ensures Match(index, key).Some? <==> HasKey(key) && Scan(records, index.remoteField, Str(key.payload)) != []
    ensures Match(index, key).Some? ==> Match(index, key).value == Scan(records, index.remoteField, Str(key.payload))
  {
  }

  /** A join is known true, known false or unknown exactly as the scan finds a record, finds none,
      or cannot look. */
  lemma JoinIsScan(index: Index, records: seq<Remote>, key: Value)
    requires Indexes(index, records) && !index.kind.ValueSet?
    ensures JoinOf(index, key) == Known(Flag(true), None) <==>
              && index.available && HasKey(key)
              && exists r :: r in records && KeyedBy(r, index.remoteField, Str(key.payload))
    ensures JoinOf(index, key) == Known(Flag(false), None) <==>
              index.available && HasKey(key) && forall r :: r in records ==>
                !KeyedBy(r, index.remoteField, Str(key.payload))
    ensures JoinOf(index, key).Unknown? <==> !index.available || !HasKey(key)
  {
    if HasKey(key) {
      ScanIsEmpty(records, index.remoteField, Str(key.payload));
    }
  }

  // ------------------------------------------------------------------ a response read further
  /** The same response with more of its fields readable. */
  ghost predicate ResponseRefines(records: seq<Remote>, later: seq<Remote>)
  {
    |records| == |later| && forall i :: 0 <= i < |records| ==> FieldsRefine(records[i], later[i])
  }

  /** "The key matched nothing" is final - for every way the rest of the response may turn out to
      read - exactly when no remote record's key was unreadable. */
  lemma AbsenceIsFinalIff(records: seq<Remote>, field: string, key: string)
    requires Scan(records, field, key) == []
    ensures (forall later :: ResponseRefines(records, later) ==> Scan(later, field, key) == [])
            <==> Unreadable(records, field) == []
  {
    if Unreadable(records, field) == [] {
      forall later | ResponseRefines(records, later)
        ensures Scan(later, field, key) == []
      {
        forall i | 0 <= i < |later|
          ensures !KeyedBy(later[i], field, key)
        {
          assert records[i] !in Unreadable(records, field) && records[i] !in Scan(records, field, key);
        }
        ScanIsEmpty(later, field, key);
      }
    } else {
      var r := Unreadable(records, field)[0];
      assert r in Unreadable(records, field);
      var i :| 0 <= i < |records| && records[i] == r;
      var later := records[i := r[field := Known(Text(key), None)]];
      assert ResponseRefines(records, later);
      assert KeyedBy(later[i], field, key);
      assert later[i] in Scan(later, field, key);
    }
  }

  /** A key that matched still matches, however the rest of the response reads. */
  lemma {:induction false} MatchIsFinal(records: seq<Remote>, later: seq<Remote>, field: string, key: string)
    requires ResponseRefines(records, later) && Scan(records, field, key) != []
    ensures Scan(later, field, key) != []
  {
    var r := Scan(records, field, key)[0];
    assert r in Scan(records, field, key);
    var i :| 0 <= i < |records| && records[i] == r;
    assert KeyedBy(later[i], field, key);
    assert later[i] in Scan(later, field, key);
  }

  // ------------------------------------------------------------------ a lookup read further
  /** `i` is the first record with this key: the one a lookup reads its fields from. */
  ghost predicate IsFirst(records: seq<Remote>, field: string, key: string, i: nat)
  {
    i < |records| && KeyedBy(records[i], field, key) && forall j :: 0 <= j < i ==> !KeyedBy(records[j], field, key)
  }

  lemma {:induction false} FirstIsScanned(records: seq<Remote>, field: string, key: string, i: nat)
    requires IsFirst(records, field, key, i)
    ensures Scan(records, field, key) != [] && Scan(records, field, key)[0] == records[i]
  {
    if i > 0 {
      FirstIsScanned(records[1..], field, key, i - 1);
    }
  }

  lemma {:induction false} FirstExists(records: seq<Remote>, field: string, key: string) returns (i: nat)
    requires Scan(records, field, key) != []
    ensures IsFirst(records, field, key, i)
  {
    if KeyedBy(records[0], field, key) {
      i := 0;
    } else {
      i := FirstExists(records[1..], field, key);
      i := i + 1;
    }
  }

  /** The key of this record could not be read, and no record before it has this key. */
  ghost predicate UnreadFirst(records: seq<Remote>, field: string, key: string, u: nat)
  {
    u < |records| && Resolve(field, records[u]).Unknown? && forall j :: 0 <= j < u ==> !KeyedBy(records[j], field, key)
  }

  /** A record whose key could not be read stands before every record that has this key. */
  ghost predicate UnreadBefore(records: seq<Remote>, field: string, key: string)
  {
    exists u: nat :: UnreadFirst(records, field, key, u)
  }

  /** What a lookup found - a match or none, and every field of the record it found - is still so. */
  ghost predicate LookupKept(records: seq<Remote>, later: seq<Remote>, field: string, key: string)
  {
    var found, found' := Scan(records, field, key), Scan(later, field, key);
    if found == [] then found' == []
    else found' != [] && forall name :: Refines(Resolve(name, found[0]), Resolve(name, found'[0]))
  }

  lemma LookupStays(records: seq<Remote>, later: seq<Remote>, field: string, key: string)
    requires ResponseRefines(records, later) && !UnreadBefore(records, field, key)
    ensures LookupKept(records, later, field, key)
  {
    hide Str;
    if Scan(records, field, key) == [] {
      ScanIsEmpty(records, field, key);
      forall i | 0 <= i < |later|
        ensures !KeyedBy(later[i], field, key)
      {
        assert !KeyedBy(records[i], field, key);
        assert !UnreadFirst(records, field, key, i);
      }
      ScanIsEmpty(later, field, key);
    } else {
      var i := FirstExists(records, field, key);
      forall j: nat | j < i
        ensures !KeyedBy(later[j], field, key)
      {
        assert !UnreadFirst(records, field, key, j);
      }
      assert IsFirst(later, field, key, i);
      FirstIsScanned(records, field, key, i);
      FirstIsScanned(later, field, key, i);
    }
  }

  lemma LookupMoves(records: seq<Remote>, field: string, key: string, u: nat) returns (later: seq<Remote>)
    requires UnreadFirst(records, field, key, u)
    ensures ResponseRefines(records, later) && !LookupKept(records, later, field, key)
  {
    var found := Scan(records, field, key);
    var unit := if found != [] && Resolve(field, found[0]) == Known(Text(key), None) then Some("other") else None;
    later := records[u := records[u][field := Known(Text(key), unit)]];
    assert IsFirst(later, field, key, u);
    FirstIsScanned(later, field, key, u);
    if found != [] {
      assert found[0] in found;
      assert !Refines(Resolve(field, found[0]), Resolve(field, later[u]));
    }
  }

  /** What a lookup found is final - for every way the rest of the response may turn out to read -
      exactly when no record with an unread key stands before the first that has it: a lookup takes
      the first record that matches. */
  lemma LookupIsFinalIff(records: seq<Remote>, field: string, key: string)
    ensures (forall later :: ResponseRefines(records, later) ==> LookupKept(records, later, field, key))
            <==> !UnreadBefore(records, field, key)
  {
    hide LookupKept;
    if UnreadBefore(records, field, key) {
      var u: nat :| UnreadFirst(records, field, key, u);
      var later := LookupMoves(records, field, key, u);
    } else {
      forall later | ResponseRefines(records, later)
        ensures LookupKept(records, later, field, key)
      {
        LookupStays(records, later, field, key);
      }
    }
  }

  // ------------------------------------------------------------------ one field of a lookup
  /** A lookup by this key finds a record that says so of this field. */
  ghost predicate LooksUp(records: seq<Remote>, field: string, key: string, name: string, v: Value)
  {
    var found := Scan(records, field, key);
    found != [] && Resolve(name, found[0]) == v
  }

  /** Some other value than this. */
  function OtherThan(v: Value): (other: Value)
    ensures other.Known? && other != v
  {
    if v == Known(Null, None) then Known(NotApplicable, None) else Known(Null, None)
  }

  /** What is read once the unread key turns out to be this one: the earlier record's own value. */
  lemma LookupMisleads(records: seq<Remote>, field: string, key: string, name: string, v: Value, u: nat)
    returns (later: seq<Remote>, other: Value)
    requires LooksUp(records, field, key, name, v) && name != field && UnreadFirst(records, field, key, u)
    requires Resolve(name, records[u]) != v
    ensures ResponseRefines(records, later) && LooksUp(later, field, key, name, other) && other.Known? && other != v
  {
    var r := records[u][field := Known(Text(key), None)];
    other := if Resolve(name, records[u]).Known? then Resolve(name, records[u]) else OtherThan(v);
    later := records[u := r[name := other]];
    assert IsFirst(later, field, key, u);
    FirstIsScanned(later, field, key, u);
  }

  lemma LookupReads(records: seq<Remote>, later: seq<Remote>, field: string, key: string, name: string, v: Value)
    requires ResponseRefines(records, later) && LooksUp(records, field, key, name, v) && v.Known?
    requires forall u: nat :: UnreadFirst(records, field, key, u) ==> Resolve(name, records[u]) == v
    ensures LooksUp(later, field, key, name, v)
  {
    hide Str;
    var i := FirstExists(records, field, key);
    FirstIsScanned(records, field, key, i);
    MatchIsFinal(records, later, field, key);
    var j := FirstExists(later, field, key);
    FirstIsScanned(later, field, key, j);
    assert KeyedBy(later[i], field, key);
    assert j <= i;
    assert j < i ==> UnreadFirst(records, field, key, j);
  }

  /** A field read through a lookup is final - for every way the rest of the response may turn out to
      read - exactly when each record with an unread key that stands before the first match already
      says the same of it. */
  lemma LookupFieldIsFinalIff(records: seq<Remote>, field: string, key: string, name: string, v: Value)
    requires LooksUp(records, field, key, name, v) && v.Known? && name != field
    ensures (forall later :: ResponseRefines(records, later) ==> LooksUp(later, field, key, name, v))
            <==> forall u: nat :: UnreadFirst(records, field, key, u) ==> Resolve(name, records[u]) == v
  {
    if u: nat :| UnreadFirst(records, field, key, u) && Resolve(name, records[u]) != v {
      var later, other := LookupMisleads(records, field, key, name, v, u);
      assert !LooksUp(later, field, key, name, v);
    } else {
      forall later | ResponseRefines(records, later)
        ensures LooksUp(later, field, key, name, v)
      {
        LookupReads(records, later, field, key, name, v);
      }
    }
  }
}
