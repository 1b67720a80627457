/** One record's evidence, and the order in which evidence can only grow
    (hotelcontrols/evidence/gather.py, hotelcontrols/evidence/reference.py). */
module Bundles {
  import opened Basics
  import opened Texts
  import opened Values

  /** The fields of one related record. */
  type Record = map<string, Value>

  /** The dates a collection was fetched for, both inclusive, and the day it was asked on. */
  datatype Window = Window(start: string, end: string, askedOn: string)

  datatype Bundle = Bundle(
    entity: string,
    recordId: Option<string>,
    fields: Record,
    related: map<string, seq<Record>>,
    joins: map<string, Value>,
    windows: map<string, Window>,
    unplaced: map<string, seq<Record>>)

  /** The hotel's decided settings, or none supplied at all. */
  type Settings = Option<map<string, Payload>>

  function Related(b: Bundle, entity: string): seq<Record>
  {
    if entity in b.related then b.related[entity] else []
  }

  function Unplaced(b: Bundle, entity: string): seq<Record>
  {
    if entity in b.unplaced then b.unplaced[entity] else []
  }

  predicate JoinKnown(b: Bundle, entity: string)
  {
    entity in b.joins && b.joins[entity].Known?
  }

  // ------------------------------------------------------------------ refinement
  ghost predicate FieldsRefine(a: Record, b: Record)
  {
    forall name :: name in a ==> name in b && Refines(a[name], b[name])
  }

  /** A related record keeps its shape: the names are the rule's, only the values are read. */
  ghost predicate RecordRefines(a: Record, b: Record)
  {
    a.Keys == b.Keys && FieldsRefine(a, b)
  }

  ghost predicate SettingsRefine(a: Settings, b: Settings)
  {
    a.Some? ==> b.Some? && forall name :: name in a.value ==> name in b.value && a.value[name] == b.value[name]
  }

  ghost predicate JoinRefines(a: Bundle, b: Bundle, entity: string)
  {
    JoinKnown(a, entity) ==> entity in b.joins && b.joins[entity] == a.joins[entity]
  }

  ghost predicate RefinedIn(r: Record, later: seq<Record>)
  {
    exists j :: 0 <= j < |later| && RecordRefines(r, later[j])
  }

  ghost predicate RefinesOneOf(r: Record, earlier: seq<Record>)
  {
    exists i :: 0 <= i < |earlier| && RecordRefines(earlier[i], r)
  }

  /** One collection read further. Its records stay its records; a record whose own key could not
      be read may turn out to be this record's, or another's, and then it moves or leaves. */
  ghost predicate CollectionRefines(a: Bundle, b: Bundle, entity: string)
  {
    JoinKnown(a, entity) ==>
      && JoinKnown(b, entity)
      && (Related(a, entity) != [] ==> b.joins[entity] == a.joins[entity])
      && (forall i :: 0 <= i < |Related(a, entity)| ==> RefinedIn(Related(a, entity)[i], Related(b, entity)))
      && (forall j :: 0 <= j < |Related(b, entity)| ==>
            RefinesOneOf(Related(b, entity)[j], Related(a, entity) + Unplaced(a, entity)))
      && (forall j :: 0 <= j < |Unplaced(b, entity)| ==>
            RefinesOneOf(Unplaced(b, entity)[j], Unplaced(a, entity)))
  }

  ghost predicate BundleRefines(a: Bundle, b: Bundle)
  {
    && FieldsRefine(a.fields, b.fields)
    && a.related.Keys == b.related.Keys && "" !in a.related
    && a.windows == b.windows
    && (forall entity :: entity in a.joins && entity !in a.related ==> JoinRefines(a, b, entity))
    && (forall entity :: entity in a.related ==> CollectionRefines(a, b, entity))
  }

  lemma BundleRefinesItself(b: Bundle)
    requires "" !in b.related
    ensures BundleRefines(b, b)
  {
    forall entity | entity in b.related
      ensures CollectionRefines(b, b, entity)
    {
      forall i | 0 <= i < |Related(b, entity)|
        ensures RefinedIn(Related(b, entity)[i], Related(b, entity))
        ensures RefinesOneOf(Related(b, entity)[i], Related(b, entity) + Unplaced(b, entity))
      {
        assert RecordRefines(Related(b, entity)[i], Related(b, entity)[i]);
        assert (Related(b, entity) + Unplaced(b, entity))[i] == Related(b, entity)[i];
      }
      forall j | 0 <= j < |Unplaced(b, entity)|
        ensures RefinesOneOf(Unplaced(b, entity)[j], Unplaced(b, entity))
      {
        assert RecordRefines(Unplaced(b, entity)[j], Unplaced(b, entity)[j]);
      }
    }
  }

  // ------------------------------------------------------------------ views
  /** This record, seen with ONE related record's fields in place of the collection's. */
  function View(b: Bundle, entity: string, r: Record): Bundle
  {
    b.(fields := b.fields + r, related := b.related - {entity})
  }

  lemma ViewFieldsRefine(a: Bundle, b: Bundle, entity: string, r: Record, s: Record)
    requires FieldsRefine(a.fields, b.fields) && RecordRefines(r, s)
    ensures FieldsRefine(View(a, entity, r).fields, View(b, entity, s).fields)
  {
  }
}
