/** Payloads as the store writes them, tagged in JSON, and as it reads them back
    (hotelcontrols/store/sqlite.py). A JSON document is a tree; writing it out as text and reading
    the text back give the same tree. */
module Codec {
  import opened Basics
  import opened Values

  datatype Json =
    | JNull
    | JFlag(b: bool)
    | JInt(n: int)
    | JFloat(text: string)
    | JText(s: string)
    | JList(items: seq<Json>)
    | JObject(members: seq<Member>)

  datatype Member = Member(key: string, value: Json)

  // ------------------------------------------------------------------ JSON as the json module sees it
  /** `json.dumps`: a tuple becomes a list, and what JSON has no word for is an error. */
  function Dump(p: Payload): Option<Json>
    decreases p, 0
  {
    match p
    case Null => Some(JNull)
    case Flag(b) => Some(JFlag(b))
    case Text(s) => Some(JText(s))
    case Int(n) => Some(JInt(n))
    case Float(text) => Some(JFloat(text))
    case Dec(_) => None
    case Amount(_, _) => None
    case NotApplicable => None
    case Tuple(items) => DumpList(items)
    case List(items) => DumpList(items)
    case Dict(entries) => DumpDict(entries)
  }

  function DumpList(items: seq<Payload>): Option<Json>
    decreases items, 1
  {
    if forall i :: 0 <= i < |items| ==> Dump(items[i]).Some? then
      Some(JList(seq(|items|, i requires 0 <= i < |items| => Dump(items[i]).value)))
    else None
  }

  function DumpDict(entries: seq<Entry>): Option<Json>
    decreases entries, 1
  {
    if forall i :: 0 <= i < |entries| ==> Dump(entries[i].value).Some? then
      Some(JObject(seq(|entries|,
        i requires 0 <= i < |entries| => Member(entries[i].key, Dump(entries[i].value).value))))
    else None
  }

  /** `json.loads`, once the text is a tree. */
  function Load(j: Json): Payload
  {
    match j
    case JNull => Null
    case JFlag(b) => Flag(b)
    case JInt(n) => Int(n)
    case JFloat(text) => Float(text)
    case JText(s) => Text(s)
    case JList(items) => List(seq(|items|, i requires 0 <= i < |items| => Load(items[i])))
    case JObject(members) => Dict(seq(|members|,
      i requires 0 <= i < |members| => Entry(members[i].key, Load(members[i].value))))
  }

  /** What JSON can hold as it is: no tuple, amount, decimal or sentinel anywhere inside. */
  predicate Plain(p: Payload)
  {
    match p
    case Null => true
    case Flag(_) => true
    case Text(_) => true
    case Int(_) => true
    case Float(_) => true
    case List(items) => forall i :: 0 <= i < |items| ==> Plain(items[i])
    case Dict(entries) => forall i :: 0 <= i < |entries| ==> Plain(entries[i].value)
    case _ => false
  }

  /** A payload survives JSON exactly when it is plain. */
  lemma {:induction false} DumpThenLoad(p: Payload)
    ensures Dump(p).Some? && Load(Dump(p).value) == p <==> Plain(p)
    decreases p
  {
    match p {
      case Tuple(items) =>
      case List(items) =>
        forall i | 0 <= i < |items|
          ensures Dump(items[i]).Some? && Load(Dump(items[i]).value) == items[i] <==> Plain(items[i])
        {
          DumpThenLoad(items[i]);
        }
        ListSurvives(items);
      case Dict(entries) =>
        forall i | 0 <= i < |entries|
          ensures var v := entries[i].value; Dump(v).Some? && Load(Dump(v).value) == v <==> Plain(v)
        {
          DumpThenLoad(entries[i].value);
        }
        DictSurvives(entries);
      case _ =>
    }
  }

  lemma ListSurvives(items: seq<Payload>)
    requires forall i :: 0 <= i < |items| ==>
               (Dump(items[i]).Some? && Load(Dump(items[i]).value) == items[i] <==> Plain(items[i]))
    ensures DumpList(items).Some? && Load(DumpList(items).value) == List(items) <==> Plain(List(items))
  {
    hide Dump;
    var p := DumpList(items);
    if p.Some? && Load(p.value) == List(items) {
      forall i | 0 <= i < |items| ensures Plain(items[i]) {
        assert Load(p.value).items[i] == Load(p.value.items[i]);
      }
    }
  }

  lemma DictSurvives(entries: seq<Entry>)
    requires forall i :: 0 <= i < |entries| ==>
               (Dump(entries[i].value).Some? && Load(Dump(entries[i].value).value) == entries[i].value <==>
                 Plain(entries[i].value))
    ensures DumpDict(entries).Some? && Load(DumpDict(entries).value) == Dict(entries) <==> Plain(Dict(entries))
  {
    hide Dump;
  }

  // ------------------------------------------------------------------ tags
  const NOT_APPLICABLE_TAG := "__not_applicable__"
  const MONEY_TAG := "__money__"
  const DECIMAL_TAG := "__decimal__"
  const TUPLE_TAG := "__tuple__"

  /** The last member with a key, as a Python dictionary keeps it. */
  function Find(members: seq<Member>, key: string): (found: Option<Json>)
    ensures found.Some? <==> exists i :: 0 <= i < |members| && members[i].key == key
  {
    if members == [] then None
    else if members[|members| - 1].key == key then Some(members[|members| - 1].value)
    else Find(members[..|members| - 1], key)
  }

  predicate Truthy(j: Json)
  {
    match j
    case JNull => false
    case JFlag(b) => b
    case JInt(n) => n != 0
    case JFloat(text) => Number(Float(text)) != 0.0
    case JText(s) => s != ""
    case JList(items) => items != []
    case JObject(members) => members != []
  }

  /** `encode_payload`: what JSON would flatten is tagged. */
  function Encode(p: Payload): Option<Json>
  {
    match p
    case NotApplicable => Some(JObject([Member(NOT_APPLICABLE_TAG, JFlag(true))]))
    case Amount(text, currency) => Some(JObject([Member(MONEY_TAG, JText(text)), Member("currency", JText(currency))]))
    case Dec(text) => Some(JObject([Member(DECIMAL_TAG, JText(text))]))
    case Tuple(items) =>
      var list := DumpList(items);
      if list.Some? then Some(JObject([Member(TUPLE_TAG, list.value)])) else None
    case _ => Dump(p)
  }

  predicate Tagged(members: seq<Member>)
  {
    || (Find(members, NOT_APPLICABLE_TAG).Some? && Truthy(Find(members, NOT_APPLICABLE_TAG).value))
    || Find(members, MONEY_TAG).Some? || Find(members, DECIMAL_TAG).Some? || Find(members, TUPLE_TAG).Some?
  }

  /** What a tagged object stands for; None where reading it is an error. */
  function Untag(members: seq<Member>): Option<Payload>
  {
    if Find(members, NOT_APPLICABLE_TAG).Some?
      && Truthy(Find(members, NOT_APPLICABLE_TAG).value) then Some(NotApplicable)
    else match (Find(members, MONEY_TAG), Find(members, "currency"))
      case (Some(JText(text)), Some(JText(currency))) => Some(Amount(text, currency))
      case (Some(_), _) => None
      case (None, _) =>
        match (Find(members, DECIMAL_TAG), Find(members, TUPLE_TAG))
        case (Some(JText(text)), _) => Some(Dec(text))
        case (Some(_), _) => None
        case (None, Some(JList(items))) => Some(Tuple(seq(|items|, i requires 0 <= i < |items| => Load(items[i]))))
        case _ => None
  }

  /** `decode_payload`. */
  function Decode(j: Json): Option<Payload>
  {
    if j.JObject? && Tagged(j.members) then Untag(j.members) else Some(Load(j))
  }

  // ------------------------------------------------------------------ what comes back
  predicate HasKey(entries: seq<Entry>, key: string)
  {
    exists i :: 0 <= i < |entries| && entries[i].key == key
  }

  /** A dictionary the decoder would take for something else. */
  predicate LooksTagged(entries: seq<Entry>)
  {
    || HasKey(entries, MONEY_TAG) || HasKey(entries, DECIMAL_TAG) || HasKey(entries, TUPLE_TAG)
    || (HasKey(entries, NOT_APPLICABLE_TAG) && TruthyPayload(LastValue(entries, NOT_APPLICABLE_TAG)))
  }

  function LastValue(entries: seq<Entry>, key: string): Payload
    requires HasKey(entries, key)
    ensures exists i :: 0 <= i < |entries| && entries[i].key == key && entries[i].value == LastValue(entries, key)
  {
    var n := |entries| - 1;
    if entries[n].key == key then entries[n].value
    else
      assert HasKey(entries[..n], key) by {
        var i :| 0 <= i < |entries| && entries[i].key == key;
        assert entries[..n][i].key == key;
      }
      LastValue(entries[..n], key)
  }

  /** Python's `bool`, on what JSON can hold. */
  predicate TruthyPayload(p: Payload)
  {
    match p
    case Null => false
    case Flag(b) => b
    case Int(n) => n != 0
    case Float(text) => Number(p) != 0.0
    case Text(s) => s != ""
    case List(items) => items != []
    case Dict(entries) => entries != []
    case _ => true
  }

  /** The payloads the store gives back as they were: anything the kernel tags at the top, a tuple
      of plain items, and plain JSON that does not look tagged. */
  predicate Storable(p: Payload)
  {
    match p
    case NotApplicable => true
    case Amount(_, _) => true
    case Dec(_) => true
    case Tuple(items) => forall i :: 0 <= i < |items| ==> Plain(items[i])
    case Dict(entries) => Plain(p) && !LooksTagged(entries)
    case _ => Plain(p)
  }

  /** Writing a payload fails exactly when something inside it is not JSON. */
  predicate Writable(p: Payload)
  {
    p.NotApplicable? || p.Amount? || p.Dec? || Dump(p).Some?
  }

  lemma EncodeFailsIff(p: Payload)
    ensures Encode(p).Some? <==> Writable(p)
  {
  }

  lemma TupleComesBack(items: seq<Payload>)
    requires DumpList(items).Some?
    ensures Decode(Encode(Tuple(items)).value) == Some(Tuple(items)) <==> Storable(Tuple(items))
  {
    hide Dump;
    var list := DumpList(items).value;
    var members := [Member(TUPLE_TAG, list)];
    assert Find(members, NOT_APPLICABLE_TAG) == None && Find(members, MONEY_TAG) == None;
    assert Find(members, DECIMAL_TAG) == None && Find(members, TUPLE_TAG) == Some(list);
    DumpThenLoad(List(items));
    DumpOfList(items);
    var back := seq(|list.items|, i requires 0 <= i < |list.items| => Load(list.items[i]));
    assert Load(list) == List(back);
  }

  lemma {:induction false} FindInDump(entries: seq<Entry>, members: seq<Member>, key: string)
    requires |entries| == |members|
    requires forall i :: 0 <= i < |entries| ==>
               members[i].key == entries[i].key && Load(members[i].value) == entries[i].value
    ensures Find(members, key).Some? <==> HasKey(entries, key)
    ensures HasKey(entries, key) ==> Load(Find(members, key).value) == LastValue(entries, key)
  {
    hide Load;
    var n := |entries| - 1;
    if n >= 0 && entries[n].key != key {
      FindInDump(entries[..n], members[..n], key);
      if HasKey(entries, key) {
        var i :| 0 <= i < |entries| && entries[i].key == key;
        assert entries[..n][i].key == key;
      }
      if Find(members, key).Some? {
        var i :| 0 <= i < n && entries[..n][i].key == key;
        assert entries[i].key == key;
      }
    } else if n >= 0 {
      assert members[n].key == key;
    }
  }

  lemma TruthyLoaded(j: Json)
    ensures TruthyPayload(Load(j)) == Truthy(j)
  {
  }

  lemma DictComesBack(entries: seq<Entry>)
    requires DumpDict(entries).Some?
    ensures Decode(Encode(Dict(entries)).value) == Some(Dict(entries)) <==> Storable(Dict(entries))
  {
    hide Dump, Truthy, TruthyPayload, Plain;
    var j := DumpDict(entries).value;
    assert Dump(Dict(entries)) == Some(j) by { DumpOfDict(entries); }
    DumpThenLoad(Dict(entries));
    if Load(j) == Dict(entries) {
      LoadedEntries(j, entries);
      FindInDump(entries, j.members, NOT_APPLICABLE_TAG);
      FindInDump(entries, j.members, MONEY_TAG);
      FindInDump(entries, j.members, DECIMAL_TAG);
      FindInDump(entries, j.members, TUPLE_TAG);
      if HasKey(entries, NOT_APPLICABLE_TAG) {
        TruthyLoaded(Find(j.members, NOT_APPLICABLE_TAG).value);
      }
      assert Tagged(j.members) <==> LooksTagged(entries);
      UntagIsNoDict(j.members);
    } else {
      UntagIsNoDict(j.members);
    }
  }

  lemma DumpOfList(items: seq<Payload>)
    ensures Dump(List(items)) == DumpList(items) && Dump(Tuple(items)) == DumpList(items)
  {
  }

  lemma DumpOfDict(entries: seq<Entry>)
    ensures Dump(Dict(entries)) == DumpDict(entries)
  {
  }

  lemma LoadedEntries(j: Json, entries: seq<Entry>)
    requires j.JObject? && Load(j) == Dict(entries)
    ensures |j.members| == |entries|
    ensures forall i :: 0 <= i < |entries| ==>
              j.members[i].key == entries[i].key && Load(j.members[i].value) == entries[i].value
  {
    var loaded := Load(j).entries;
    forall i | 0 <= i < |entries|
      ensures j.members[i].key == entries[i].key && Load(j.members[i].value) == entries[i].value
    {
      assert loaded[i] == Entry(j.members[i].key, Load(j.members[i].value));
    }
  }

  lemma UntagIsNoDict(members: seq<Member>)
    ensures Untag(members).Some? ==> !Untag(members).value.Dict?
  {
  }

  /** Decoding undoes encoding exactly for the storable payloads, over all payloads. */
  lemma CodecRoundTrip(p: Payload)
    ensures Encode(p).Some? && Decode(Encode(p).value) == Some(p) <==> Storable(p)
  {
    hide Find, Dump, Load;
    match p {
      case NotApplicable => TagsComeBack(p);
      case Amount(_, _) => TagsComeBack(p);
      case Dec(_) => TagsComeBack(p);
      case Tuple(items) =>
        if DumpList(items).Some? {
          TupleComesBack(items);
        } else {
          TupleUnwritable(items);
        }
      case Dict(entries) =>
        DumpOfDict(entries);
        if DumpDict(entries).Some? {
          DictComesBack(entries);
        } else {
          DumpThenLoad(p);
        }
      case _ =>
        DumpThenLoad(p);
        NotAnObject(p);
    }
  }

  lemma TagsComeBack(p: Payload)
    requires p.NotApplicable? || p.Amount? || p.Dec?
    ensures Encode(p).Some? && Decode(Encode(p).value) == Some(p)
  {
    var members := Encode(p).value.members;
    if p.Amount? {
      assert members[..1] == [Member(MONEY_TAG, JText(p.text))];
      assert Find(members, NOT_APPLICABLE_TAG) == None;
      assert Find(members, MONEY_TAG) == Some(JText(p.text));
    } else if p.Dec? {
      assert Find(members, NOT_APPLICABLE_TAG) == None && Find(members, MONEY_TAG) == None;
      assert Find(members, DECIMAL_TAG) == Some(JText(p.text));
    } else {
      assert Find(members, NOT_APPLICABLE_TAG) == Some(JFlag(true));
    }
  }

  lemma TupleUnwritable(items: seq<Payload>)
    requires DumpList(items).None?
    ensures !Storable(Tuple(items))
  {
    var i :| 0 <= i < |items| && Dump(items[i]).None?;
    DumpThenLoad(items[i]);
  }

  lemma NotAnObject(p: Payload)
    requires !p.Dict? && !p.Amount? && !p.Dec? && !p.NotApplicable? && !p.Tuple?
    ensures Dump(p).Some? ==> !Dump(p).value.JObject?
  {
  }

  /** A tuple inside a tuple comes back as a list. */
  lemma NestedTupleFlattens()
    ensures var p := Tuple([Tuple([Int(1)])]);
            Encode(p).Some? && Decode(Encode(p).value) == Some(Tuple([List([Int(1)])]))
  {
    var inner := Tuple([Int(1)]);
    var one := JList([JInt(1)]);
    assert DumpList([Int(1)]).value.items == [JInt(1)];
    DumpOfList([Int(1)]);
    assert Dump(inner) == Some(one);
    assert DumpList([inner]).value.items == [one];
    var members := [Member(TUPLE_TAG, JList([one]))];
    assert Find(members, NOT_APPLICABLE_TAG) == None && Find(members, MONEY_TAG) == None;
    assert Find(members, DECIMAL_TAG) == None && Find(members, TUPLE_TAG) == Some(JList([one]));
    assert Load(one).items == [Int(1)];
    var back := seq(1, i requires 0 <= i < 1 => Load([one][i]));
    assert back == [List([Int(1)])];
    assert Untag(members) == Some(Tuple(back));
  }
}
