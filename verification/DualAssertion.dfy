/**
 * Dual assertion: a write stores statements and asserts their values on the entity's records
 * as well (packages/statement-meta/src/index.ts:466-488,
 * packages/sparql-db-impl/src/initSPARQLStore.ts:1024-1050). Documents read later carry them.
 */
module DualAssertion {
  import opened Strings
  import opened Json
  import opened Canonical
  import opened Profiles
  import opened Fingerprints
  import opened Targets
  import opened Views
  import opened Evaluator
  import opened Roots
  import opened Statements

  function SidecarOf(path: string): string
  {
    path + "$stmt"
  }

  /** The node a write adds to the sidecar of its property. */
  function NodeOf(w: Write): Json
  {
    Obj([Field("value", w.statement.value), Field("inputFingerprint", Str(w.statement.fingerprint))])
  }

  /** The nodes of a sidecar for other values. */
  function OtherNodes(nodes: seq<Json>, value: Json): seq<Json>
  {
    if nodes == [] then []
    else
      (if nodes[0].Obj? && Lookup(nodes[0].fields, "value") == value then [] else [nodes[0]])
      + OtherNodes(nodes[1..], value)
  }

  function Annotated(existing: Json, w: Write): Json
  {
    Arr(OtherNodes(if existing.Arr? then existing.items else [], w.statement.value) + [NodeOf(w)])
  }

  function AssertOne(fields: seq<Field>, w: Write): seq<Field>
  {
    var stated := SetField(fields, w.path, w.statement.value);
    SetField(stated, SidecarOf(w.path), Annotated(Lookup(stated, SidecarOf(w.path)), w))
  }

  function Asserted(fields: seq<Field>, writes: seq<Write>): seq<Field>
  {
    if writes == [] then fields else AssertOne(Asserted(fields, writes[..|writes| - 1]), writes[|writes| - 1])
  }

  /** A node of a sidecar that states another value. */
  predicate StatesOther(node: Json, value: Json)
  {
    node.Obj? ==> Lookup(node.fields, "value") != value
  }

  lemma {:induction false} OtherNodesExact(nodes: seq<Json>, value: Json)
    ensures forall node :: node in OtherNodes(nodes, value) <==> node in nodes && StatesOther(node, value)
  {
    if nodes != [] {
      OtherNodesExact(nodes[1..], value);
      assert nodes == [nodes[0]] + nodes[1..];
    }
  }

  /**
   * One write: the property has the value, and its sidecar the earlier nodes for other values
   * and one node with the value and the fingerprint at the end.
   */
  lemma WriteStates(fields: seq<Field>, w: Write)
    ensures var after, was := AssertOne(fields, w), Lookup(fields, SidecarOf(w.path));
      && Lookup(after, w.path) == w.statement.value && Lookup(after, SidecarOf(w.path)).Arr?
      && var nodes := Lookup(after, SidecarOf(w.path)).items;
         && nodes != [] && nodes[|nodes| - 1].Obj?
         && Lookup(nodes[|nodes| - 1].fields, "value") == w.statement.value
         && Lookup(nodes[|nodes| - 1].fields, "inputFingerprint") == Str(w.statement.fingerprint)
         && forall node :: node in nodes[..|nodes| - 1] <==>
              was.Arr? && node in was.items && StatesOther(node, w.statement.value)
  {
    var sidecar := SidecarOf(w.path);
    assert |sidecar| > |w.path|;
    var stated := SetField(fields, w.path, w.statement.value);
    SetFieldLookup(fields, w.path, w.statement.value, sidecar);
    SetFieldLookup(fields, w.path, w.statement.value, w.path);
    var value := Annotated(Lookup(stated, sidecar), w);
    SetFieldLookup(stated, sidecar, value, sidecar);
    SetFieldLookup(stated, sidecar, value, w.path);
    OtherNodesExact(if Lookup(stated, sidecar).Arr? then Lookup(stated, sidecar).items else [], w.statement.value);
    var node := NodeOf(w);
    assert node.fields[1..] == [Field("inputFingerprint", Str(w.statement.fingerprint))];
    assert value.items[..|value.items| - 1]
        == OtherNodes(if Lookup(stated, sidecar).Arr? then Lookup(stated, sidecar).items else [], w.statement.value);
  }

  /** `applyStatementWrites` */
  method ApplyStatementWrites(fields: seq<Field>, writes: seq<Write>) returns (copy: seq<Field>)
    ensures copy == Asserted(fields, writes)
  {
    copy := fields;
    for k := 0 to |writes|
      invariant copy == Asserted(fields, writes[..k])
    {
      assert writes[..k + 1][..k] == writes[..k];
      copy := SetField(copy, writes[k].path, writes[k].statement.value);
      copy := SetField(copy, SidecarOf(writes[k].path), Annotated(Lookup(copy, SidecarOf(writes[k].path)), writes[k]));
    }
    assert writes[..|writes|] == writes;
  }

  /** A tree in which every record of the entity carries the writes; the type of the top record is given. */
  function WriteAs(v: Json, typeName: Option<string>, key: Key, writes: seq<Write>): Json
    decreases v, 1
  {
    match v
    case Arr(items) =>
      Arr(seq(|items|, i requires 0 <= i < |items| => WriteAs(items[i], EntityType(items[i]), key, writes)))
    case Obj(fields) =>
      var below := WrittenBelow(v, key, writes);
      Obj(if typeName == Some(key.typeName) && EntityId(v) == Some(key.iri) then Asserted(below, writes) else below)
    case _ => v
  }

  function WrittenBelow(v: Json, key: Key, writes: seq<Write>): (r: seq<Field>)
    requires v.Obj?
    ensures |r| == |v.fields|
    decreases v, 0
  {
    seq(|v.fields|, i requires 0 <= i < |v.fields| =>
      assert v.fields[i] < v;
      Field(v.fields[i].key, WriteAs(v.fields[i].value, EntityType(v.fields[i].value), key, writes)))
  }

  /** A root document: its top record has the root type even when it does not say so. */
  function WriteDoc(doc: Json, rootType: string, key: Key, writes: seq<Write>): Json
  {
    WriteAs(doc, EntityType(StampType(doc, rootType)), key, writes)
  }

  function WriteDocs(docs: seq<Json>, rootType: string, key: Key, writes: seq<Write>): (r: seq<Json>)
    ensures |r| == |docs|
  {
    seq(|docs|, i requires 0 <= i < |docs| => WriteDoc(docs[i], rootType, key, writes))
  }

  /** Every document with the write on it. */
  function WriteAll(docs: Documents, rootType: string, key: Key, writes: seq<Write>): Documents
  {
    Documents(
      WriteDocs(docs.rows, rootType, key, writes),
      if docs.deep.None? then None
      else Some(map iri | iri in docs.deep.value :: WriteDoc(docs.deep.value[iri], rootType, key, writes)))
  }

  /** The record a store creates for an entity it does not have. */
  function Blank(key: Key): Json
  {
    Obj([Field("@id", Str(key.iri)), Field("@type", Str(key.typeName))])
  }

  /** A root is listed; entities of other types are seen in documents of roots only. */
  predicate IsListed(docs: Documents, rootType: string, key: Key)
  {
    key.typeName == rootType ==> key.iri in IdsOf(docs.rows)
  }

  /** A write for a root that is not listed creates it. */
  function WithRow(docs: Documents, rootType: string, key: Key): Documents
  {
    if IsListed(docs, rootType, key) then docs
    else
      Documents(
        docs.rows + [Blank(key)],
        if docs.deep.None? then None
        else Some(if key.iri in docs.deep.value then docs.deep.value else docs.deep.value[key.iri := Blank(key)]))
  }

  /** The documents a store returns after a write. */
  function WriteBack(docs: Documents, rootType: string, key: Key, writes: seq<Write>): Documents
  {
    WriteAll(WithRow(docs, rootType, key), rootType, key, writes)
  }

  // ----- a write reaches outputs and sidecars only -----

  /** Every write is for a slot of the entity's type. */
  ghost predicate WritesOutputs(slots: seq<Slot>, typeName: string, writes: seq<Write>)
  {
    forall w :: w in writes ==> IsOutput(slots, Some(typeName), w.path)
  }

  lemma SidecarIsSidecar(path: string)
    ensures IsSidecar(SidecarOf(path))
  {
  }

  lemma OutputName(slots: seq<Slot>, typeName: Option<string>, key: string)
    requires DataNames(slots) && IsOutput(slots, typeName, key)
    ensures key !in {"@id", "@type"} && !IsSidecar(key)
  {
  }

  /** What the assertion of writes leaves as it was: the shown fields, identity, and tidiness. */
  lemma {:induction false} AssertedKeeps(
      slots: seq<Slot>, known: seq<Slot>, typeName: string, fields: seq<Field>, writes: seq<Write>)
    requires DataNames(slots) && WritesOutputs(slots, typeName, writes)
    ensures var after := Asserted(fields, writes);
      && CoreViews(slots, known, Some(typeName), after) == CoreViews(slots, known, Some(typeName), fields)
      && Lookup(after, "@id") == Lookup(fields, "@id") && Lookup(after, "@type") == Lookup(fields, "@type")
  {
    if writes != [] {
      var n := |writes| - 1;
      assert writes[n] in writes;
      AssertedKeeps(slots, known, typeName, fields, writes[..n]);
      AssertOneKeeps(slots, known, typeName, Asserted(fields, writes[..n]), writes[n]);
    }
  }

  lemma AssertOneKeeps(slots: seq<Slot>, known: seq<Slot>, typeName: string, fields: seq<Field>, w: Write)
    requires DataNames(slots) && IsOutput(slots, Some(typeName), w.path)
    ensures var after := AssertOne(fields, w);
      && CoreViews(slots, known, Some(typeName), after) == CoreViews(slots, known, Some(typeName), fields)
      && Lookup(after, "@id") == Lookup(fields, "@id") && Lookup(after, "@type") == Lookup(fields, "@type")
  {
    var sidecar := SidecarOf(w.path);
    SidecarIsSidecar(w.path);
    OutputName(slots, Some(typeName), w.path);
    assert "@type"[0..] == "@type" && !IsSidecar("@id") && !IsSidecar("@type");
    var stated := SetField(fields, w.path, w.statement.value);
    var value := Annotated(Lookup(stated, sidecar), w);
    CoreSetField(slots, known, Some(typeName), fields, w.path, w.statement.value);
    CoreSetField(slots, known, Some(typeName), stated, sidecar, value);
    SetFieldLookup(fields, w.path, w.statement.value, "@id");
    SetFieldLookup(fields, w.path, w.statement.value, "@type");
    SetFieldLookup(stated, sidecar, value, "@id");
    SetFieldLookup(stated, sidecar, value, "@type");
  }

  lemma {:induction false} OthersInert(nodes: seq<Json>, value: Json)
    requires forall i :: 0 <= i < |nodes| ==> Inert(nodes[i])
    ensures forall i :: 0 <= i < |OtherNodes(nodes, value)| ==> Inert(OtherNodes(nodes, value)[i])
  {
    if nodes != [] {
      OthersInert(nodes[1..], value);
    }
  }

  lemma NodeInert(w: Write)
    ensures Inert(NodeOf(w)) && WellFormed(NodeOf(w))
  {
    var fields := NodeOf(w).fields;
    LookupAbsent(fields, "@type");
    assert Children(NodeOf(w)) == [w.statement.value, Str(w.statement.fingerprint)];
    FlatIsInert(w.statement.value);
    FlatIsInert(Str(w.statement.fingerprint));
  }

  lemma AnnotatedInert(existing: Json, w: Write)
    requires Inert(existing)
    ensures Inert(Annotated(existing, w))
  {
    NodeInert(w);
    var nodes := if existing.Arr? then existing.items else [];
    forall i | 0 <= i < |nodes| ensures Inert(nodes[i]) { assert Children(existing)[i] == nodes[i]; }
    OthersInert(nodes, w.statement.value);
    assert Children(Annotated(existing, w)) == OtherNodes(nodes, w.statement.value) + [NodeOf(w)];
  }

  lemma {:induction false} OthersWellFormed(nodes: seq<Json>, value: Json)
    requires forall i :: 0 <= i < |nodes| ==> WellFormed(nodes[i])
    ensures forall i :: 0 <= i < |OtherNodes(nodes, value)| ==> WellFormed(OtherNodes(nodes, value)[i])
  {
    if nodes != [] {
      OthersWellFormed(nodes[1..], value);
    }
  }

  lemma AnnotatedWellFormed(existing: Json, w: Write)
    requires WellFormed(existing)
    ensures WellFormed(Annotated(existing, w))
  {
    NodeInert(w);
    OthersWellFormed(if existing.Arr? then existing.items else [], w.statement.value);
  }

  lemma {:induction false} BelowLookup(fields: seq<Field>, key: Key, writes: seq<Write>, name: string)
    ensures var below := WrittenBelow(Obj(fields), key, writes);
      Lookup(below, name) == WriteAs(Lookup(fields, name), EntityType(Lookup(fields, name)), key, writes)
  {
    if fields != [] {
      BelowLookup(fields[1..], key, writes, name);
      assert WrittenBelow(Obj(fields), key, writes)[1..] == WrittenBelow(Obj(fields[1..]), key, writes);
    }
  }

  lemma FlatUnwritten(v: Json, typeName: Option<string>, key: Key, writes: seq<Write>)
    ensures IsFlat(v) ==> WriteAs(v, typeName, key, writes) == v
    ensures WriteAs(v, typeName, key, writes).Str? ==> v.Str?
    ensures v.Obj? == WriteAs(v, typeName, key, writes).Obj?
  {
  }

  /** Writes leave a record's type and id. */
  lemma WrittenIdentity(slots: seq<Slot>, v: Json, typeName: Option<string>, key: Key, writes: seq<Write>)
    requires v.Obj? && DataNames(slots) && WritesOutputs(slots, key.typeName, writes)
    ensures var r := WriteAs(v, typeName, key, writes);
      && r.Obj? && EntityType(r) == EntityType(v) && EntityId(r) == EntityId(v)
      && Lookup(r.fields, "@type").Str? == Lookup(v.fields, "@type").Str?
      && (Lookup(v.fields, "@type").Str? ==> Lookup(r.fields, "@type") == Lookup(v.fields, "@type"))
  {
    var below := WrittenBelow(v, key, writes);
    assert v == Obj(v.fields);
    BelowLookup(v.fields, key, writes, "@type");
    BelowLookup(v.fields, key, writes, "@id");
    FlatUnwritten(Lookup(v.fields, "@type"), EntityType(Lookup(v.fields, "@type")), key, writes);
    FlatUnwritten(Lookup(v.fields, "@id"), EntityType(Lookup(v.fields, "@id")), key, writes);
    AssertedKeeps(slots, [], key.typeName, below, writes);
  }

  /** Nothing a formula sees without known outputs is changed by a write. */
  lemma {:induction false} WriteUnseen(slots: seq<Slot>, v: Json, key: Key, writes: seq<Write>)
    requires DataNames(slots) && WritesOutputs(slots, key.typeName, writes)
    ensures SameView(slots, [], WriteAs(v, EntityType(v), key, writes), v)
    decreases v, 1
  {
    if v.Arr? {
      forall i | 0 <= i < |v.items|
        ensures SameView(slots, [], WriteAs(v.items[i], EntityType(v.items[i]), key, writes), v.items[i])
      {
        WriteUnseen(slots, v.items[i], key, writes);
      }
    } else if v.Obj? {
      WrittenIdentity(slots, v, EntityType(v), key, writes);
      CoreUnseen(slots, v, EntityType(v), key, writes);
    }
  }

  lemma {:induction false} CoreUnseen(
      slots: seq<Slot>, v: Json, typeName: Option<string>, key: Key, writes: seq<Write>)
    requires v.Obj? && DataNames(slots) && WritesOutputs(slots, key.typeName, writes)
    ensures WriteAs(v, typeName, key, writes).Obj?
    ensures CoreViews(slots, [], typeName, WriteAs(v, typeName, key, writes).fields)
         == CoreViews(slots, [], typeName, v.fields)
    decreases v, 0
  {
    var below := WrittenBelow(v, key, writes);
    assert v == Obj(v.fields);
    BelowUnseen(slots, typeName, v.fields, key, writes);
    AssertedKeeps(slots, [], key.typeName, below, writes);
  }

  lemma {:induction false} BelowUnseen(
      slots: seq<Slot>, typeName: Option<string>, fields: seq<Field>, key: Key, writes: seq<Write>)
    requires DataNames(slots) && WritesOutputs(slots, key.typeName, writes)
    ensures CoreViews(slots, [], typeName, WrittenBelow(Obj(fields), key, writes)) == CoreViews(slots, [], typeName, fields)
    decreases fields, 0
  {
    if fields != [] {
      BelowUnseen(slots, typeName, fields[1..], key, writes);
      assert WrittenBelow(Obj(fields), key, writes)[1..] == WrittenBelow(Obj(fields[1..]), key, writes);
      WriteUnseen(slots, fields[0].value, key, writes);
    }
  }

  // ----- documents stay tidy and well formed -----

  /** The fields of a tidy record of the type. */
  ghost predicate TidyList(slots: seq<Slot>, typeName: Option<string>, fields: seq<Field>)
  {
    && TidyFields(slots, typeName, fields)
    && forall i :: 0 <= i < |fields| ==> Tidy(slots, fields[i].value)
  }

  lemma TidyRecord(slots: seq<Slot>, fields: seq<Field>)
    ensures Tidy(slots, Obj(fields)) <==> TidyList(slots, EntityType(Obj(fields)), fields)
  {
    assert forall i :: 0 <= i < |fields| ==> Children(Obj(fields))[i] == fields[i].value;
  }

  lemma TidySet(slots: seq<Slot>, typeName: Option<string>, fields: seq<Field>, key: string, value: Json)
    requires TidyList(slots, typeName, fields) && Tidy(slots, value)
    requires Dropped(slots, typeName, key) ==> Inert(value)
    ensures TidyList(slots, typeName, SetField(fields, key, value))
  {
    forall i | 0 <= i < |SetField(fields, key, value)|
      ensures Dropped(slots, typeName, SetField(fields, key, value)[i].key) ==> Inert(SetField(fields, key, value)[i].value)
      ensures Tidy(slots, SetField(fields, key, value)[i].value)
    {
      SetFieldEntry(fields, key, value, i);
    }
  }

  lemma {:induction false} TidySidecar(slots: seq<Slot>, typeName: Option<string>, fields: seq<Field>, name: string)
    requires TidyList(slots, typeName, fields) && IsSidecar(name)
    ensures Inert(Lookup(fields, name))
  {
    LookupIsField(fields, name);
    if i :| 0 <= i < |fields| && fields[i] == Field(name, Lookup(fields, name)) {
      assert Dropped(slots, typeName, fields[i].key);
    }
  }

  lemma {:induction false} AssertedTidy(slots: seq<Slot>, typeName: Option<string>, fields: seq<Field>, writes: seq<Write>)
    requires TidyList(slots, typeName, fields)
    ensures TidyList(slots, typeName, Asserted(fields, writes))
  {
    if writes != [] {
      var n := |writes| - 1;
      AssertedTidy(slots, typeName, fields, writes[..n]);
      var before, w := Asserted(fields, writes[..n]), writes[n];
      SidecarIsSidecar(w.path);
      FlatIsInert(w.statement.value);
      FlatIsTidy(slots, w.statement.value);
      TidySet(slots, typeName, before, w.path, w.statement.value);
      var stated := SetField(before, w.path, w.statement.value);
      TidySidecar(slots, typeName, stated, SidecarOf(w.path));
      AnnotatedInert(Lookup(stated, SidecarOf(w.path)), w);
      InertIsTidy(slots, Annotated(Lookup(stated, SidecarOf(w.path)), w));
      TidySet(slots, typeName, stated, SidecarOf(w.path), Annotated(Lookup(stated, SidecarOf(w.path)), w));
    }
  }

  lemma {:induction false} AssertedWellFormed(fields: seq<Field>, writes: seq<Write>)
    requires WellFormed(Obj(fields))
    ensures WellFormed(Obj(Asserted(fields, writes)))
  {
    if writes != [] {
      var n := |writes| - 1;
      AssertedWellFormed(fields, writes[..n]);
      var before, w := Asserted(fields, writes[..n]), writes[n];
      SetFieldWellFormed(before, w.path, w.statement.value);
      var stated := SetField(before, w.path, w.statement.value);
      LookupWellFormed(stated, SidecarOf(w.path));
      AnnotatedWellFormed(Lookup(stated, SidecarOf(w.path)), w);
      SetFieldWellFormed(stated, SidecarOf(w.path), Annotated(Lookup(stated, SidecarOf(w.path)), w));
    }
  }

  lemma SetFieldWellFormed(fields: seq<Field>, key: string, value: Json)
    requires WellFormed(Obj(fields)) && WellFormed(value)
    ensures WellFormed(Obj(SetField(fields, key, value)))
  {
    SetFieldUnique(fields, key, value);
    forall i | 0 <= i < |SetField(fields, key, value)| ensures WellFormed(SetField(fields, key, value)[i].value) {
      SetFieldEntry(fields, key, value, i);
    }
  }

  lemma {:induction false} InertUnwritten(v: Json, key: Key, writes: seq<Write>)
    requires Inert(v)
    ensures WriteAs(v, EntityType(v), key, writes) == v
    decreases v
  {
    if v.Arr? {
      forall i | 0 <= i < |v.items|
        ensures WriteAs(v.items[i], EntityType(v.items[i]), key, writes) == v.items[i]
      {
        assert Children(v)[i] == v.items[i];
        InertUnwritten(v.items[i], key, writes);
      }
      assert WriteAs(v, EntityType(v), key, writes).items == v.items;
    } else if v.Obj? {
      forall i | 0 <= i < |v.fields|
        ensures WriteAs(v.fields[i].value, EntityType(v.fields[i].value), key, writes) == v.fields[i].value
      {
        assert Children(v)[i] == v.fields[i].value && Children(v)[i] < v;
        InertUnwritten(v.fields[i].value, key, writes);
      }
      assert WrittenBelow(v, key, writes) == v.fields;
    }
  }

  lemma {:induction false} WriteTidy(slots: seq<Slot>, v: Json, key: Key, writes: seq<Write>)
    requires Tidy(slots, v) && WellFormed(v) && DataNames(slots) && WritesOutputs(slots, key.typeName, writes)
    ensures Tidy(slots, WriteAs(v, EntityType(v), key, writes)) && WellFormed(WriteAs(v, EntityType(v), key, writes))
    decreases v, 1
  {
    var r := WriteAs(v, EntityType(v), key, writes);
    if v.Arr? {
      forall i | 0 <= i < |v.items| ensures Tidy(slots, r.items[i]) && WellFormed(r.items[i]) {
        assert Children(v)[i] == v.items[i];
        WriteTidy(slots, v.items[i], key, writes);
      }
    } else if v.Obj? {
      assert v == Obj(v.fields);
      TidyRecord(slots, v.fields);
      WrittenIdentity(slots, v, EntityType(v), key, writes);
      RecordTidy(slots, v, EntityType(v), key, writes);
      assert r == Obj(r.fields);
      TidyRecord(slots, r.fields);
    }
  }

  lemma {:induction false} RecordTidy(slots: seq<Slot>, v: Json, typeName: Option<string>, key: Key, writes: seq<Write>)
    requires v.Obj? && TidyList(slots, typeName, v.fields) && WellFormed(v)
    requires DataNames(slots) && WritesOutputs(slots, key.typeName, writes)
    ensures var r := WriteAs(v, typeName, key, writes);
      r.Obj? && TidyList(slots, typeName, r.fields) && WellFormed(r)
    decreases v, 0
  {
    var below := WrittenBelow(v, key, writes);
    forall i | 0 <= i < |below|
      ensures below[i].key == v.fields[i].key && Tidy(slots, below[i].value) && WellFormed(below[i].value)
      ensures Dropped(slots, typeName, below[i].key) ==> Inert(below[i].value)
    {
      assert v.fields[i] < v;
      WriteTidy(slots, v.fields[i].value, key, writes);
      if Dropped(slots, typeName, below[i].key) { InertUnwritten(v.fields[i].value, key, writes); }
    }
    assert UniqueKeys(below) && WellFormed(Obj(below)) && TidyList(slots, typeName, below);
    AssertedTidy(slots, typeName, below, writes);
    AssertedWellFormed(below, writes);
  }

  // ----- root documents -----

  /** A root document as a store returns it: a record, tidy once it carries the root type. */
  ghost predicate GoodDoc(slots: seq<Slot>, rootType: string, doc: Json)
  {
    doc.Obj? && WellFormed(doc) && TidyList(slots, EntityType(StampType(doc, rootType)), doc.fields)
  }

  lemma StampedIsTidy(slots: seq<Slot>, rootType: string, doc: Json)
    requires GoodDoc(slots, rootType, doc)
    ensures Tidy(slots, StampType(doc, rootType)) && WellFormed(StampType(doc, rootType))
  {
    var stamped := StampType(doc, rootType);
    assert doc == Obj(doc.fields) && stamped == Obj(stamped.fields);
    TidyRecord(slots, stamped.fields);
    if stamped != doc {
      FlatIsTidy(slots, Str(rootType));
      FlatIsInert(Str(rootType));
      TidySet(slots, EntityType(stamped), doc.fields, "@type", Str(rootType));
      SetFieldWellFormed(doc.fields, "@type", Str(rootType));
    }
  }

  /** The first field of the key gets the view, or a new one is added. */
  function PutCore(core: seq<Views.Shown>, key: string, view: View): seq<Views.Shown>
  {
    if core == [] then [Shown(key, view)]
    else if core[0].key == key then [Shown(key, view)] + core[1..]
    else [core[0]] + PutCore(core[1..], key, view)
  }

  lemma {:induction false} CorePut(
      slots: seq<Slot>, known: seq<Slot>, typeName: Option<string>, fields: seq<Field>, key: string, value: Json)
    requires !Dropped(slots, typeName, key)
    ensures CoreViews(slots, known, typeName, SetField(fields, key, value)) ==
            PutCore(CoreViews(slots, known, typeName, fields), key, ViewOf(slots, known, value))
  {
    var after := SetField(fields, key, value);
    if fields == [] {
      assert after[1..] == [];
    } else if fields[0].key == key {
      assert after[1..] == fields[1..];
      var rest := CoreViews(slots, known, typeName, fields[1..]);
      assert CoreViews(slots, known, typeName, fields)[1..] == rest;
    } else {
      CorePut(slots, known, typeName, fields[1..], key, value);
      assert after[1..] == SetField(fields[1..], key, value);
      var rest := CoreViews(slots, known, typeName, fields[1..]);
      if !Dropped(slots, typeName, fields[0].key) {
        assert CoreViews(slots, known, typeName, fields)[1..] == rest;
      } else {
        assert CoreViews(slots, known, typeName, fields) == rest;
      }
    }
  }

  /** The stamped type does not depend on what was written, and the view of a stamped root neither. */
  lemma StampUnseen(slots: seq<Slot>, rootType: string, doc: Json, key: Key, writes: seq<Write>)
    requires doc.Obj? && DataNames(slots) && WritesOutputs(slots, key.typeName, writes)
    ensures var r := WriteDoc(doc, rootType, key, writes);
      && r.Obj? && EntityId(r) == EntityId(doc)
      && EntityType(StampType(r, rootType)) == EntityType(StampType(doc, rootType))
      && SameView(slots, [], StampType(r, rootType), StampType(doc, rootType))
  {
    var stamped := StampType(doc, rootType);
    var t := EntityType(stamped);
    var r := WriteDoc(doc, rootType, key, writes);
    WrittenIdentity(slots, doc, t, key, writes);
    CoreUnseen(slots, doc, t, key, writes);
    if !(Lookup(doc.fields, "@type").Str? && Lookup(doc.fields, "@type").s != "") {
      assert !IsSidecar("@type");
      SetFieldLookup(doc.fields, "@type", Str(rootType), "@type");
      SetFieldLookup(r.fields, "@type", Str(rootType), "@type");
      if IsOutput(slots, t, "@type") { OutputName(slots, t, "@type"); }
      CorePut(slots, [], t, doc.fields, "@type", Str(rootType));
      CorePut(slots, [], t, r.fields, "@type", Str(rootType));
    }
  }

  /** A write keeps a root document good, and evaluation sees no difference. */
  lemma WriteDocKeeps(slots: seq<Slot>, rootType: string, doc: Json, key: Key, writes: seq<Write>)
    requires GoodDoc(slots, rootType, doc) && DataNames(slots) && WritesOutputs(slots, key.typeName, writes)
    ensures GoodDoc(slots, rootType, WriteDoc(doc, rootType, key, writes))
    ensures SameView(slots, [], StampType(WriteDoc(doc, rootType, key, writes), rootType), StampType(doc, rootType))
  {
    StampUnseen(slots, rootType, doc, key, writes);
    RecordTidy(slots, doc, EntityType(StampType(doc, rootType)), key, writes);
  }

  // ----- the documents of a store -----

  ghost predicate GoodList(slots: seq<Slot>, rootType: string, docs: seq<Json>)
  {
    forall doc :: doc in docs ==> GoodDoc(slots, rootType, doc)
  }

  /** Every record of the root type in the document is a root of its own. */
  ghost predicate NamesRoots(slots: seq<Slot>, rootType: string, doc: Json, ids: seq<string>)
  {
    forall seen :: seen in EntityViews(ViewOf(slots, [], StampType(doc, rootType))) && seen.typeName == rootType ==>
      seen.iri in ids
  }

  ghost predicate ListsRoots(slots: seq<Slot>, rootType: string, docs: Documents)
  {
    && (forall doc :: doc in docs.rows ==> NamesRoots(slots, rootType, doc, IdsOf(docs.rows)))
    && (docs.deep.Some? ==> forall iri :: iri in docs.deep.value ==>
          iri in IdsOf(docs.rows) && NamesRoots(slots, rootType, docs.deep.value[iri], IdsOf(docs.rows)))
  }

  /** Good documents, in which no root is named that is not listed. */
  ghost predicate GoodDocuments(slots: seq<Slot>, rootType: string, docs: Documents)
  {
    && GoodList(slots, rootType, docs.rows)
    && (docs.deep.Some? ==> forall iri :: iri in docs.deep.value ==> GoodDoc(slots, rootType, docs.deep.value[iri]))
    && ListsRoots(slots, rootType, docs)
  }

  lemma WrittenNamesRoots(
      slots: seq<Slot>, rootType: string, doc: Json, key: Key, writes: seq<Write>, ids: seq<string>)
    requires GoodDoc(slots, rootType, doc) && DataNames(slots) && WritesOutputs(slots, key.typeName, writes)
    requires NamesRoots(slots, rootType, doc, ids)
    ensures NamesRoots(slots, rootType, WriteDoc(doc, rootType, key, writes), ids)
  {
    WriteDocKeeps(slots, rootType, doc, key, writes);
  }

  lemma WriteAllKeeps(slots: seq<Slot>, rootType: string, docs: Documents, key: Key, writes: seq<Write>)
    requires GoodDocuments(slots, rootType, docs) && DataNames(slots) && WritesOutputs(slots, key.typeName, writes)
    ensures GoodDocuments(slots, rootType, WriteAll(docs, rootType, key, writes))
  {
    var after := WriteAll(docs, rootType, key, writes);
    WrittenRows(slots, rootType, docs.rows, [], key, writes);
    forall doc | doc in after.rows
      ensures GoodDoc(slots, rootType, doc) && NamesRoots(slots, rootType, doc, IdsOf(docs.rows))
    {
      var i :| 0 <= i < |after.rows| && after.rows[i] == doc;
      assert docs.rows[i] in docs.rows;
      WriteDocKeeps(slots, rootType, docs.rows[i], key, writes);
      WrittenNamesRoots(slots, rootType, docs.rows[i], key, writes, IdsOf(docs.rows));
    }
    if docs.deep.Some? {
      forall iri | iri in after.deep.value
        ensures GoodDoc(slots, rootType, after.deep.value[iri])
        ensures NamesRoots(slots, rootType, after.deep.value[iri], IdsOf(docs.rows))
      {
        WriteDocKeeps(slots, rootType, docs.deep.value[iri], key, writes);
        WrittenNamesRoots(slots, rootType, docs.deep.value[iri], key, writes, IdsOf(docs.rows));
      }
    }
  }

  lemma BlankIsGood(slots: seq<Slot>, rootType: string, key: Key, ids: seq<string>)
    requires DataNames(slots) && key.iri in ids
    ensures GoodDoc(slots, rootType, Blank(key)) && EntityId(Blank(key)) == Some(key.iri)
    ensures NamesRoots(slots, rootType, Blank(key), ids)
  {
    var doc := Blank(key);
    FlatIsTidy(slots, Str(key.iri));
    FlatIsTidy(slots, Str(key.typeName));
    FlatIsInert(Str(key.iri));
    FlatIsInert(Str(key.typeName));
    BlankView(slots, rootType, key);
  }

  lemma BlankStamped(rootType: string, key: Key)
    ensures StampType(Blank(key), rootType) ==
            Obj([Field("@id", Str(key.iri)), Field("@type", Str(if key.typeName != "" then key.typeName else rootType))])
  {
    var fields := Blank(key).fields;
    assert fields[1..] == [Field("@type", Str(key.typeName))];
    assert "@id" != "@type" by { assert |"@id"| != |"@type"|; }
    assert Lookup(fields, "@type") == Lookup(fields[1..], "@type") == Str(key.typeName);
    assert SetField(fields, "@type", Str(rootType)) == [fields[0]] + SetField(fields[1..], "@type", Str(rootType));
  }

  /** A new root shows its id and its type, and no other record. */
  lemma BlankView(slots: seq<Slot>, rootType: string, key: Key)
    requires DataNames(slots)
    ensures var view := ViewOf(slots, [], StampType(Blank(key), rootType));
      && view.Rec? && view.typeName == EntityType(StampType(Blank(key), rootType))
      && |view.core| == 2 && view.core[0] == Shown("@id", Leaf(Str(key.iri)))
      && view.core[1].key == "@type" && view.core[1].view.Leaf?
      && EntityViews(view) == OwnView(view)
  {
    var stamped := StampType(Blank(key), rootType);
    var t := EntityType(stamped);
    BlankStamped(rootType, key);
    assert !IsSidecar("@id") && !IsSidecar("@type");
    assert !IsOutput(slots, t, "@id") && !IsOutput(slots, t, "@type");
    var fields := stamped.fields;
    assert fields[1..][0] == fields[1] && fields[1..][1..] == [];
    var last := Shown("@type", Leaf(fields[1].value));
    assert CoreViews(slots, [], t, fields[1..]) == [last];
    assert CoreViews(slots, [], t, fields) == [Shown("@id", Leaf(Str(key.iri)))] + [last];
    TwoLeaves(Shown("@id", Leaf(Str(key.iri))), last);
  }

  lemma TwoLeaves(a: Views.Shown, b: Views.Shown)
    requires a.view.Leaf? && b.view.Leaf?
    ensures CoreEntities([a] + [b]) == []
  {
    assert ([a] + [b])[1..] == [b] && [b][1..] == [];
    assert EntityViews(a.view) == [] && EntityViews(b.view) == [];
    assert CoreEntities([]) == [];
    assert CoreEntities([b]) == EntityViews(b.view) + CoreEntities([b][1..]);
    assert CoreEntities([a] + [b]) == EntityViews(a.view) + CoreEntities([b]);
  }

  lemma {:induction false} IdsSnoc(rows: seq<Json>, row: Json)
    requires EntityId(row).Some?
    ensures IdsOf(rows + [row]) == IdsOf(rows) + [EntityId(row).value]
  {
    if rows != [] {
      assert (rows + [row])[1..] == rows[1..] + [row];
      IdsSnoc(rows[1..], row);
    }
  }

  lemma MoreIds(slots: seq<Slot>, rootType: string, doc: Json, ids: seq<string>, more: seq<string>)
    requires NamesRoots(slots, rootType, doc, ids)
    ensures NamesRoots(slots, rootType, doc, ids + more)
  {
  }

  lemma WithRowKeeps(slots: seq<Slot>, rootType: string, docs: Documents, key: Key)
    requires GoodDocuments(slots, rootType, docs) && DataNames(slots)
    ensures GoodDocuments(slots, rootType, WithRow(docs, rootType, key))
    ensures IdsOf(WithRow(docs, rootType, key).rows) ==
            IdsOf(docs.rows) + if IsListed(docs, rootType, key) then [] else [key.iri]
  {
    if !IsListed(docs, rootType, key) {
      var after, ids := WithRow(docs, rootType, key), IdsOf(docs.rows) + [key.iri];
      BlankIsGood(slots, rootType, key, ids);
      IdsSnoc(docs.rows, Blank(key));
      forall doc | doc in after.rows ensures GoodDoc(slots, rootType, doc) && NamesRoots(slots, rootType, doc, ids) {
        if doc in docs.rows { MoreIds(slots, rootType, doc, IdsOf(docs.rows), [key.iri]); }
      }
      if docs.deep.Some? {
        forall iri | iri in after.deep.value
          ensures GoodDoc(slots, rootType, after.deep.value[iri])
          ensures NamesRoots(slots, rootType, after.deep.value[iri], ids)
        {
          if iri in docs.deep.value {
            MoreIds(slots, rootType, docs.deep.value[iri], IdsOf(docs.rows), [key.iri]);
          }
        }
      }
    }
  }

  /** After any write the documents are good again. */
  lemma WriteBackKeeps(slots: seq<Slot>, rootType: string, docs: Documents, key: Key, writes: seq<Write>)
    requires GoodDocuments(slots, rootType, docs) && DataNames(slots) && WritesOutputs(slots, key.typeName, writes)
    ensures GoodDocuments(slots, rootType, WriteBack(docs, rootType, key, writes))
  {
    WithRowKeeps(slots, rootType, docs, key);
    WriteAllKeeps(slots, rootType, WithRow(docs, rootType, key), key, writes);
  }

  lemma ConsRows(first: Json, rest: seq<Json>, iris: seq<string>)
    ensures IdsOf([first] + rest) == (if EntityId(first).Some? then [EntityId(first).value] else []) + IdsOf(rest)
    ensures RowsWithIds([first] + rest, iris) ==
            (if EntityId(first).Some? && EntityId(first).value in iris then [first] else []) + RowsWithIds(rest, iris)
  {
    assert ([first] + rest)[1..] == rest;
  }

  lemma ConsWritten(rootType: string, first: Json, rest: seq<Json>, key: Key, writes: seq<Write>)
    ensures WriteDocs([first] + rest, rootType, key, writes) ==
            [WriteDoc(first, rootType, key, writes)] + WriteDocs(rest, rootType, key, writes)
  {
  }

  lemma {:induction false} WrittenRows(
      slots: seq<Slot>, rootType: string, rows: seq<Json>, iris: seq<string>, key: Key, writes: seq<Write>)
    requires GoodList(slots, rootType, rows) && DataNames(slots) && WritesOutputs(slots, key.typeName, writes)
    ensures var after := WriteDocs(rows, rootType, key, writes);
      && IdsOf(after) == IdsOf(rows)
      && RowsWithIds(after, iris) == WriteDocs(RowsWithIds(rows, iris), rootType, key, writes)
  {
    if rows != [] {
      var first, rest := rows[0], rows[1..];
      assert rows == [first] + rest && GoodDoc(slots, rootType, first);
      StampUnseen(slots, rootType, first, key, writes);
      WrittenRows(slots, rootType, rest, iris, key, writes);
      ConsWritten(rootType, first, rest, key, writes);
      ConsRows(first, rest, iris);
      ConsRows(WriteDoc(first, rootType, key, writes), WriteDocs(rest, rootType, key, writes), iris);
      ConsWritten(rootType, first, RowsWithIds(rest, iris), key, writes);
    }
  }

  lemma {:induction false} WrittenLoads(
      rootType: string, deep: map<string, Json>, iris: seq<string>, key: Key, writes: seq<Write>)
    ensures Loaded(map iri | iri in deep :: WriteDoc(deep[iri], rootType, key, writes), iris)
         == WriteDocs(Loaded(deep, iris), rootType, key, writes)
  {
    if iris != [] {
      WrittenLoads(rootType, deep, iris[..|iris| - 1], key, writes);
    }
  }

  /**
   * After a write a run reads the same documents, each with the write on it, and the created
   * root if there was none.
   */
  lemma WrittenRawDocs(
      slots: seq<Slot>, rootType: string, docs: Documents, iris: seq<string>, depth: nat, key: Key, writes: seq<Write>)
    requires GoodDocuments(slots, rootType, docs) && DataNames(slots) && WritesOutputs(slots, key.typeName, writes)
    ensures RawDocs(WriteBack(docs, rootType, key, writes), iris, depth)
         == WriteDocs(RawDocs(WithRow(docs, rootType, key), iris, depth), rootType, key, writes)
  {
    var more := WithRow(docs, rootType, key);
    WithRowKeeps(slots, rootType, docs, key);
    WrittenRows(slots, rootType, more.rows, iris, key, writes);
    if ReadsDeep(docs, depth) {
      WrittenLoads(rootType, more.deep.value, LoadList(more, iris), key, writes);
    }
  }

  lemma {:induction false} WrittenRowWithId(
      slots: seq<Slot>, rootType: string, rows: seq<Json>, iri: string, key: Key, writes: seq<Write>)
    requires GoodList(slots, rootType, rows) && DataNames(slots) && WritesOutputs(slots, key.typeName, writes)
    ensures var before, after := RowWithId(rows, iri), RowWithId(WriteDocs(rows, rootType, key, writes), iri);
      after == if before.Some? then Some(WriteDoc(before.value, rootType, key, writes)) else None
  {
    if rows != [] {
      assert rows[0] in rows;
      StampUnseen(slots, rootType, rows[0], key, writes);
      WrittenRowWithId(slots, rootType, rows[1..], iri, key, writes);
      assert WriteDocs(rows, rootType, key, writes)[1..] == WriteDocs(rows[1..], rootType, key, writes);
    }
  }

  lemma {:induction false} RowWithIdSnoc(rows: seq<Json>, row: Json, iri: string)
    ensures RowWithId(rows + [row], iri) ==
            if RowWithId(rows, iri).Some? then RowWithId(rows, iri)
            else if EntityId(row) == Some(iri) then Some(row) else None
  {
    if rows != [] {
      assert (rows + [row])[1..] == rows[1..] + [row];
      RowWithIdSnoc(rows[1..], row, iri);
    }
  }

  /** The document of a root before a write: the one it had, or a new one for a root that is created. */
  function DocBefore(docs: Documents, rootType: string, key: Key, depth: nat, iri: string): Option<Json>
  {
    var doc := RootDoc(docs, depth, iri);
    if doc.None? && !IsListed(docs, rootType, key) && iri == key.iri then Some(Blank(key)) else doc
  }

  /** The document of one root after a write. */
  lemma WrittenRootDoc(
      slots: seq<Slot>, rootType: string, docs: Documents, depth: nat, iri: string, key: Key, writes: seq<Write>)
    requires GoodDocuments(slots, rootType, docs) && DataNames(slots) && WritesOutputs(slots, key.typeName, writes)
    ensures var before := DocBefore(docs, rootType, key, depth, iri);
      var after := RootDoc(WriteBack(docs, rootType, key, writes), depth, iri);
      after == if before.Some? then Some(WriteDoc(before.value, rootType, key, writes)) else None
    ensures IdsOf(WriteBack(docs, rootType, key, writes).rows) ==
            IdsOf(docs.rows) + if IsListed(docs, rootType, key) then [] else [key.iri]
  {
    var more := WithRow(docs, rootType, key);
    WithRowKeeps(slots, rootType, docs, key);
    WrittenRows(slots, rootType, more.rows, [], key, writes);
    WrittenRowWithId(slots, rootType, more.rows, iri, key, writes);
    assert EntityId(Blank(key)) == Some(key.iri);
    RowWithIdSnoc(docs.rows, Blank(key), iri);
  }

  lemma {:induction false} RootDocGood(slots: seq<Slot>, rootType: string, docs: Documents, depth: nat, iri: string)
    requires GoodDocuments(slots, rootType, docs)
    ensures RootDoc(docs, depth, iri).Some? ==> GoodDoc(slots, rootType, RootDoc(docs, depth, iri).value)
  {
    RowWithIdIn(docs.rows, iri);
  }

  lemma RawDocsGood(slots: seq<Slot>, rootType: string, docs: Documents, iris: seq<string>, depth: nat)
    requires GoodDocuments(slots, rootType, docs)
    ensures GoodList(slots, rootType, RawDocs(docs, iris, depth))
  {
    forall doc | doc in RawDocs(docs, iris, depth) ensures GoodDoc(slots, rootType, doc) {
      SelectionSound(docs, depth, iris, doc);
    }
  }

  /** A stamped root before and after a write: evaluation cannot tell them apart. */
  lemma WrittenSameInputs(profile: Profile, rootType: string, doc: Json, key: Key, writes: seq<Write>)
    requires GoodDoc(ByStratum(profile), rootType, doc) && DataNames(ByStratum(profile))
    requires WritesOutputs(ByStratum(profile), key.typeName, writes)
    ensures SameInputs(profile, StampType(WriteDoc(doc, rootType, key, writes), rootType), StampType(doc, rootType))
  {
    WriteDocKeeps(ByStratum(profile), rootType, doc, key, writes);
    StampedIsTidy(ByStratum(profile), rootType, doc);
    StampedIsTidy(ByStratum(profile), rootType, WriteDoc(doc, rootType, key, writes));
  }
}
