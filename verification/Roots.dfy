/** Reading and evaluating root documents (packages/calc-engine/src/evaluateForRoots.ts). */
module Roots {
  import opened Strings
  import opened Json
  import opened Profiles
  import opened Fingerprints
  import opened Targets
  import opened Views
  import opened Evaluator

  /**
   * What a store returns for the root type: `rows` in `filterMany` order, and, when the
   * store has `loadOne`, the deep document of every root.
   */
  datatype Documents = Documents(rows: seq<Json>, deep: Option<map<string, Json>>)

  /** `filterMany` with an `entityIRIs` clause. */
  function RowsWithIds(rows: seq<Json>, iris: seq<string>): seq<Json>
  {
    if rows == [] then []
    else (if EntityId(rows[0]).Some? && EntityId(rows[0]).value in iris then [rows[0]] else [])
         + RowsWithIds(rows[1..], iris)
  }

  /** An empty request means every root. */
  function RequestedRows(docs: Documents, rootIRIs: seq<string>): seq<Json>
  {
    if rootIRIs == [] then docs.rows else RowsWithIds(docs.rows, rootIRIs)
  }

  function IdsOf(rows: seq<Json>): seq<string>
  {
    if rows == [] then []
    else (if EntityId(rows[0]).Some? then [EntityId(rows[0]).value] else []) + IdsOf(rows[1..])
  }

  function Loaded(deep: map<string, Json>, iris: seq<string>): seq<Json>
  {
    if iris == [] then []
    else
      var last := iris[|iris| - 1];
      Loaded(deep, iris[..|iris| - 1]) + if last in deep then [deep[last]] else []
  }

  /** The roots `loadOne` is asked for. */
  function LoadList(docs: Documents, rootIRIs: seq<string>): seq<string>
  {
    if rootIRIs != [] then rootIRIs else IdsOf(docs.rows)
  }

  /** `stampShortType` */
  function StampType(doc: Json, typeName: string): Json
  {
    if !doc.Obj? then doc
    else
      var t := Lookup(doc.fields, "@type");
      if t.Str? && t.s != "" then doc else Obj(SetField(doc.fields, "@type", Str(typeName)))
  }

  /** A type that is there is kept, a missing or empty one is the root type; nothing else changes. */
  lemma StampExact(doc: Json, typeName: string, key: string)
    requires doc.Obj?
    ensures var kept, r := Lookup(doc.fields, "@type"), StampType(doc, typeName);
      && r.Obj? && (key != "@type" ==> Lookup(r.fields, key) == Lookup(doc.fields, key))
      && Lookup(r.fields, "@type") == (if kept.Str? && kept != Str("") then kept else Str(typeName))
  {
    SetFieldLookup(doc.fields, "@type", Str(typeName), key);
    SetFieldLookup(doc.fields, "@type", Str(typeName), "@type");
  }

  predicate ReadsDeep(docs: Documents, depth: nat)
  {
    depth > 0 && docs.deep.Some?
  }

  function RawDocs(docs: Documents, rootIRIs: seq<string>, depth: nat): seq<Json>
  {
    if ReadsDeep(docs, depth) then Loaded(docs.deep.value, LoadList(docs, rootIRIs)) else RequestedRows(docs, rootIRIs)
  }

  function EvaluateDoc(profile: Profile, f: Formula, host: Host, typeName: string, doc: Json): Json
  {
    Evaluate(LiveSlots(profile, host), f, StampType(doc, typeName))
  }

  lemma {:induction false} TypeStays(slots: seq<Slot>, f: Formula, doc: Json)
    requires forall s :: s in slots ==> s.propertyName != "@type"
    ensures EntityType(ApplySlots(slots, f, doc)) == EntityType(doc)
  {
    if slots != [] {
      var n := |slots| - 1;
      TypeStays(slots[..n], f, doc);
      TypeKept(slots[n], f, ApplySlots(slots[..n], f, doc));
    }
  }

  /** A root document without a type is evaluated as a record of the root type. */
  lemma UntypedRootIsComputed(profile: Profile, f: Formula, host: Host, typeName: string, doc: Json, slot: Slot)
    requires doc.Obj? && Lookup(doc.fields, "@type") in {Undefined, Str("")} && PlainName(typeName)
    requires Stratified(ByStratum(LiveSlots(profile, host)), f) && slot in LiveSlots(profile, host)
    ensures var result := EvaluateDoc(profile, f, host, typeName, doc);
      EntityType(result) == Some(typeName)
      && (Owns(slot, typeName) ==> result.Obj? && Lookup(result.fields, slot.propertyName) == f(slot, result))
  {
    var slots := ByStratum(LiveSlots(profile, host));
    StampExact(doc, typeName, "@type");
    PlainType(typeName, StampType(doc, typeName).fields);
    TypeStays(slots, f, StampType(doc, typeName));
    EvaluateSolves(slots, f, StampType(doc, typeName));
    SameMembers(slots, LiveSlots(profile, host));
  }

  function EvaluateDocs(profile: Profile, f: Formula, host: Host, typeName: string, docs: seq<Json>): (r: seq<Json>)
    ensures |r| == |docs|
  {
    seq(|docs|, i requires 0 <= i < |docs| => EvaluateDoc(profile, f, host, typeName, docs[i]))
  }

  /** The loop of `evaluateCompiledProfileMany` over stamped documents. */
  method EvaluateMany(profile: Profile, f: Formula, host: Host, typeName: string, docs: seq<Json>)
    returns (rows: seq<Json>)
    ensures rows == EvaluateDocs(profile, f, host, typeName, docs)
  {
    rows := [];
    for k := 0 to |docs|
      invariant |rows| == k
      invariant forall i :: 0 <= i < k ==> rows[i] == EvaluateDoc(profile, f, host, typeName, docs[i])
    {
      rows := rows + [EvaluateDoc(profile, f, host, typeName, docs[k])];
    }
  }

  /**
   * `evaluateForRoots`. A shallow read is one query whatever the number of rows; a deep
   * read adds one `loadOne` for each root asked for.
   */
  method EvaluateForRoots(
      docs: Documents, profile: Profile, f: Formula, host: Host, typeName: string, depth: nat, rootIRIs: seq<string>)
    returns (values: seq<Json>, queriesIssued: nat)
    ensures values == EvaluateDocs(profile, f, host, typeName, RawDocs(docs, rootIRIs, depth))
    ensures depth == 0 || docs.deep.None? ==> queriesIssued == 1
    ensures depth > 0 && docs.deep.Some? ==>
      queriesIssued == 1 + if rootIRIs != [] then |rootIRIs| else |IdsOf(docs.rows)|
  {
    var raw := RequestedRows(docs, rootIRIs);
    queriesIssued := 1;
    if depth > 0 && docs.deep.Some? {
      var iris := if rootIRIs != [] then rootIRIs else IdsOf(raw);
      var loaded: seq<Json> := [];
      for k := 0 to |iris|
        invariant loaded == Loaded(docs.deep.value, iris[..k]) && queriesIssued == 1 + k
      {
        assert iris[..k + 1][..k] == iris[..k];
        if iris[k] in docs.deep.value {
          loaded := loaded + [docs.deep.value[iris[k]]];
        }
        queriesIssued := queriesIssued + 1;
      }
      assert iris[..|iris|] == iris;
      raw := loaded;
    }
    values := EvaluateMany(profile, f, host, typeName, raw);
  }

  /** Documents are loaded in the order of the request, as often as it names them. */
  lemma {:induction false} LoadedInOrder(deep: map<string, Json>, a: seq<string>, b: seq<string>)
    ensures Loaded(deep, a + b) == Loaded(deep, a) + Loaded(deep, b)
  {
    if b == [] {
      assert a + b == a;
    } else {
      var n := |b| - 1;
      assert (a + b)[..|a + b| - 1] == a + b[..n];
      LoadedInOrder(deep, a, b[..n]);
    }
  }

  /** Rows keep their order, those of other roots are left out. */
  lemma {:induction false} RowsInOrder(a: seq<Json>, b: seq<Json>, iris: seq<string>)
    ensures RowsWithIds(a + b, iris) == RowsWithIds(a, iris) + RowsWithIds(b, iris)
  {
    if a == [] {
      assert a + b == b;
    } else {
      assert (a + b)[0] == a[0] && (a + b)[1..] == a[1..] + b;
      RowsInOrder(a[1..], b, iris);
      var first := if EntityId(a[0]).Some? && EntityId(a[0]).value in iris then [a[0]] else [];
      var p, q := RowsWithIds(a[1..], iris), RowsWithIds(b, iris);
      assert RowsWithIds(a + b, iris) == first + (p + q) && RowsWithIds(a, iris) == first + p;
    }
  }

  /** One root is read once: its row if that names it, its deep document if there is one. */
  lemma OneIsRead(deep: map<string, Json>, row: Json, iri: string, iris: seq<string>)
    ensures Loaded(deep, [iri]) == if iri in deep then [deep[iri]] else []
    ensures RowsWithIds([row], iris) == if EntityId(row).Some? && EntityId(row).value in iris then [row] else []
    ensures IdsOf([row]) == if EntityId(row).Some? then [EntityId(row).value] else []
  {
    assert [iri][..0] == [] && [row][1..] == [];
  }

  /** The identified rows, in order. */
  lemma {:induction false} IdsInOrder(a: seq<Json>, b: seq<Json>)
    ensures IdsOf(a + b) == IdsOf(a) + IdsOf(b)
  {
    if a == [] {
      assert a + b == b;
    } else {
      assert (a + b)[0] == a[0] && (a + b)[1..] == a[1..] + b;
      IdsInOrder(a[1..], b);
    }
  }

  /** Every row is reached by the full sweep, and only requested roots by a targeted one. */
  lemma {:induction false} RowsWithIdsExact(rows: seq<Json>, iris: seq<string>, doc: Json)
    ensures doc in RowsWithIds(rows, iris) <==>
            doc in rows && EntityId(doc).Some? && EntityId(doc).value in iris
  {
    if rows != [] {
      assert rows == [rows[0]] + rows[1..];
      RowsWithIdsExact(rows[1..], iris, doc);
    }
  }

  lemma {:induction false} IdsOfExact(rows: seq<Json>, iri: string)
    ensures iri in IdsOf(rows) <==> exists doc :: doc in rows && EntityId(doc) == Some(iri)
  {
    if rows != [] {
      assert rows == [rows[0]] + rows[1..];
      IdsOfExact(rows[1..], iri);
      if EntityId(rows[0]) == Some(iri) { assert rows[0] in rows; }
      if doc :| doc in rows[1..] && EntityId(doc) == Some(iri) { assert doc in rows; }
    }
  }

  lemma {:induction false} LoadedExact(deep: map<string, Json>, iris: seq<string>, doc: Json)
    ensures doc in Loaded(deep, iris) <==> exists iri :: iri in iris && iri in deep && deep[iri] == doc
  {
    if iris != [] {
      var n := |iris| - 1;
      LoadedExact(deep, iris[..n], doc);
      assert iris == iris[..n] + [iris[n]];
      if iri :| iri in iris[..n] && iri in deep && deep[iri] == doc { assert iri in iris; }
      if iris[n] in deep && deep[iris[n]] == doc { assert iris[n] in iris; }
    }
  }

  /** The raw document a run reads for one root; None when the store has no such root. */
  function RootDoc(docs: Documents, depth: nat, iri: string): Option<Json>
  {
    if ReadsDeep(docs, depth) then
      if iri in docs.deep.value then Some(docs.deep.value[iri]) else None
    else RowWithId(docs.rows, iri)
  }

  function RowWithId(rows: seq<Json>, iri: string): Option<Json>
  {
    if rows == [] then None
    else if EntityId(rows[0]) == Some(iri) then Some(rows[0])
    else RowWithId(rows[1..], iri)
  }

  lemma {:induction false} RowWithIdIn(rows: seq<Json>, iri: string)
    ensures RowWithId(rows, iri).Some? ==>
              RowWithId(rows, iri).value in rows && EntityId(RowWithId(rows, iri).value) == Some(iri)
  {
    if rows != [] {
      assert rows == [rows[0]] + rows[1..];
      RowWithIdIn(rows[1..], iri);
    }
  }

  /**
   * Root selection: a run reads the document of every root it is asked for, and of every
   * row's root when it is asked for none.
   */
  lemma SelectionCovers(docs: Documents, depth: nat, rootIRIs: seq<string>, iri: string)
    requires RootDoc(docs, depth, iri).Some?
    requires iri in rootIRIs || (rootIRIs == [] && exists row :: row in docs.rows && EntityId(row) == Some(iri))
    ensures RootDoc(docs, depth, iri).value in RawDocs(docs, rootIRIs, depth)
  {
    var doc := RootDoc(docs, depth, iri).value;
    if ReadsDeep(docs, depth) {
      IdsOfExact(docs.rows, iri);
      LoadedExact(docs.deep.value, LoadList(docs, rootIRIs), doc);
    } else {
      RowWithIdIn(docs.rows, iri);
      RowsWithIdsExact(docs.rows, rootIRIs, doc);
    }
  }

  /** Nothing else is read: every document belongs to a requested root, or to some row. */
  lemma SelectionSound(docs: Documents, depth: nat, rootIRIs: seq<string>, doc: Json)
    requires doc in RawDocs(docs, rootIRIs, depth)
    ensures if ReadsDeep(docs, depth)
            then exists iri :: iri in LoadList(docs, rootIRIs) && iri in docs.deep.value && docs.deep.value[iri] == doc
            else doc in docs.rows && (rootIRIs != [] ==> EntityId(doc).Some? && EntityId(doc).value in rootIRIs)
  {
    if ReadsDeep(docs, depth) {
      LoadedExact(docs.deep.value, LoadList(docs, rootIRIs), doc);
    } else {
      RowsWithIdsExact(docs.rows, rootIRIs, doc);
    }
  }
}
