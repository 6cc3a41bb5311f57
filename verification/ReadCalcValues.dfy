/** Materialized-first reads (packages/calc-engine/src/readCalcValues.ts). */
module ReadCalcValues {
  import opened Strings
  import opened Json
  import opened Profiles
  import opened Fingerprints
  import opened Targets
  import opened Views
  import opened Evaluator
  import opened Roots
  import opened Statements
  import opened Warm

  datatype Freshness = FreshState | StaleState | UnknownState

  datatype Report = Report(data: Option<Json>, freshness: Freshness, queriesIssued: nat)

  /** The statements loaded for one property of one entity. */
  function NodesAt(store: Statements, o: Occurrence, name: string): seq<Statement>
  {
    var key := Key(o.typeName, o.iri);
    if key in store && name in store[key] then store[key][name] else []
  }

  function Nodes(store: Statements, o: Occurrence, slot: Slot): seq<Statement>
  {
    NodesAt(store, o, slot.propertyName)
  }

  predicate HasStatement(store: Statements, o: Occurrence, slots: seq<Slot>)
  {
    slots != [] &&
    (HasStatement(store, o, slots[..|slots| - 1]) || Nodes(store, o, slots[|slots| - 1]) != [])
  }

  predicate SlotsFresh(store: Statements, o: Occurrence, slots: seq<Slot>, fingerprint: string)
  {
    slots == [] ||
    (SlotsFresh(store, o, slots[..|slots| - 1], fingerprint) && Fresh(Nodes(store, o, slots[|slots| - 1]), fingerprint))
  }

  predicate TargetHasStatement(store: Statements, profile: Profile, o: Occurrence)
  {
    HasStatement(store, o, SlotsOf(profile, o.typeName))
  }

  predicate TargetFresh(store: Statements, profile: Profile, o: Occurrence)
  {
    SlotsFresh(store, o, SlotsOf(profile, o.typeName), Fingerprint(profile, o.typeName, o.entity))
  }

  predicate AnyStatement(store: Statements, profile: Profile, targets: seq<Occurrence>)
  {
    targets != [] &&
    (AnyStatement(store, profile, targets[..|targets| - 1])
     || TargetHasStatement(store, profile, targets[|targets| - 1]))
  }

  predicate EverySlotFresh(store: Statements, profile: Profile, targets: seq<Occurrence>)
  {
    targets == [] ||
    (EverySlotFresh(store, profile, targets[..|targets| - 1])
     && TargetFresh(store, profile, targets[|targets| - 1]))
  }

  function Verdict(store: Statements, profile: Profile, targets: seq<Occurrence>): Freshness
  {
    if !AnyStatement(store, profile, targets) then UnknownState
    else if EverySlotFresh(store, profile, targets) then FreshState
    else StaleState
  }

  /** The current values of an entity's slots, set on its record. */
  function SetAll(fields: seq<Field>, store: Statements, o: Occurrence, slots: seq<Slot>): seq<Field>
  {
    if slots == [] then fields
    else
      var n := |slots| - 1;
      var before := SetAll(fields, store, o, slots[..n]);
      var nodes := Nodes(store, o, slots[n]);
      if nodes == [] then before else SetField(before, slots[n].propertyName, nodes[|nodes| - 1].value)
  }

  function WithChild(v: Json, i: nat, child: Json): (r: Json)
    requires i < |Children(v)|
    ensures Children(r) == Children(v)[i := child]
  {
    match v
    case Arr(items) => Arr(items[i := child])
    case Obj(fields) =>
      var r := Obj(fields[i := Field(fields[i].key, child)]);
      assert Children(r) == Children(v)[i := child];
      r
  }

  /** Assigning to the properties of the record object that sits at an address. */
  function Patch(v: Json, at: seq<nat>, store: Statements, o: Occurrence, slots: seq<Slot>): Json
    decreases |at|
  {
    if at == [] then
      if v.Obj? then Obj(SetAll(v.fields, store, o, slots)) else v
    else if at[0] < |Children(v)| then
      WithChild(v, at[0], Patch(Children(v)[at[0]], at[1..], store, o, slots))
    else v
  }

  function Spliced(doc: Json, store: Statements, profile: Profile, targets: seq<Occurrence>): Json
  {
    if targets == [] then doc
    else
      var n := |targets| - 1;
      Patch(Spliced(doc, store, profile, targets[..n]), targets[n].at, store, targets[n],
            SlotsOf(profile, targets[n].typeName))
  }

  /** Either every target was fresh and the recorded values are set, or everything is computed. */
  function ReadData(store: Statements, profile: Profile, f: Formula, host: Host, doc: Json): Json
  {
    var targets := CalcTargets(doc, profile);
    if Verdict(store, profile, targets) == FreshState then Spliced(doc, store, profile, targets)
    else Evaluate(LiveSlots(profile, host), f, doc)
  }

  // ----- what the verdict says -----

  /** A statement of the slot is looked up for the target. */
  ghost predicate Asked(profile: Profile, targets: seq<Occurrence>, o: Occurrence, slot: Slot)
  {
    o in targets && slot in profile && Owns(slot, o.typeName)
  }

  lemma {:induction false} HasStatementIff(store: Statements, o: Occurrence, slots: seq<Slot>)
    ensures HasStatement(store, o, slots) <==> exists s :: s in slots && Nodes(store, o, s) != []
  {
    if slots != [] {
      var n := |slots| - 1;
      HasStatementIff(store, o, slots[..n]);
      assert slots == slots[..n] + [slots[n]];
      if s :| s in slots[..n] && Nodes(store, o, s) != [] { assert s in slots; }
    }
  }

  lemma {:induction false} SlotsFreshIff(store: Statements, o: Occurrence, slots: seq<Slot>, fingerprint: string)
    ensures SlotsFresh(store, o, slots, fingerprint) <==> forall s :: s in slots ==> Fresh(Nodes(store, o, s), fingerprint)
  {
    if slots != [] {
      var n := |slots| - 1;
      SlotsFreshIff(store, o, slots[..n], fingerprint);
      assert slots == slots[..n] + [slots[n]];
    }
  }

  lemma {:induction false} AnyStatementIff(store: Statements, profile: Profile, targets: seq<Occurrence>)
    ensures AnyStatement(store, profile, targets) <==> exists o :: o in targets && TargetHasStatement(store, profile, o)
  {
    if targets != [] {
      var n := |targets| - 1;
      AnyStatementIff(store, profile, targets[..n]);
      assert targets == targets[..n] + [targets[n]];
      if o :| o in targets[..n] && TargetHasStatement(store, profile, o) { assert o in targets; }
    }
  }

  lemma {:induction false} EverySlotFreshIff(store: Statements, profile: Profile, targets: seq<Occurrence>)
    ensures EverySlotFresh(store, profile, targets) <==> forall o :: o in targets ==> TargetFresh(store, profile, o)
  {
    if targets != [] {
      var n := |targets| - 1;
      EverySlotFreshIff(store, profile, targets[..n]);
      assert targets == targets[..n] + [targets[n]];
    }
  }

  /** The current statement of the slot has the fingerprint the target has now. */
  ghost predicate IsCurrentFor(store: Statements, profile: Profile, o: Occurrence, slot: Slot)
  {
    var nodes := Nodes(store, o, slot);
    nodes != [] && nodes[|nodes| - 1].fingerprint == Fingerprint(profile, o.typeName, o.entity)
  }

  /**
   * Unknown when no slot of any target has a statement; fresh when some slot has one and the
   * current statement of every slot was computed from the inputs as they are; stale otherwise.
   */
  lemma VerdictExact(store: Statements, profile: Profile, targets: seq<Occurrence>)
    ensures Verdict(store, profile, targets) == UnknownState <==>
            forall o, s :: Asked(profile, targets, o, s) ==> Nodes(store, o, s) == []
    ensures Verdict(store, profile, targets) == FreshState <==>
            && (exists o, s :: Asked(profile, targets, o, s))
            && forall o, s :: Asked(profile, targets, o, s) ==> IsCurrentFor(store, profile, o, s)
  {
    AnyStatementIff(store, profile, targets);
    EverySlotFreshIff(store, profile, targets);
    forall o | o in targets
      ensures TargetHasStatement(store, profile, o) <==> exists s :: Asked(profile, targets, o, s) && Nodes(store, o, s) != []
      ensures TargetFresh(store, profile, o) <==>
              forall s :: Asked(profile, targets, o, s) ==> IsCurrentFor(store, profile, o, s)
    {
      TargetVerdict(store, profile, targets, o);
    }
    if o, s :| Asked(profile, targets, o, s) && Nodes(store, o, s) != [] {
      assert TargetHasStatement(store, profile, o);
    }
  }

  lemma TargetVerdict(store: Statements, profile: Profile, targets: seq<Occurrence>, o: Occurrence)
    requires o in targets
    ensures TargetHasStatement(store, profile, o) <==> exists s :: Asked(profile, targets, o, s) && Nodes(store, o, s) != []
    ensures TargetFresh(store, profile, o) <==>
            forall s :: Asked(profile, targets, o, s) ==> IsCurrentFor(store, profile, o, s)
  {
    var slots := SlotsOf(profile, o.typeName);
    HasStatementIff(store, o, slots);
    SlotsFreshIff(store, o, slots, Fingerprint(profile, o.typeName, o.entity));
    forall s ensures s in slots <==> Asked(profile, targets, o, s) { SlotsOfMember(profile, o.typeName, s); }
  }

  /** Unless it is fresh, the data is computed: every slot the host evaluates, and nothing else is touched. */
  lemma ComputedUnlessFresh(store: Statements, profile: Profile, f: Formula, host: Host, doc: Json)
    requires Verdict(store, profile, CalcTargets(doc, profile)) != FreshState
    requires Stratified(ByStratum(LiveSlots(profile, host)), f)
    ensures forall s :: s in LiveSlots(profile, host) ==> Solves(s, f, ReadData(store, profile, f, host, doc))
    ensures SameView(ByStratum(LiveSlots(profile, host)), [], ReadData(store, profile, f, host, doc), doc)
  {
    var slots := ByStratum(LiveSlots(profile, host));
    SameMembers(slots, LiveSlots(profile, host));
    EvaluateSolves(slots, f, doc);
    EvaluateUnseen(slots, f, |slots|, doc);
    assert slots[..|slots|] == slots;
  }

  /** One statement load per target whose type owns slots. */
  function LoadCount(profile: Profile, targets: seq<Occurrence>): nat
  {
    if targets == [] then 0
    else
      var n := |targets| - 1;
      LoadCount(profile, targets[..n]) + Loads(profile, targets[n])
  }

  function Loads(profile: Profile, o: Occurrence): nat
  {
    if SlotsOf(profile, o.typeName) != [] then 1 else 0
  }

  ghost predicate OwnsSome(profile: Profile, typeName: string)
  {
    exists s :: s in profile && Owns(s, typeName)
  }

  ghost function LoadedTargets(profile: Profile, targets: seq<Occurrence>): set<int>
  {
    set k | 0 <= k < |targets| && OwnsSome(profile, targets[k].typeName)
  }

  lemma OwnsSomeIff(profile: Profile, typeName: string)
    ensures OwnsSome(profile, typeName) <==> SlotsOf(profile, typeName) != []
  {
    if SlotsOf(profile, typeName) != [] { SlotsOfMember(profile, typeName, SlotsOf(profile, typeName)[0]); }
    if s :| s in profile && Owns(s, typeName) { SlotsOfMember(profile, typeName, s); }
  }

  lemma LoadedSnoc(profile: Profile, targets: seq<Occurrence>, o: Occurrence)
    ensures |LoadedTargets(profile, targets + [o])|
         == |LoadedTargets(profile, targets)| + if OwnsSome(profile, o.typeName) then 1 else 0
  {
    var before, after := LoadedTargets(profile, targets), LoadedTargets(profile, targets + [o]);
    assert after == before + if OwnsSome(profile, o.typeName) then {|targets|} else {};
    assert |targets| !in before;
  }

  /** As many loads as there are targets of types that own a slot. */
  lemma {:induction false} LoadsExact(profile: Profile, targets: seq<Occurrence>)
    ensures LoadCount(profile, targets) == |LoadedTargets(profile, targets)|
  {
    if targets != [] {
      var n := |targets| - 1;
      LoadsExact(profile, targets[..n]);
      OwnsSomeIff(profile, targets[n].typeName);
      LoadedSnoc(profile, targets[..n], targets[n]);
      assert targets == targets[..n] + [targets[n]];
    }
  }

  /** The two flags of the freshness loop, and its number of statement loads. */
  method CheckTargets(store: Statements, profile: Profile, targets: seq<Occurrence>)
    returns (statementsFound: bool, allFresh: bool, loads: nat)
    ensures statementsFound == AnyStatement(store, profile, targets)
    ensures allFresh == EverySlotFresh(store, profile, targets)
    ensures loads == LoadCount(profile, targets)
  {
    statementsFound, allFresh, loads := false, true, 0;
    for k := 0 to |targets|
      invariant statementsFound == AnyStatement(store, profile, targets[..k])
      invariant allFresh == EverySlotFresh(store, profile, targets[..k])
      invariant loads == LoadCount(profile, targets[..k])
    {
      assert targets[..k + 1][..k] == targets[..k];
      var found, current, loaded := CheckTarget(store, profile, targets[k]);
      statementsFound, allFresh, loads := statementsFound || found, allFresh && current, loads + loaded;
    }
    assert targets[..|targets|] == targets;
  }

  method CheckTarget(store: Statements, profile: Profile, o: Occurrence)
    returns (found: bool, current: bool, loaded: nat)
    ensures found == TargetHasStatement(store, profile, o)
    ensures current == TargetFresh(store, profile, o)
    ensures loaded == Loads(profile, o)
  {
    var slots := SlotsOf(profile, o.typeName);
    loaded := if slots == [] then 0 else 1;
    var fingerprint := FingerprintForEntity(profile, o.typeName, o.entity);
    found, current := CheckSlots(store, o, slots, fingerprint);
  }

  method CheckSlots(store: Statements, o: Occurrence, slots: seq<Slot>, fingerprint: string)
    returns (found: bool, current: bool)
    ensures found == HasStatement(store, o, slots)
    ensures current == SlotsFresh(store, o, slots, fingerprint)
  {
    found, current := false, true;
    for j := 0 to |slots|
      invariant found == HasStatement(store, o, slots[..j])
      invariant current == SlotsFresh(store, o, slots[..j], fingerprint)
    {
      assert slots[..j + 1][..j] == slots[..j];
      var nodes := Nodes(store, o, slots[j]);
      if nodes == [] {
        current := false;
        continue;
      }
      found := true;
      if !Fresh(nodes, fingerprint) { current := false; }
    }
    assert slots[..|slots|] == slots;
  }

  method SpliceTargets(doc: Json, store: Statements, profile: Profile, targets: seq<Occurrence>)
    returns (result: Json)
    ensures result == Spliced(doc, store, profile, targets)
  {
    result := doc;
    for k := 0 to |targets|
      invariant result == Spliced(doc, store, profile, targets[..k])
    {
      assert targets[..k + 1][..k] == targets[..k];
      result := Patch(result, targets[k].at, store, targets[k], SlotsOf(profile, targets[k].typeName));
    }
    assert targets[..|targets|] == targets;
  }

  /** The report about a document, after some queries for it. */
  ghost predicate ReportsOn(
      report: Report, store: Statements, profile: Profile, f: Formula, host: Host, doc: Json, queries: nat)
  {
    && report.data == Some(ReadData(store, profile, f, host, doc))
    && report.freshness == Verdict(store, profile, CalcTargets(doc, profile))
    && report.queriesIssued == queries + LoadCount(profile, CalcTargets(doc, profile))
  }

  /**
   * What a report about a root must say, given the row the store returned for it: it is about
   * the deep document if one was asked for and is there, and about the row otherwise.
   */
  ghost predicate Reports(
      report: Report, store: Statements, profile: Profile, f: Formula, host: Host, docs: Documents, depth: nat,
      iri: string, row: Option<Json>)
  {
    && (row.None? ==> report == Report(None, UnknownState, 1))
    && (row.Some? && (depth == 0 || docs.deep.None?) ==> ReportsOn(report, store, profile, f, host, row.value, 1))
    && (row.Some? && depth > 0 && docs.deep.Some? ==>
          && (iri in docs.deep.value ==> ReportsOn(report, store, profile, f, host, docs.deep.value[iri], 2))
          && (iri !in docs.deep.value ==> ReportsOn(report, store, profile, f, host, row.value, 2)))
  }

  /** The verdict on the document read, and its data: spliced when fresh, evaluated otherwise. */
  method ReadDocument(store: Statements, profile: Profile, f: Formula, host: Host, doc: Json)
    returns (data: Json, freshness: Freshness, loads: nat)
    ensures data == ReadData(store, profile, f, host, doc)
    ensures freshness == Verdict(store, profile, CalcTargets(doc, profile))
    ensures loads == LoadCount(profile, CalcTargets(doc, profile))
  {
    var targets := CollectCalcTargets(doc, profile);
    var statementsFound, allFresh, loaded := CheckTargets(store, profile, targets);
    freshness := if !statementsFound then UnknownState else if allFresh then FreshState else StaleState;
    loads := loaded;
    if freshness == FreshState {
      data := SpliceTargets(doc, store, profile, targets);
    } else {
      data := Evaluate(LiveSlots(profile, host), f, doc);
    }
  }

  /**
   * `readCalcValuesForRoot`; it takes the statements by value and so writes nothing. With the
   * listed row the report is about the document a pass reads for the root, and about the row when
   * the store has no document for it.
   */
  method ReadForRoot(
      store: Statements, profile: Profile, f: Formula, host: Host, docs: Documents, depth: nat, iri: string,
      row: Option<Json>)
    returns (report: Report)
    ensures Reports(report, store, profile, f, host, docs, depth, iri, row)
    ensures var root := RootDoc(docs, depth, iri);
      row.Some? && row == RowWithId(docs.rows, iri) ==>
        ReportsOn(report, store, profile, f, host, if root.Some? then root.value else row.value,
                  if depth > 0 && docs.deep.Some? then 2 else 1)
  {
    if row.None? { return Report(None, UnknownState, 1); }
    var queries := 1;
    var doc := row.value;
    if depth > 0 && docs.deep.Some? {
      queries := queries + 1;
      if iri in docs.deep.value { doc := docs.deep.value[iri]; }
    }
    var data, freshness, loads := ReadDocument(store, profile, f, host, doc);
    report := Report(Some(data), freshness, queries + loads);
  }

  ghost predicate ReportedAt(
      reports: seq<Report>, store: Statements, profile: Profile, f: Formula, host: Host, docs: Documents, depth: nat,
      iris: seq<string>, k: nat)
    requires k < |reports| == |iris|
  {
    Reports(reports[k], store, profile, f, host, docs, depth, iris[k], LastRowWithId(docs.rows, iris[k]))
  }

  /** One report per requested root, in request order; the last row of a root counts. */
  ghost predicate AllReported(
      reports: seq<Report>, store: Statements, profile: Profile, f: Formula, host: Host, docs: Documents, depth: nat,
      iris: seq<string>)
  {
    |reports| == |iris| && forall k :: 0 <= k < |iris| ==> ReportedAt(reports, store, profile, f, host, docs, depth, iris, k)
  }

  /** `readCalcValuesMany` */
  method ReadMany(
      store: Statements, profile: Profile, f: Formula, host: Host, docs: Documents, depth: nat, iris: seq<string>)
    returns (reports: seq<Report>)
    ensures AllReported(reports, store, profile, f, host, docs, depth, iris)
  {
    var byIri := RowsById(docs.rows);
    reports := [];
    for k := 0 to |iris|
      invariant AllReported(reports, store, profile, f, host, docs, depth, iris[..k])
    {
      var row := if iris[k] in byIri then Some(byIri[iris[k]]) else None;
      var report := ReadForRoot(store, profile, f, host, docs, depth, iris[k], row);
      ghost var before, done, more := reports, iris[..k], iris[..k + 1];
      reports := reports + [report];
      forall i | 0 <= i <= k ensures ReportedAt(reports, store, profile, f, host, docs, depth, more, i) {
        assert i < k ==> ReportedAt(before, store, profile, f, host, docs, depth, done, i);
      }
    }
    assert iris[..|iris|] == iris;
  }

  method RowsById(rows: seq<Json>) returns (byIri: map<string, Json>)
    ensures forall iri :: LastRowWithId(rows, iri) == if iri in byIri then Some(byIri[iri]) else None
  {
    byIri := map[];
    for k := 0 to |rows|
      invariant forall iri :: LastRowWithId(rows[..k], iri) == if iri in byIri then Some(byIri[iri]) else None
    {
      assert rows[..k + 1][..k] == rows[..k];
      if EntityId(rows[k]).Some? {
        byIri := byIri[EntityId(rows[k]).value := rows[k]];
      }
    }
    assert rows[..|rows|] == rows;
  }

  /** The row of a root is the last one with its id. */
  lemma {:induction false} LastRowIsLast(rows: seq<Json>, iri: string)
    ensures LastRowWithId(rows, iri).None? <==> forall row :: row in rows ==> EntityId(row) != Some(iri)
    ensures LastRowWithId(rows, iri).Some? ==>
      exists k :: 0 <= k < |rows| && LastRowWithId(rows, iri) == Some(rows[k]) && EntityId(rows[k]) == Some(iri)
                  && forall j :: k < j < |rows| ==> EntityId(rows[j]) != Some(iri)
  {
    if rows != [] {
      var n := |rows| - 1;
      LastRowIsLast(rows[..n], iri);
      assert rows == rows[..n] + [rows[n]];
      if EntityId(rows[n]) != Some(iri) && LastRowWithId(rows[..n], iri).Some? {
        var k :| 0 <= k < n && LastRowWithId(rows[..n], iri) == Some(rows[..n][k]) && EntityId(rows[..n][k]) == Some(iri)
                 && forall j :: k < j < n ==> EntityId(rows[..n][j]) != Some(iri);
        assert rows[k] == rows[..n][k] && forall j :: k < j < n ==> rows[j] == rows[..n][j];
      }
    }
  }

  function LastRowWithId(rows: seq<Json>, iri: string): Option<Json>
  {
    if rows == [] then None
    else
      var n := |rows| - 1;
      if EntityId(rows[n]) == Some(iri) then Some(rows[n]) else LastRowWithId(rows[..n], iri)
  }
}
