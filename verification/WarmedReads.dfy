/**
 * Closing the loop: a pass asserts its values on the documents, the store returns those
 * documents, and a read of them is fresh (packages/calc-engine/src/warm.ts:349-387,
 * packages/statement-meta/src/index.ts:466-488, packages/calc-engine/src/readCalcValues.ts:185-224).
 */
module WarmedReads {
  import opened Strings
  import opened Json
  import opened Canonical
  import opened Profiles
  import opened Fingerprints
  import opened Shapes
  import opened Targets
  import opened Views
  import opened Evaluator
  import opened Roots
  import opened Statements
  import opened DualAssertion
  import opened Warm
  import opened ReadCalcValues
  import opened Addresses
  import opened Inputs
  import opened Coherence
  import opened WarmThenRead
  import opened FreshReads

  // ----- one batch of writes on a record -----

  function LastFor(writes: seq<Write>, path: string): Option<Json>
  {
    if writes == [] then None
    else if writes[|writes| - 1].path == path then Some(writes[|writes| - 1].statement.value)
    else LastFor(writes[..|writes| - 1], path)
  }

  lemma {:induction false} AssertedLookup(fields: seq<Field>, writes: seq<Write>, path: string)
    requires !IsSidecar(path)
    ensures Lookup(Asserted(fields, writes), path) ==
            if LastFor(writes, path).Some? then LastFor(writes, path).value else Lookup(fields, path)
  {
    if writes != [] {
      var n := |writes| - 1;
      var before, w := Asserted(fields, writes[..n]), writes[n];
      AssertedLookup(fields, writes[..n], path);
      SidecarIsSidecar(w.path);
      var stated := SetField(before, w.path, w.statement.value);
      SetFieldLookup(before, w.path, w.statement.value, path);
      SetFieldLookup(stated, SidecarOf(w.path), Annotated(Lookup(stated, SidecarOf(w.path)), w), path);
    }
  }

  lemma {:induction false} RecordedLast(nodes: PathStatements, writes: seq<Write>, path: string)
    ensures LastFor(writes, path).Some? <==> path in PathsOf(writes)
    ensures LastFor(writes, path).Some? ==>
      var after := Record(nodes, writes);
      path in after && after[path] != [] && after[path][|after[path]| - 1].value == LastFor(writes, path).value
  {
    if writes != [] {
      var n := |writes| - 1;
      RecordedLast(nodes, writes[..n], path);
      assert writes == writes[..n] + [writes[n]];
      assert PathsOf(writes) == PathsOf(writes[..n]) + {writes[n].path};
    }
  }

  /** Every field of a record that carries writes is one it had, or holds no records. */
  lemma {:induction false} AssertedMember(
      slots: seq<Slot>, typeName: Option<string>, fields: seq<Field>, writes: seq<Write>, i: nat)
    requires TidyList(slots, typeName, fields) && i < |Asserted(fields, writes)|
    ensures Inert(Asserted(fields, writes)[i].value) || (i < |fields| && Asserted(fields, writes)[i] == fields[i])
  {
    if writes != [] {
      var n := |writes| - 1;
      var before, w := Asserted(fields, writes[..n]), writes[n];
      var stated, sidecar := SetField(before, w.path, w.statement.value), SidecarOf(w.path);
      AssertedTidy(slots, typeName, fields, writes[..n]);
      SidecarIsSidecar(w.path);
      FlatIsInert(w.statement.value);
      FlatIsTidy(slots, w.statement.value);
      TidySet(slots, typeName, before, w.path, w.statement.value);
      TidySidecar(slots, typeName, stated, sidecar);
      AnnotatedInert(Lookup(stated, sidecar), w);
      SetFieldEntry(stated, sidecar, Annotated(Lookup(stated, sidecar), w), i);
      if i < |stated| { SetFieldEntry(before, w.path, w.statement.value, i); }
      if i < |before| { AssertedMember(slots, typeName, fields, writes[..n], i); }
    }
  }

  // ----- documents agree with statements -----

  /** Where a statement was written for the record's entity and slot, the record has its value. */
  ghost predicate AgreesOne(slot: Slot, store: Statements, done: seq<Job>, v: Json)
  {
    Matches(slot, v) && EntityId(v).Some? ==>
      var key := Key(EntityType(v).value, EntityId(v).value);
      Plans(done, key, slot.propertyName) ==>
        Recorded(store, key, slot.propertyName)
        && Lookup(v.fields, slot.propertyName) == CurrentNode(store, key, slot.propertyName).value
  }

  ghost predicate Agrees(slot: Slot, store: Statements, done: seq<Job>, v: Json)
  {
    AgreesOne(slot, store, done, v) && forall i :: 0 <= i < |Children(v)| ==> Agrees(slot, store, done, Children(v)[i])
  }

  lemma {:induction false} InertAgrees(slot: Slot, store: Statements, done: seq<Job>, v: Json)
    requires Inert(v)
    ensures Agrees(slot, store, done, v)
    decreases v
  {
    forall i | 0 <= i < |Children(v)| ensures Agrees(slot, store, done, Children(v)[i]) {
      InertAgrees(slot, store, done, Children(v)[i]);
    }
  }

  lemma {:induction false} NothingDoneAgrees(slot: Slot, store: Statements, v: Json)
    ensures Agrees(slot, store, [], v)
    decreases v
  {
    forall i | 0 <= i < |Children(v)| ensures Agrees(slot, store, [], Children(v)[i]) {
      NothingDoneAgrees(slot, store, Children(v)[i]);
    }
  }

  lemma {:induction false} AgreesAt(slot: Slot, store: Statements, done: seq<Job>, v: Json, at: seq<nat>, o: Occurrence)
    requires Agrees(slot, store, done, v) && o in Entities(v, at)
    ensures AgreesOne(slot, store, done, o.entity)
    decreases v
  {
    if o !in Own(v, at) {
      var i := ConcatMember(Below(v, at), o);
      AgreesAt(slot, store, done, Children(v)[i], at + [i], o);
    }
  }

  lemma PlansSnoc(done: seq<Job>, job: Job, key: Key, path: string)
    ensures Plans(done + [job], key, path) <==> Plans(done, key, path) || (job.key == key && path in PathsOf(job.writes))
  {
    if j :| j in done + [job] && j.key == key && path in PathsOf(j.writes) { assert j in done || j == job; }
    if j :| j in done && j.key == key && path in PathsOf(j.writes) { assert j in done + [job]; }
    assert job in done + [job];
  }

  /** A scalar field of a record after a write. */
  lemma WrittenField(slots: seq<Slot>, v: Json, job: Job, name: string)
    requires v.Obj? && !IsSidecar(name)
    ensures var r := WriteAs(v, EntityType(v), job.key, job.writes);
      var own := EntityType(v) == Some(job.key.typeName) && EntityId(v) == Some(job.key.iri);
      && r.Obj?
      && (own && LastFor(job.writes, name).Some? ==> Lookup(r.fields, name) == LastFor(job.writes, name).value)
      && (!(own && LastFor(job.writes, name).Some?) && IsFlat(Lookup(v.fields, name)) ==>
            Lookup(r.fields, name) == Lookup(v.fields, name))
  {
    assert v == Obj(v.fields);
    BelowLookup(v.fields, job.key, job.writes, name);
    AssertedLookup(WrittenBelow(v, job.key, job.writes), job.writes, name);
  }

  /** The current value of an entity's path after a write. */
  lemma CurrentAfter(store: Statements, job: Job, key: Key, path: string)
    requires job.writes != []
    ensures var after := Stored(store, job.key, job.writes);
      && (job.key == key && LastFor(job.writes, path).Some? ==>
            Recorded(after, key, path) && CurrentNode(after, key, path).value == LastFor(job.writes, path).value)
      && (!(job.key == key && LastFor(job.writes, path).Some?) && Recorded(store, key, path) ==>
            Recorded(after, key, path) && CurrentNode(after, key, path) == CurrentNode(store, key, path))
  {
    var nodes := if job.key in store then store[job.key] else map[];
    RecordedLast(nodes, job.writes, path);
    RecordPath(nodes, job.writes, path);
  }

  /** A written record agrees with the statements after the write. */
  lemma {:induction false} WrittenAgreesOne(
      slots: seq<Slot>, slot: Slot, store: Statements, done: seq<Job>, job: Job, v: Json)
    requires DataNames(slots) && slot in slots && WritesOutputs(slots, job.key.typeName, job.writes) && job.writes != []
    requires v.Obj? && AgreesOne(slot, store, done, v)
    ensures AgreesOne(slot, Stored(store, job.key, job.writes), done + [job], WriteAs(v, EntityType(v), job.key, job.writes))
  {
    WrittenIdentity(slots, v, EntityType(v), job.key, job.writes);
    if Matches(slot, v) && EntityId(v).Some? {
      var key, name := Key(EntityType(v).value, EntityId(v).value), slot.propertyName;
      var i :| 0 <= i < |slots| && slots[i] == slot;
      PlansSnoc(done, job, key, name);
      WrittenField(slots, v, job, name);
      CurrentAfter(store, job, key, name);
      RecordedLast(map[], job.writes, name);
    }
  }

  lemma {:induction false} WrittenAgrees(
      slots: seq<Slot>, slot: Slot, store: Statements, done: seq<Job>, job: Job, v: Json)
    requires DataNames(slots) && slot in slots && WritesOutputs(slots, job.key.typeName, job.writes) && job.writes != []
    requires Agrees(slot, store, done, v) && Tidy(slots, v) && WellFormed(v)
    ensures Agrees(slot, Stored(store, job.key, job.writes), done + [job], WriteAs(v, EntityType(v), job.key, job.writes))
    decreases v
  {
    var r, after, all := WriteAs(v, EntityType(v), job.key, job.writes), Stored(store, job.key, job.writes), done + [job];
    if v.Obj? {
      WrittenAgreesOne(slots, slot, store, done, job, v);
      var below := WrittenBelow(v, job.key, job.writes);
      assert v == Obj(v.fields);
      TidyRecord(slots, v.fields);
      BelowTidy(slots, v, job);
      forall i | 0 <= i < |Children(r)| ensures Agrees(slot, after, all, Children(r)[i]) {
        if r.fields != below { AssertedMember(slots, EntityType(v), below, job.writes, i); }
        if i < |below| && r.fields[i] == below[i] {
          ChildTidy(slots, v, i);
          assert Children(v)[i] == v.fields[i].value && v.fields[i] < v;
          WrittenAgrees(slots, slot, store, done, job, v.fields[i].value);
        } else {
          InertAgrees(slot, after, all, r.fields[i].value);
        }
      }
    } else if v.Arr? {
      forall i | 0 <= i < |Children(r)| ensures Agrees(slot, after, all, Children(r)[i]) {
        ChildTidy(slots, v, i);
        assert Children(v)[i] == v.items[i];
        WrittenAgrees(slots, slot, store, done, job, v.items[i]);
      }
    }
  }

  lemma BelowTidy(slots: seq<Slot>, v: Json, job: Job)
    requires v.Obj? && Tidy(slots, v) && WellFormed(v) && DataNames(slots)
    requires WritesOutputs(slots, job.key.typeName, job.writes)
    ensures TidyList(slots, EntityType(v), WrittenBelow(v, job.key, job.writes))
  {
    var below := WrittenBelow(v, job.key, job.writes);
    forall i | 0 <= i < |below|
      ensures Tidy(slots, below[i].value)
      ensures Dropped(slots, EntityType(v), below[i].key) ==> Inert(below[i].value)
    {
      ChildTidy(slots, v, i);
      assert Children(v)[i] == v.fields[i].value;
      WriteTidy(slots, v.fields[i].value, job.key, job.writes);
      if Dropped(slots, EntityType(v), below[i].key) { InertUnwritten(v.fields[i].value, job.key, job.writes); }
    }
  }

  // ----- a whole pass over a root document -----

  function WrittenOnce(doc: Json, rootType: string, job: Job): Json
  {
    if job.writes == [] then doc else WriteDoc(doc, rootType, job.key, job.writes)
  }

  /** The document after all writes of a pass that skips nothing. */
  function WrittenAll(doc: Json, rootType: string, jobs: seq<Job>): Json
  {
    if jobs == [] then doc else WrittenOnce(WrittenAll(doc, rootType, jobs[..|jobs| - 1]), rootType, jobs[|jobs| - 1])
  }

  /** A document that names its type: reads do not stamp one. */
  predicate Typed(doc: Json)
  {
    doc.Obj? && Lookup(doc.fields, "@type").Str? && Lookup(doc.fields, "@type").s != ""
  }

  lemma {:induction false} WrittenAllKeeps(profile: Profile, rootType: string, doc: Json, jobs: seq<Job>)
    requires GoodDoc(ByStratum(profile), rootType, doc) && Typed(doc) && DataNames(ByStratum(profile))
    requires forall j :: j in jobs ==> WellMade(profile, j)
    ensures var after := WrittenAll(doc, rootType, jobs);
      && GoodDoc(ByStratum(profile), rootType, after) && Typed(after) && SameView(ByStratum(profile), [], after, doc)
  {
    if jobs != [] {
      var n := |jobs| - 1;
      var job, before := jobs[n], WrittenAll(doc, rootType, jobs[..n]);
      WrittenAllKeeps(profile, rootType, doc, jobs[..n]);
      assert job in jobs;
      WriteDocKeeps(ByStratum(profile), rootType, before, job.key, job.writes);
      WrittenIdentity(ByStratum(profile), before, EntityType(before), job.key, job.writes);
    }
  }

  lemma {:induction false} WrittenAllAgrees(
      profile: Profile, rootType: string, doc: Json, store: Statements, jobs: seq<Job>, slot: Slot)
    requires GoodDoc(ByStratum(profile), rootType, doc) && Typed(doc) && DataNames(ByStratum(profile)) && slot in profile
    requires forall j :: j in jobs ==> WellMade(profile, j)
    ensures Agrees(slot, RunJobs(store, jobs, false).store, jobs, WrittenAll(doc, rootType, jobs))
  {
    var slots := ByStratum(profile);
    if jobs == [] {
      NothingDoneAgrees(slot, store, doc);
    } else {
      var n := |jobs| - 1;
      var job, before := jobs[n], WrittenAll(doc, rootType, jobs[..n]);
      WrittenAllAgrees(profile, rootType, doc, store, jobs[..n], slot);
      WrittenAllKeeps(profile, rootType, doc, jobs[..n]);
      assert jobs == jobs[..n] + [job] && job in jobs;
      SameMembers(slots, profile);
      var stated := RunJobs(store, jobs[..n], false).store;
      if job.writes == [] {
        SilentJobAgrees(slot, stated, jobs[..n], job, before);
      } else {
        TypedIsTidy(slots, rootType, before);
        WrittenAgrees(slots, slot, stated, jobs[..n], job, before);
      }
    }
  }

  lemma {:induction false} SilentJobAgrees(slot: Slot, store: Statements, done: seq<Job>, job: Job, v: Json)
    requires Agrees(slot, store, done, v) && job.writes == []
    ensures Agrees(slot, store, done + [job], v)
    decreases v
  {
    if Matches(slot, v) && EntityId(v).Some? {
      PlansSnoc(done, job, Key(EntityType(v).value, EntityId(v).value), slot.propertyName);
    }
    forall i | 0 <= i < |Children(v)| ensures Agrees(slot, store, done + [job], Children(v)[i]) {
      SilentJobAgrees(slot, store, done, job, Children(v)[i]);
    }
  }

  /** It is what the store returns for the root after the pass. */
  lemma {:induction false} RootDocAfter(
      profile: Profile, rootType: string, docs: Documents, depth: nat, root: string, store: Statements, jobs: seq<Job>)
    requires GoodDocuments(ByStratum(profile), rootType, docs) && DataNames(ByStratum(profile))
    requires RootDoc(docs, depth, root).Some? && forall j :: j in jobs ==> WellMade(profile, j)
    ensures var after := DocsAfter(docs, rootType, store, jobs, false);
      && GoodDocuments(ByStratum(profile), rootType, after)
      && RootDoc(after, depth, root) == Some(WrittenAll(RootDoc(docs, depth, root).value, rootType, jobs))
  {
    if jobs != [] {
      var n := |jobs| - 1;
      var job, before := jobs[n], DocsAfter(docs, rootType, store, jobs[..n], false);
      RootDocAfter(profile, rootType, docs, depth, root, store, jobs[..n]);
      assert job in jobs;
      assert RootDoc(before, depth, root).Some?;
      WriteBackKeeps(ByStratum(profile), rootType, before, job.key, job.writes);
      WrittenRootDoc(ByStratum(profile), rootType, before, depth, root, job.key, job.writes);
    }
  }

  // ----- the document shows what was evaluated -----

  /** A pass over evaluated roots of which one is read back; every slot of its targets gave a scalar. */
  ghost predicate FullPass(profile: Profile, f: Formula, raw: seq<Json>, d: nat, rootType: string)
  {
    && d < |raw| && Stratified(ByStratum(profile), f) && CleanProfile(profile)
    && UniquePaths(profile) && PathsAreNames(profile)
    && CopiesAgree(profile, EvaluatedAll(profile, f, raw))
    && GoodDoc(ByStratum(profile), rootType, raw[d]) && Typed(raw[d])
    && AllScalar(profile, Evaluate(profile, f, raw[d])) && OwnersAreTargets(profile, Evaluate(profile, f, raw[d]))
  }

  lemma TypedIsTidy(slots: seq<Slot>, rootType: string, doc: Json)
    requires GoodDoc(slots, rootType, doc) && Typed(doc)
    ensures Tidy(slots, doc) && WellFormed(doc) && StampType(doc, rootType) == doc
  {
    StampedIsTidy(slots, rootType, doc);
  }

  /** The owner of a slot among the evaluated entities is a target whose write is current after the pass. */
  lemma {:induction false} OwnerIsRecorded(
      profile: Profile, f: Formula, raw: seq<Json>, d: nat, rootType: string, store: Statements, p: Occurrence, slot: Slot)
    requires FullPass(profile, f, raw, d, rootType) && slot in profile
    requires p in Entities(Evaluate(profile, f, raw[d]), []) && Owns(slot, p.typeName)
    ensures var jobs := JobsOfDocs(profile, EvaluatedAll(profile, f, raw));
      var nodes := Nodes(RunJobs(store, jobs, false).store, p, slot);
      && Plans(jobs, Key(p.typeName, p.iri), slot.propertyName)
      && p.entity.Obj? && nodes != [] && nodes[|nodes| - 1].value == Lookup(p.entity.fields, slot.propertyName)
  {
    var docs, e := EvaluatedAll(profile, f, raw), Evaluate(profile, f, raw[d]);
    SlotsOfMember(profile, p.typeName, slot);
    assert p in CalcTargets(e, profile);
    OutputIsData(profile, f, slot);
    JobIsThere(profile, docs, d, p);
    SlotIsPlanned(profile, e, p, slot);
    PassStoresValues(profile, docs, store, d, p, slot);
  }

  lemma {:induction false} EvaluatedRootCarries(
      profile: Profile, f: Formula, raw: seq<Json>, d: nat, rootType: string, store: Statements, e: Json, slot: Slot)
    requires FullPass(profile, f, raw, d, rootType) && slot in profile && e == Evaluate(profile, f, raw[d])
    ensures Carries(slot, RunJobs(store, JobsOfDocs(profile, EvaluatedAll(profile, f, raw)), false).store, e)
  {
    var slots, after := ByStratum(profile), RunJobs(store, JobsOfDocs(profile, EvaluatedAll(profile, f, raw)), false).store;
    TypedIsTidy(slots, rootType, raw[d]);
    SameMembers(slots, profile);
    SlotsTidy(slots, slots, f, raw[d]);
    forall p | p in Entities(e, []) ensures CarriesOne(slot, after, p.entity) {
      EntitiesAt(e, [], p);
      if Matches(slot, p.entity) {
        OwnerIsRecorded(profile, f, raw, d, rootType, store, p, slot);
        CarriesCurrent(after, slot, p, p.entity);
      }
    }
    CarriesEverywhere(slots, slot, after, e, []);
  }

  /** Entities of two trees of one view correspond, position by position. */
  lemma SameEntityKeys(slots: seq<Slot>, v: Json, w: Json, k: nat)
    requires SameView(slots, [], v, w) && Tidy(slots, v) && Tidy(slots, w) && DataNames(slots)
    ensures |Entities(v, [])| == |Entities(w, [])|
    ensures k < |Entities(v, [])| ==>
      Entities(v, [])[k].typeName == Entities(w, [])[k].typeName && Entities(v, [])[k].iri == Entities(w, [])[k].iri
  {
    EntitiesSeen(slots, [], v, []);
    EntitiesSeen(slots, [], w, []);
    var a, b := SeenOf(slots, [], Entities(v, [])), SeenOf(slots, [], Entities(w, []));
    assert k < |a| ==> a[k] == b[k];
  }

  /** Where a statement was planned for the record, agreement is all it takes. */
  lemma PlannedCarries(slot: Slot, after: Statements, jobs: seq<Job>, o: Occurrence)
    requires EntityType(o.entity) == Some(o.typeName) && EntityId(o.entity) == Some(o.iri)
    requires AgreesOne(slot, after, jobs, o.entity)
    requires Matches(slot, o.entity) ==> Plans(jobs, Key(o.typeName, o.iri), slot.propertyName)
    ensures CarriesOne(slot, after, o.entity)
  {
    if Matches(slot, o.entity) {
      assert Nodes(after, o, slot) != [];
      CarriesCurrent(after, slot, o, o.entity);
    }
  }

  lemma {:induction false} OwnerIsPlanned(
      profile: Profile, f: Formula, raw: seq<Json>, d: nat, rootType: string, e: Json, slot: Slot, k: nat)
    requires FullPass(profile, f, raw, d, rootType) && slot in profile && e == Evaluate(profile, f, raw[d])
    requires k < |Entities(e, [])| && Owns(slot, Entities(e, [])[k].typeName)
    ensures var p := Entities(e, [])[k];
      Plans(JobsOfDocs(profile, EvaluatedAll(profile, f, raw)), Key(p.typeName, p.iri), slot.propertyName)
  {
    assert Entities(e, [])[k] in Entities(e, []);
    OwnerIsRecorded(profile, f, raw, d, rootType, map[], Entities(e, [])[k], slot);
  }

  lemma {:induction false} WrittenRootCarries(
      profile: Profile, f: Formula, raw: seq<Json>, d: nat, rootType: string, store: Statements, e: Json, doc: Json,
      jobs: seq<Job>, slot: Slot)
    requires FullPass(profile, f, raw, d, rootType) && slot in profile && e == Evaluate(profile, f, raw[d])
    requires jobs == JobsOfDocs(profile, EvaluatedAll(profile, f, raw))
    requires Tidy(ByStratum(profile), doc) && Tidy(ByStratum(profile), e) && SameView(ByStratum(profile), [], doc, e)
    requires Agrees(slot, RunJobs(store, jobs, false).store, jobs, doc)
    requires OwnersNamed(ByStratum(profile), ViewOf(ByStratum(profile), [], doc))
    ensures Carries(slot, RunJobs(store, jobs, false).store, doc)
  {
    var slots, after := ByStratum(profile), RunJobs(store, jobs, false).store;
    assert slot in slots && DataNames(slots) by { SameMembers(slots, profile); }
    forall o | o in Entities(doc, []) ensures CarriesOne(slot, after, o.entity) {
      var k :| 0 <= k < |Entities(doc, [])| && Entities(doc, [])[k] == o;
      SameEntityKeys(slots, doc, e, k);
      EntitiesAt(doc, [], o);
      AgreesAt(slot, after, jobs, doc, [], o);
      if Matches(slot, o.entity) { OwnerIsPlanned(profile, f, raw, d, rootType, e, slot, k); }
      PlannedCarries(slot, after, jobs, o);
    }
    CarriesEverywhere(slots, slot, after, doc, []);
  }

  /**
   * After a pass that skips nothing, the root's document in the store shows what evaluating it
   * gave: dual assertion makes every computed property current.
   */
  lemma {:induction false} WrittenShowsEvaluation(
      profile: Profile, f: Formula, raw: seq<Json>, d: nat, rootType: string, store: Statements, doc: Json)
    requires FullPass(profile, f, raw, d, rootType)
    requires doc == WrittenAll(raw[d], rootType, JobsOfDocs(profile, EvaluatedAll(profile, f, raw)))
    ensures GoodDoc(ByStratum(profile), rootType, doc) && Typed(doc) && SameInputs(profile, raw[d], doc)
    ensures SameView(ByStratum(profile), ByStratum(profile), doc, Evaluate(profile, f, raw[d]))
  {
    var slots, e, jobs := ByStratum(profile), Evaluate(profile, f, raw[d]), JobsOfDocs(profile, EvaluatedAll(profile, f, raw));
    var after := RunJobs(store, jobs, false).store;
    JobsAreWellMade(profile, EvaluatedAll(profile, f, raw));
    WrittenAllKeeps(profile, rootType, raw[d], jobs);
    TypedIsTidy(slots, rootType, raw[d]);
    TypedIsTidy(slots, rootType, doc);
    EvaluateUnseen(slots, f, |slots|, raw[d]);
    assert slots[..|slots|] == slots;
    SlotsTidy(slots, slots, f, raw[d]);
    SameMembers(slots, profile);
    forall s | s in slots ensures Carries(s, after, doc) && Carries(s, after, e) {
      WrittenAllAgrees(profile, rootType, raw[d], store, jobs, s);
      WrittenRootCarries(profile, f, raw, d, rootType, store, e, doc, jobs, s);
      EvaluatedRootCarries(profile, f, raw, d, rootType, store, e, s);
    }
    CarryingView(slots, after, doc, e);
  }

  // ----- so the next read is fresh -----

  /** In a document that shows its own evaluation every computed property is current. */
  lemma {:induction false} ShownIsCurrent(profile: Profile, f: Formula, e: Json, doc: Json, raw: Json)
    requires Stratified(ByStratum(profile), f) && CleanProfile(profile) && e == Evaluate(profile, f, raw)
    requires SameView(ByStratum(profile), ByStratum(profile), doc, e) && Tidy(ByStratum(profile), doc)
    ensures InputsCurrent(profile, f, doc, [])
  {
    var slots := ByStratum(profile);
    SameMembers(slots, profile);
    EvaluateSolves(slots, f, raw);
    forall s | s in profile ensures Solves(s, f, doc) && ReadsShown(f, [], [], s) {
      var i :| 0 <= i < |slots| && slots[i] == s;
      ReadsMore(slots, f, i);
      SolvesView(slots, slots, s, f, e, doc);
    }
    forall t, s | s in SourcesOf(SlotsOf(profile, t)) ensures ShownPath([], [], s.path) {
      assert NamesData(s.path);
      forall i | 0 <= i < |s.path| ensures ShownName([], [], s.path[i]) { }
    }
    AllOpen([], doc);
  }

  /** A slot reads nothing but fields that show when all outputs are known, or when nothing is left out. */
  lemma ReadsMore(slots: seq<Slot>, f: Formula, i: nat)
    requires Stratified(slots, f) && i < |slots|
    ensures ReadsShown(f, slots, slots, slots[i]) && ReadsShown(f, [], [], slots[i])
    ensures Visibly(slots, slots, slots[i].owner, slots[i].propertyName)
  {
    var known := slots[..i];
    forall s | s in known ensures Visibly(slots, slots, s.owner, s.propertyName) && Visibly([], [], s.owner, s.propertyName) {
      var k :| 0 <= k < i && known[k] == s;
      assert slots[k] == s;
    }
    forall v, w | SameView(slots, slots, v, w) ensures f(slots[i], v) == f(slots[i], w) {
      CoarserView(slots, slots, slots, known, v, w);
    }
    forall v, w | SameView([], [], v, w) ensures f(slots[i], v) == f(slots[i], w) {
      CoarserView([], [], slots, known, v, w);
    }
  }

  /**
   * Warm, then read, with nothing assumed about the documents in between: a pass that skips
   * nothing leaves the root's document in the store showing its own evaluation, and the read
   * of that document is fresh.
   */
  lemma {:induction false} WarmedRootReadsFresh(
      profile: Profile, f: Formula, raw: seq<Json>, d: nat, rootType: string, store: Statements, doc: Json)
    requires FullPass(profile, f, raw, d, rootType)
    requires doc == WrittenAll(raw[d], rootType, JobsOfDocs(profile, EvaluatedAll(profile, f, raw)))
    requires exists o :: o in CalcTargets(doc, profile) && SlotsOf(profile, o.typeName) != []
    ensures SameView(ByStratum(profile), ByStratum(profile), doc, Evaluate(profile, f, raw[d]))
    ensures Verdict(RunJobs(store, JobsOfDocs(profile, EvaluatedAll(profile, f, raw)), false).store, profile,
                    CalcTargets(doc, profile)) == FreshState
  {
    WrittenShowsEvaluation(profile, f, raw, d, rootType, store, doc);
    TypedIsTidy(ByStratum(profile), rootType, doc);
    ShownIsCurrent(profile, f, Evaluate(profile, f, raw[d]), doc, raw[d]);
    WarmThenReadIsFresh(profile, f, raw, store, d, doc, []);
  }

  /** The stamped documents of a pass. */
  function StampedDocs(rootType: string, docs: seq<Json>): (r: seq<Json>)
    ensures |r| == |docs|
  {
    seq(|docs|, i requires 0 <= i < |docs| => StampType(docs[i], rootType))
  }

  lemma PassOfStamped(
      profile: Profile, f: Formula, host: Host, rootType: string, docs: Documents, depth: nat, rootIRIs: seq<string>)
    requires forall s :: s in profile ==> LiveOn(s, host)
    ensures PassJobs(profile, f, host, rootType, docs, depth, rootIRIs)
         == JobsOfDocs(profile, EvaluatedAll(profile, f, StampedDocs(rootType, RawDocs(docs, rootIRIs, depth))))
  {
    AllSlotsLive(profile, host);
    var raw := RawDocs(docs, rootIRIs, depth);
    assert EvaluateDocs(profile, f, host, rootType, raw) == EvaluatedAll(profile, f, StampedDocs(rootType, raw));
  }

  /**
   * The same for a store: warm some roots on a host that evaluates every slot, then read one
   * of them from the documents the store has then.
   */
  lemma {:induction false} WarmedStoreReadsFresh(
      profile: Profile, f: Formula, host: Host, rootType: string, docs: Documents, depth: nat, rootIRIs: seq<string>,
      store: Statements, root: string, d: nat, jobs: seq<Job>, doc: Json)
    requires Regular(profile, f, host) && GoodDocuments(ByStratum(profile), rootType, docs)
    requires jobs == PassJobs(profile, f, host, rootType, docs, depth, rootIRIs)
    requires var raw := RawDocs(docs, rootIRIs, depth);
      && d < |raw| && RootDoc(docs, depth, root) == Some(raw[d]) && Typed(raw[d])
      && FullPass(profile, f, StampedDocs(rootType, raw), d, rootType)
    requires RootDoc(DocsAfter(docs, rootType, store, jobs, false), depth, root) == Some(doc)
    requires exists o :: o in CalcTargets(doc, profile) && SlotsOf(profile, o.typeName) != []
    ensures Verdict(RunJobs(store, jobs, false).store, profile, CalcTargets(doc, profile)) == FreshState
  {
    var stamped := StampedDocs(rootType, RawDocs(docs, rootIRIs, depth));
    assert stamped[d] == RawDocs(docs, rootIRIs, depth)[d];
    PassOfStamped(profile, f, host, rootType, docs, depth, rootIRIs);
    assert doc == WrittenAll(stamped[d], rootType, jobs) by {
      JobsAreWellMade(profile, EvaluatedAll(profile, f, stamped));
      RootDocAfter(profile, rootType, docs, depth, root, store, jobs);
    }
    WarmedRootReadsFresh(profile, f, stamped, d, rootType, store, doc);
  }
}
