/** What a read finds after a pass: the values the pass wrote, at the records it wrote them for. */
module WarmThenRead {
  import opened Strings
  import opened Json
  import opened Canonical
  import opened Profiles
  import opened Fingerprints
  import opened Shapes
  import opened Targets
  import opened Views
  import opened Evaluator
  import opened Statements
  import opened Warm
  import opened ReadCalcValues
  import opened Inputs
  import opened Coherence

  // ----- splicing puts each value on its record and leaves the rest -----

  lemma {:induction false} SetFieldKeepsRecords(fields: seq<Field>, key: string, value: Json, i: nat)
    requires i < |fields| && !IsFlat(fields[i].value) && IsFlat(Lookup(fields, key))
    ensures i < |SetField(fields, key, value)| && SetField(fields, key, value)[i] == fields[i]
  {
    if fields[0].key != key && i > 0 {
      SetFieldKeepsRecords(fields[1..], key, value, i - 1);
    }
  }

  ghost predicate FlatOutputs(fields: seq<Field>, slots: seq<Slot>)
  {
    forall i :: 0 <= i < |slots| ==> IsFlat(Lookup(fields, slots[i].propertyName))
  }

  function NamesOf(slots: seq<Slot>): set<string>
  {
    set s | s in slots :: s.propertyName
  }

  /** What a property holds once the recorded values are set: the current statement wins. */
  function Overlaid(store: Statements, o: Occurrence, slots: seq<Slot>, key: string, otherwise: Json): Json
  {
    var nodes := NodesAt(store, o, key);
    if key in NamesOf(slots) && nodes != [] then nodes[|nodes| - 1].value else otherwise
  }

  lemma {:induction false} NamesSnoc(slots: seq<Slot>, slot: Slot)
    ensures NamesOf(slots + [slot]) == NamesOf(slots) + {slot.propertyName}
  {
    assert forall s :: s in slots + [slot] <==> s in slots || s == slot;
  }

  lemma {:induction false} SetAllLookup(fields: seq<Field>, store: Statements, o: Occurrence, slots: seq<Slot>, key: string)
    ensures Lookup(SetAll(fields, store, o, slots), key) == Overlaid(store, o, slots, key, Lookup(fields, key))
  {
    if slots != [] {
      var n := |slots| - 1;
      SetAllLookup(fields, store, o, slots[..n], key);
      assert slots == slots[..n] + [slots[n]];
      NamesSnoc(slots[..n], slots[n]);
      var nodes := Nodes(store, o, slots[n]);
      if nodes != [] {
        SetFieldLookup(SetAll(fields, store, o, slots[..n]), slots[n].propertyName, nodes[|nodes| - 1].value, key);
      }
    }
  }

  lemma {:induction false} SetAllKeepsRecords(
      fields: seq<Field>, store: Statements, o: Occurrence, slots: seq<Slot>, i: nat)
    requires i < |fields| && !IsFlat(fields[i].value) && FlatOutputs(fields, slots)
    ensures i < |SetAll(fields, store, o, slots)| && SetAll(fields, store, o, slots)[i] == fields[i]
  {
    if slots != [] {
      var n := |slots| - 1;
      SetAllKeepsRecords(fields, store, o, slots[..n], i);
      SetAllLookup(fields, store, o, slots[..n], slots[n].propertyName);
      var before := SetAll(fields, store, o, slots[..n]);
      var nodes := Nodes(store, o, slots[n]);
      if nodes != [] {
        SetFieldKeepsRecords(before, slots[n].propertyName, nodes[|nodes| - 1].value, i);
      }
    }
  }

  lemma {:induction false} PatchOwn(v: Json, at: seq<nat>, store: Statements, o: Occurrence, slots: seq<Slot>)
    requires NodeAt(v, at).Obj?
    ensures NodeAt(Patch(v, at, store, o, slots), at) == Obj(SetAll(NodeAt(v, at).fields, store, o, slots))
    decreases |at|
  {
    if at != [] {
      PatchOwn(Children(v)[at[0]], at[1..], store, o, slots);
    }
  }

  lemma FlatUnpatched(v: Json, at: seq<nat>, store: Statements, o: Occurrence, slots: seq<Slot>)
    requires IsFlat(v)
    ensures Patch(v, at, store, o, slots) == v
  {
  }

  lemma {:induction false} ReplacedLookup(fields: seq<Field>, i: nat, child: Json, key: string)
    requires i < |fields| && IsFlat(Lookup(fields, key)) && (IsFlat(fields[i].value) ==> child == fields[i].value)
    ensures Lookup(fields[i := Field(fields[i].key, child)], key) == Lookup(fields, key)
  {
    var after := fields[i := Field(fields[i].key, child)];
    if i == 0 {
      assert after[1..] == fields[1..];
    } else {
      assert after[1..] == fields[1..][i - 1 := Field(fields[i].key, child)];
      if fields[0].key != key {
        ReplacedLookup(fields[1..], i - 1, child, key);
      }
    }
  }

  lemma RecordPathNotFlat(v: Json, at: seq<nat>)
    requires NodeAt(v, at).Obj?
    ensures !IsFlat(v)
  {
  }

  /** Patching one record leaves the scalar fields of every other record alone. */
  lemma {:induction false} PatchOther(
      v: Json, at: seq<nat>, store: Statements, o: Occurrence, slots: seq<Slot>, b: seq<nat>, key: string)
    requires at != b && NodeAt(v, b).Obj? && IsFlat(Lookup(NodeAt(v, b).fields, key))
    requires NodeAt(v, at).Obj? ==> FlatOutputs(NodeAt(v, at).fields, slots)
    ensures var r := NodeAt(Patch(v, at, store, o, slots), b);
      r.Obj? && Lookup(r.fields, key) == Lookup(NodeAt(v, b).fields, key)
    decreases |at| + |b|
  {
    if at == [] {
      var i := b[0];
      RecordPathNotFlat(Children(v)[i], b[1..]);
      if v.Obj? {
        assert v.fields[i].value == Children(v)[i];
        SetAllKeepsRecords(v.fields, store, o, slots, i);
        var r := Patch(v, at, store, o, slots);
        assert Children(r)[i] == r.fields[i].value == Children(v)[i];
      }
    } else if at[0] < |Children(v)| {
      var child := Children(v)[at[0]];
      var patched := Patch(child, at[1..], store, o, slots);
      if b == [] {
        if IsFlat(child) { FlatUnpatched(child, at[1..], store, o, slots); }
        assert v.fields[at[0]].value == child;
        ReplacedLookup(v.fields, at[0], patched, key);
      } else if b[0] == at[0] {
        assert at == [at[0]] + at[1..] && b == [b[0]] + b[1..];
        PatchOther(child, at[1..], store, o, slots, b[1..], key);
      }
    }
  }

  ghost predicate OutputsAreFlat(doc: Json, profile: Profile, targets: seq<Occurrence>)
  {
    forall o {:trigger FlatTarget(doc, profile, o)} :: o in targets ==> FlatTarget(doc, profile, o)
  }

  ghost predicate FlatTarget(doc: Json, profile: Profile, o: Occurrence)
  {
    NodeAt(doc, o.at).Obj? && FlatOutputs(NodeAt(doc, o.at).fields, SlotsOf(profile, o.typeName))
  }

  ghost predicate DistinctPlaces(targets: seq<Occurrence>)
  {
    forall i, j {:trigger Apart(targets, i, j)} :: 0 <= i < j < |targets| ==> Apart(targets, i, j)
  }

  ghost predicate Apart(targets: seq<Occurrence>, i: nat, j: nat)
    requires i < |targets| && j < |targets|
  {
    targets[i].at != targets[j].at
  }

  lemma {:induction false} PatchKeepsFlat(
      v: Json, at: seq<nat>, store: Statements, o: Occurrence, slots: seq<Slot>, b: seq<nat>, others: seq<Slot>)
    requires NodeAt(v, b).Obj? && FlatOutputs(NodeAt(v, b).fields, others)
    requires NodeAt(v, at).Obj? && FlatOutputs(NodeAt(v, at).fields, slots)
    ensures NodeAt(Patch(v, at, store, o, slots), b).Obj?
    ensures FlatOutputs(NodeAt(Patch(v, at, store, o, slots), b).fields, others)
  {
    PatchOwn(v, at, store, o, slots);
    if at != b {
      PatchKeepsRecord(v, at, store, o, slots, b);
    }
    forall i | 0 <= i < |others|
      ensures IsFlat(Lookup(NodeAt(Patch(v, at, store, o, slots), b).fields, others[i].propertyName))
    {
      if at == b {
        SetAllLookup(NodeAt(v, at).fields, store, o, slots, others[i].propertyName);
      } else {
        PatchOther(v, at, store, o, slots, b, others[i].propertyName);
      }
    }
  }

  lemma {:induction false} PatchKeepsRecord(v: Json, at: seq<nat>, store: Statements, o: Occurrence, slots: seq<Slot>, b: seq<nat>)
    requires at != b && NodeAt(v, b).Obj? && NodeAt(v, at).Obj? && FlatOutputs(NodeAt(v, at).fields, slots)
    ensures NodeAt(Patch(v, at, store, o, slots), b).Obj?
  {
    var key := Unused(NodeAt(v, b).fields);
    UnusedAbsent(NodeAt(v, b).fields);
    PatchOther(v, at, store, o, slots, b, key);
  }

  /** A key no field has: longer than all of them. */
  function Unused(fields: seq<Field>): (r: string)
    ensures forall i :: 0 <= i < |fields| ==> |fields[i].key| < |r|
  {
    if fields == [] then "x"
    else
      var rest := Unused(fields[1..]);
      assert forall i :: 1 <= i < |fields| ==> fields[i] == fields[1..][i - 1];
      rest + fields[0].key
  }

  lemma UnusedAbsent(fields: seq<Field>)
    ensures Lookup(fields, Unused(fields)) == Undefined
  {
    LookupAbsent(fields, Unused(fields));
  }

  lemma {:induction false} SplicedFlat(doc: Json, store: Statements, profile: Profile, all: seq<Occurrence>, n: nat)
    requires n <= |all| && OutputsAreFlat(doc, profile, all)
    ensures OutputsAreFlat(Spliced(doc, store, profile, all[..n]), profile, all)
  {
    if n > 0 {
      SplicedFlat(doc, store, profile, all, n - 1);
      assert all[..n][..n - 1] == all[..n - 1];
      var before := Spliced(doc, store, profile, all[..n - 1]);
      var last := all[n - 1];
      assert FlatTarget(before, profile, last);
      forall o | o in all
        ensures FlatTarget(Spliced(doc, store, profile, all[..n]), profile, o)
      {
        assert FlatTarget(before, profile, o);
        PatchKeepsFlat(before, last.at, store, last, SlotsOf(profile, last.typeName), o.at, SlotsOf(profile, o.typeName));
      }
    }
  }

  /**
   * After the first n targets are spliced, the record of each of them carries the current
   * value of every recorded slot; every other scalar field, and every record still to
   * come, is what it was.
   */
  lemma {:induction false} SplicedHolds(
      doc: Json, store: Statements, profile: Profile, all: seq<Occurrence>, n: nat, k: nat, key: string)
    requires n <= |all| && k < |all| && OutputsAreFlat(doc, profile, all) && DistinctPlaces(all)
    requires FlatTarget(doc, profile, all[k]) && IsFlat(Lookup(NodeAt(doc, all[k].at).fields, key))
    ensures var r := NodeAt(Spliced(doc, store, profile, all[..n]), all[k].at);
      var was := Lookup(NodeAt(doc, all[k].at).fields, key);
      r.Obj? && Lookup(r.fields, key) ==
        if k < n then Overlaid(store, all[k], SlotsOf(profile, all[k].typeName), key, was) else was
  {
    if n > 0 {
      SplicedHolds(doc, store, profile, all, n - 1, k, key);
      assert all[..n][..n - 1] == all[..n - 1];
      var before := Spliced(doc, store, profile, all[..n - 1]);
      assert FlatTarget(before, profile, all[n - 1]) && FlatTarget(before, profile, all[k]) by {
        SplicedFlat(doc, store, profile, all, n - 1);
      }
      assert k < n - 1 ==> Apart(all, k, n - 1);
      assert k > n - 1 ==> Apart(all, n - 1, k);
      PatchedField(before, store, profile, all[n - 1], all[k], key);
    }
  }

  /** One splice: the target's own record gets its values, the record of another keeps its own. */
  lemma {:induction false} PatchedField(
      before: Json, store: Statements, profile: Profile, last: Occurrence, o: Occurrence, key: string)
    requires FlatTarget(before, profile, last) && FlatTarget(before, profile, o)
    requires o == last || o.at != last.at
    requires IsFlat(Lookup(NodeAt(before, o.at).fields, key))
    ensures var slots := SlotsOf(profile, last.typeName);
      var r := NodeAt(Patch(before, last.at, store, last, slots), o.at);
      var was := Lookup(NodeAt(before, o.at).fields, key);
      r.Obj? && Lookup(r.fields, key) == if o == last then Overlaid(store, last, slots, key, was) else was
  {
    var slots := SlotsOf(profile, last.typeName);
    if o == last {
      PatchOwn(before, last.at, store, last, slots);
      SetAllLookup(NodeAt(before, last.at).fields, store, last, slots, key);
    } else {
      PatchOther(before, last.at, store, last, slots, o.at, key);
    }
  }

  // ----- what a pass leaves for one entity -----

  ghost predicate WrittenBy(jobs: seq<Job>, key: Key, path: string, node: Statement)
  {
    exists j, w :: j in jobs && j.key == key && w in j.writes && w == Write(path, node)
  }

  ghost predicate Plans(jobs: seq<Job>, key: Key, path: string)
  {
    exists j :: j in jobs && j.key == key && path in PathsOf(j.writes)
  }

  function CurrentNode(store: Statements, key: Key, path: string): Statement
    requires Recorded(store, key, path)
  {
    store[key][path][|store[key][path]| - 1]
  }

  /** A pass that skips nothing leaves, for every planned path, a statement it wrote. */
  lemma {:induction false} CurrentIsWritten(store: Statements, jobs: seq<Job>, key: Key, path: string)
    requires Plans(jobs, key, path)
    ensures var after := RunJobs(store, jobs, false).store;
      Recorded(after, key, path) && WrittenBy(jobs, key, path, CurrentNode(after, key, path))
  {
    var n := |jobs| - 1;
    assert jobs == jobs[..n] + [jobs[n]];
    var before := RunJobs(store, jobs[..n], false).store;
    var last := jobs[n];
    if last.key == key && path in PathsOf(last.writes) {
      WriteIsCurrent(before, last, path);
      assert last in jobs;
    } else {
      var j :| j in jobs && j.key == key && path in PathsOf(j.writes);
      assert j in jobs[..n];
      CurrentIsWritten(store, jobs[..n], key, path);
      OthersKeepCurrent(RunJobs(store, jobs[..n], false), last, key, path);
      var i, w :| i in jobs[..n] && i.key == key && w in i.writes && w == Write(path, CurrentNode(before, key, path));
      assert i in jobs;
    }
  }

  lemma {:induction false} OthersKeepCurrent(t: Tally, job: Job, key: Key, path: string)
    requires Recorded(t.store, key, path) && (job.key != key || path !in PathsOf(job.writes))
    ensures var after := RunJob(t, job, false).store;
      Recorded(after, key, path) && CurrentNode(after, key, path) == CurrentNode(t.store, key, path)
  {
    if job.key == key {
      RecordPath(t.store[key], job.writes, path);
    }
  }

  lemma {:induction false} WriteIsCurrent(store: Statements, job: Job, path: string)
    requires path in PathsOf(job.writes)
    ensures var after := Stored(store, job.key, job.writes);
      Recorded(after, job.key, path) && Write(path, CurrentNode(after, job.key, path)) in job.writes
  {
    var nodes := if job.key in store then store[job.key] else map[];
    RecordPath(nodes, job.writes, path);
    var w :| w in job.writes && w.path == path && w.statement == CurrentNode(Stored(store, job.key, job.writes), job.key, path);
    assert w == Write(path, w.statement);
  }

  /** Every slot of every target holds a string, number or boolean. */
  ghost predicate AllScalar(profile: Profile, doc: Json)
  {
    forall o {:trigger ScalarSlots(profile, o)} :: o in CalcTargets(doc, profile) ==> ScalarSlots(profile, o)
  }

  ghost predicate ScalarSlots(profile: Profile, o: Occurrence)
  {
    forall s :: s in profile && Owns(s, o.typeName) ==>
                  o.entity.Obj? && IsScalar(Lookup(o.entity.fields, s.propertyName))
  }

  lemma {:induction false} ScalarSlotPlanned(slots: seq<Slot>, entity: Json, fingerprint: string, slot: Slot)
    requires entity.Obj? && slot in slots && IsScalar(Lookup(entity.fields, slot.propertyName))
    ensures Write(slot.path, Statement(Lookup(entity.fields, slot.propertyName), fingerprint))
            in Writes(slots, entity, fingerprint)
  {
    var n := |slots| - 1;
    assert slots == slots[..n] + [slots[n]];
    if slot in slots[..n] {
      ScalarSlotPlanned(slots[..n], entity, fingerprint, slot);
    }
  }

  lemma {:induction false} SlotIsPlanned(profile: Profile, doc: Json, o: Occurrence, slot: Slot)
    requires AllScalar(profile, doc) && o in CalcTargets(doc, profile) && slot in profile && Owns(slot, o.typeName)
    ensures o.entity.Obj? && slot.path in PathsOf(JobOf(profile, o).writes)
  {
    assert ScalarSlots(profile, o);
    SlotsOfMember(profile, o.typeName, slot);
    SameMembers(PlanSlots(profile, o.typeName), SlotsOf(profile, o.typeName));
    var w := Write(slot.path, Statement(Lookup(o.entity.fields, slot.propertyName), JobOf(profile, o).fingerprint));
    ScalarSlotPlanned(PlanSlots(profile, o.typeName), o.entity, JobOf(profile, o).fingerprint, slot);
    assert w in JobOf(profile, o).writes;
  }

  lemma {:induction false} JobIsThere(profile: Profile, docs: seq<Json>, d: nat, o: Occurrence)
    requires d < |docs| && o in CalcTargets(docs[d], profile)
    ensures o.entity.Obj? && JobOf(profile, o) in JobsOfDocs(profile, docs)
  {
    TargetIsNode(docs[d], profile, o);
    TargetsAreRecords(profile, docs[d]);
    var i :| 0 <= i < |CalcTargets(docs[d], profile)| && CalcTargets(docs[d], profile)[i] == o;
    assert JobsOf(profile, docs[d])[i] == JobOf(profile, o);
    ConcatContains(JobLists(profile, docs), d, JobOf(profile, o));
  }

  /**
   * A pass that skips nothing leaves every slot of every target with the value and the
   * fingerprint of that target, whichever of several agreeing roots wrote last.
   */
  lemma {:induction false} PassStoresValues(
      profile: Profile, docs: seq<Json>, store: Statements, d: nat, o: Occurrence, slot: Slot)
    requires CopiesAgree(profile, docs) && CleanProfile(profile) && UniquePaths(profile) && PathsAreNames(profile)
    requires d < |docs| && AllScalar(profile, docs[d]) && o in CalcTargets(docs[d], profile)
    requires slot in profile && Owns(slot, o.typeName) && !IsSidecar(slot.propertyName)
    ensures var nodes := Nodes(RunJobs(store, JobsOfDocs(profile, docs), false).store, o, slot);
      && o.entity.Obj? && nodes != []
      && nodes[|nodes| - 1].value == Lookup(o.entity.fields, slot.propertyName)
      && nodes[|nodes| - 1].fingerprint == Fingerprint(profile, o.typeName, o.entity)
  {
    var e, p, node := SlotWritten(profile, docs, store, d, o, slot);
    assert Copies(profile, docs, d, e, o, p);
    WriteMatchesCopy(profile, o, p, slot, Write(slot.path, node));
  }

  /** The current statement of a planned slot was written for some copy of the entity. */
  lemma {:induction false} SlotWritten(profile: Profile, docs: seq<Json>, store: Statements, d: nat, o: Occurrence, slot: Slot)
    returns (e: nat, p: Occurrence, node: Statement)
    requires d < |docs| && AllScalar(profile, docs[d]) && o in CalcTargets(docs[d], profile)
    requires slot in profile && Owns(slot, o.typeName) && PathsAreNames(profile)
    ensures o.entity.Obj? && e < |docs| && p in CalcTargets(docs[e], profile) && p.entity.Obj?
    ensures o.typeName == p.typeName && o.iri == p.iri
    ensures Write(slot.path, node) in JobOf(profile, p).writes
    ensures var nodes := Nodes(RunJobs(store, JobsOfDocs(profile, docs), false).store, o, slot);
      nodes != [] && nodes[|nodes| - 1] == node
  {
    JobIsThere(profile, docs, d, o);
    SlotIsPlanned(profile, docs[d], o, slot);
    e, p, node := WrittenFor(profile, docs, store, JobOf(profile, o), slot.path);
    CurrentIsLast(RunJobs(store, JobsOfDocs(profile, docs), false).store, o, slot);
  }

  lemma {:induction false} WrittenFor(profile: Profile, docs: seq<Json>, store: Statements, job: Job, path: string)
    returns (e: nat, p: Occurrence, node: Statement)
    requires job in JobsOfDocs(profile, docs) && path in PathsOf(job.writes)
    ensures e < |docs| && p in CalcTargets(docs[e], profile) && p.entity.Obj?
    ensures job.key == Key(p.typeName, p.iri) && Write(path, node) in JobOf(profile, p).writes
    ensures var after := RunJobs(store, JobsOfDocs(profile, docs), false).store;
      Recorded(after, job.key, path) && CurrentNode(after, job.key, path) == node
  {
    var j;
    j, node := PlannedNode(store, JobsOfDocs(profile, docs), job, path);
    e, p := JobOrigin(profile, docs, j);
  }

  lemma {:induction false} CurrentIsLast(store: Statements, o: Occurrence, slot: Slot)
    requires Recorded(store, Key(o.typeName, o.iri), slot.path) && slot.path == slot.propertyName
    ensures Nodes(store, o, slot) != []
    ensures Nodes(store, o, slot)[|Nodes(store, o, slot)| - 1] == CurrentNode(store, Key(o.typeName, o.iri), slot.path)
  {
  }

  /** The current statement of a path some job plans, and a job that wrote it. */
  lemma {:induction false} PlannedNode(store: Statements, jobs: seq<Job>, job: Job, path: string) returns (j: Job, node: Statement)
    requires job in jobs && path in PathsOf(job.writes)
    ensures j in jobs && j.key == job.key && Write(path, node) in j.writes
    ensures var after := RunJobs(store, jobs, false).store;
      Recorded(after, job.key, path) && CurrentNode(after, job.key, path) == node
  {
    assert Plans(jobs, job.key, path);
    CurrentIsWritten(store, jobs, job.key, path);
    node := CurrentNode(RunJobs(store, jobs, false).store, job.key, path);
    var i, w :| i in jobs && i.key == job.key && w in i.writes && w == Write(path, node);
    j := i;
  }

  lemma {:induction false} WriteMatchesCopy(profile: Profile, o: Occurrence, p: Occurrence, slot: Slot, w: Write)
    requires CleanProfile(profile) && UniquePaths(profile) && slot in profile && !IsSidecar(slot.propertyName)
    requires Owns(slot, p.typeName) && o.typeName == p.typeName && o.entity.Obj? && p.entity.Obj?
    requires WellFormed(o.entity) && WellFormed(p.entity) && ShapeOf(o.entity) == ShapeOf(p.entity)
    requires w in JobOf(profile, p).writes && w.path == slot.path
    ensures w.statement.value == Lookup(o.entity.fields, slot.propertyName)
    ensures w.statement.fingerprint == Fingerprint(profile, o.typeName, o.entity)
  {
    FingerprintStable(profile, o.typeName, o.entity, p.entity);
    var s := PlannedSlot(profile, p, w);
    assert SamePlace(s, slot);
    FieldShape(o.entity, p.entity, slot.propertyName);
    ScalarShape(Lookup(o.entity.fields, slot.propertyName), w.statement.value);
  }

  lemma ScalarShape(v: Json, w: Json)
    requires IsScalar(w) && ShapeOf(v) == ShapeOf(w)
    ensures v == w
  {
  }

  // ----- reading the warmed document back -----

  /** The document read back has the targets of the evaluated one, with equal fingerprints. */
  ghost predicate ReadsBack(profile: Profile, evaluated: Json, doc: Json)
  {
    var a, b := CalcTargets(evaluated, profile), CalcTargets(doc, profile);
    |a| == |b| && forall k :: 0 <= k < |a| ==> SameTarget(profile, a[k], b[k])
  }

  ghost predicate SameTarget(profile: Profile, o: Occurrence, p: Occurrence)
  {
    && o.typeName == p.typeName && o.iri == p.iri
    && Fingerprint(profile, o.typeName, o.entity) == Fingerprint(profile, p.typeName, p.entity)
  }

  lemma {:induction false} SlotsFreshFrom(store: Statements, o: Occurrence, slots: seq<Slot>, fingerprint: string)
    requires forall s :: s in slots ==> Fresh(Nodes(store, o, s), fingerprint)
    ensures SlotsFresh(store, o, slots, fingerprint)
    ensures slots != [] ==> HasStatement(store, o, slots)
  {
    if slots != [] {
      SlotsFreshFrom(store, o, slots[..|slots| - 1], fingerprint);
      assert slots[|slots| - 1] in slots;
    }
  }

  lemma {:induction false} EveryTargetFreshFrom(store: Statements, profile: Profile, targets: seq<Occurrence>)
    requires forall k :: 0 <= k < |targets| ==> TargetFresh(store, profile, targets[k])
    ensures EverySlotFresh(store, profile, targets)
  {
    if targets != [] {
      EveryTargetFreshFrom(store, profile, targets[..|targets| - 1]);
    }
  }

  lemma {:induction false} AnyStatementFrom(store: Statements, profile: Profile, targets: seq<Occurrence>, k: nat)
    requires k < |targets| && TargetHasStatement(store, profile, targets[k])
    ensures AnyStatement(store, profile, targets)
  {
    if k < |targets| - 1 {
      AnyStatementFrom(store, profile, targets[..|targets| - 1], k);
    }
  }

  lemma TargetFreshAfterPass(
      profile: Profile, docs: seq<Json>, store: Statements, d: nat, o: Occurrence, p: Occurrence)
    requires CopiesAgree(profile, docs) && CleanProfile(profile) && UniquePaths(profile) && PathsAreNames(profile)
    requires forall s :: s in profile ==> !IsSidecar(s.propertyName)
    requires d < |docs| && AllScalar(profile, docs[d]) && o in CalcTargets(docs[d], profile)
    requires SameTarget(profile, o, p)
    ensures var after := RunJobs(store, JobsOfDocs(profile, docs), false).store;
      TargetFresh(after, profile, p) && (SlotsOf(profile, p.typeName) != [] ==> TargetHasStatement(after, profile, p))
  {
    var after := RunJobs(store, JobsOfDocs(profile, docs), false).store;
    var slots := SlotsOf(profile, p.typeName);
    forall s | s in slots ensures Fresh(Nodes(after, p, s), Fingerprint(profile, p.typeName, p.entity)) {
      SlotsOfMember(profile, p.typeName, s);
      PassStoresValues(profile, docs, store, d, o, s);
    }
    SlotsFreshFrom(after, p, slots, Fingerprint(profile, p.typeName, p.entity));
  }

  /** A document with the targets and fingerprints of an evaluated one is fresh after a pass that skips nothing. */
  lemma {:induction false} FreshWhenReadBack(profile: Profile, docs: seq<Json>, store: Statements, d: nat, doc: Json)
    requires CopiesAgree(profile, docs) && CleanProfile(profile) && UniquePaths(profile) && PathsAreNames(profile)
    requires forall s :: s in profile ==> !IsSidecar(s.propertyName)
    requires d < |docs| && AllScalar(profile, docs[d]) && ReadsBack(profile, docs[d], doc)
    requires exists o :: o in CalcTargets(doc, profile) && SlotsOf(profile, o.typeName) != []
    ensures Verdict(RunJobs(store, JobsOfDocs(profile, docs), false).store, profile, CalcTargets(doc, profile)) == FreshState
  {
    var after := RunJobs(store, JobsOfDocs(profile, docs), false).store;
    var a, b := CalcTargets(docs[d], profile), CalcTargets(doc, profile);
    forall k | 0 <= k < |b|
      ensures TargetFresh(after, profile, b[k])
      ensures SlotsOf(profile, b[k].typeName) != [] ==> TargetHasStatement(after, profile, b[k])
    {
      assert SameTarget(profile, a[k], b[k]) && a[k] in a;
      TargetFreshAfterPass(profile, docs, store, d, a[k], b[k]);
    }
    FreshVerdict(after, profile, b);
  }

  lemma FreshVerdict(store: Statements, profile: Profile, targets: seq<Occurrence>)
    requires forall k :: 0 <= k < |targets| ==>
      TargetFresh(store, profile, targets[k]) &&
      (SlotsOf(profile, targets[k].typeName) != [] ==> TargetHasStatement(store, profile, targets[k]))
    requires exists o :: o in targets && SlotsOf(profile, o.typeName) != []
    ensures Verdict(store, profile, targets) == FreshState
  {
    EveryTargetFreshFrom(store, profile, targets);
    var o :| o in targets && SlotsOf(profile, o.typeName) != [];
    var k :| 0 <= k < |targets| && targets[k] == o;
    AnyStatementFrom(store, profile, targets, k);
  }

  lemma PlacesDiffer(doc: Json, profile: Profile)
    ensures DistinctPlaces(CalcTargets(doc, profile))
  {
    var targets := CalcTargets(doc, profile);
    TargetsSelected(doc, profile);
    forall i, j | 0 <= i < j < |targets| ensures Apart(targets, i, j) {
      assert targets[i] in targets && targets[j] in targets;
      TargetIsNode(doc, profile, targets[i]);
      TargetIsNode(doc, profile, targets[j]);
    }
  }

  lemma {:induction false} SlotServed(
      profile: Profile, docs: seq<Json>, store: Statements, d: nat, o: Occurrence, doc: Json, all: seq<Occurrence>,
      k: nat, slot: Slot)
    requires CopiesAgree(profile, docs) && CleanProfile(profile) && UniquePaths(profile) && PathsAreNames(profile)
    requires !IsSidecar(slot.propertyName) && slot in profile && Owns(slot, o.typeName)
    requires d < |docs| && AllScalar(profile, docs[d]) && o in CalcTargets(docs[d], profile)
    requires k < |all| && SameTarget(profile, o, all[k])
    requires OutputsAreFlat(doc, profile, all) && DistinctPlaces(all)
    ensures var r := NodeAt(Spliced(doc, RunJobs(store, JobsOfDocs(profile, docs), false).store, profile, all), all[k].at);
      o.entity.Obj? && r.Obj? && Lookup(r.fields, slot.propertyName) == Lookup(o.entity.fields, slot.propertyName)
  {
    var after := RunJobs(store, JobsOfDocs(profile, docs), false).store;
    var nodes := Nodes(after, o, slot);
    assert o.entity.Obj? && nodes != [] && nodes[|nodes| - 1].value == Lookup(o.entity.fields, slot.propertyName) by {
      PassStoresValues(profile, docs, store, d, o, slot);
    }
    SplicedSlot(doc, after, profile, all, k, slot, nodes);
  }

  /** And its records are served with the values of the evaluated targets. */
  lemma {:induction false} ServedWhenReadBack(
      profile: Profile, docs: seq<Json>, store: Statements, d: nat, doc: Json, k: nat, slot: Slot)
    requires CopiesAgree(profile, docs) && CleanProfile(profile) && UniquePaths(profile) && PathsAreNames(profile)
    requires d < |docs| && AllScalar(profile, docs[d]) && ReadsBack(profile, docs[d], doc)
    requires k < |CalcTargets(doc, profile)| && OutputsAreFlat(doc, profile, CalcTargets(doc, profile))
    requires slot in profile && Owns(slot, CalcTargets(doc, profile)[k].typeName) && !IsSidecar(slot.propertyName)
    ensures var read := Spliced(doc, RunJobs(store, JobsOfDocs(profile, docs), false).store, profile, CalcTargets(doc, profile));
      var r, written := NodeAt(read, CalcTargets(doc, profile)[k].at), CalcTargets(docs[d], profile)[k].entity;
      written.Obj? && r.Obj? && Lookup(r.fields, slot.propertyName) == Lookup(written.fields, slot.propertyName)
  {
    var o := CalcTargets(docs[d], profile)[k];
    assert SameTarget(profile, o, CalcTargets(doc, profile)[k]) && o in CalcTargets(docs[d], profile);
    PlacesDiffer(doc, profile);
    SlotServed(profile, docs, store, d, o, doc, CalcTargets(doc, profile), k, slot);
  }

  lemma {:induction false} OwnedSlotIsFlat(doc: Json, profile: Profile, o: Occurrence, slot: Slot)
    requires FlatTarget(doc, profile, o) && slot in profile && Owns(slot, o.typeName)
    ensures IsFlat(Lookup(NodeAt(doc, o.at).fields, slot.propertyName))
    ensures slot.propertyName in NamesOf(SlotsOf(profile, o.typeName))
  {
    var slots := SlotsOf(profile, o.typeName);
    SlotsOfMember(profile, o.typeName, slot);
    var i :| 0 <= i < |slots| && slots[i] == slot;
    assert IsFlat(Lookup(NodeAt(doc, o.at).fields, slots[i].propertyName));
  }

  /** What is stored for a target is what a read puts on it. */
  lemma {:induction false} SplicedSlot(
      doc: Json, store: Statements, profile: Profile, all: seq<Occurrence>, k: nat, slot: Slot, nodes: seq<Statement>)
    requires k < |all| && OutputsAreFlat(doc, profile, all) && DistinctPlaces(all)
    requires slot in profile && Owns(slot, all[k].typeName) && nodes == Nodes(store, all[k], slot) && nodes != []
    ensures var r := NodeAt(Spliced(doc, store, profile, all), all[k].at);
      r.Obj? && Lookup(r.fields, slot.propertyName) == nodes[|nodes| - 1].value
  {
    assert FlatTarget(doc, profile, all[k]);
    OwnedSlotIsFlat(doc, profile, all[k], slot);
    SplicedHolds(doc, store, profile, all, |all|, k, slot.propertyName);
    assert all[..|all|] == all;
  }

  // ----- root documents: evaluated by the pass, read back with what the store made of them -----

  function EvaluatedAll(profile: Profile, f: Formula, raw: seq<Json>): (r: seq<Json>)
    ensures |r| == |raw|
  {
    seq(|raw|, i requires 0 <= i < |raw| => Evaluate(profile, f, raw[i]))
  }

  /** The document read is the one the pass evaluated, apart from computed properties and sidecars. */
  ghost predicate Returned(profile: Profile, f: Formula, raw: Json, doc: Json, unread: seq<Slot>)
  {
    SameInputs(profile, raw, doc) && Readable(profile, f, doc, unread)
  }

  /** It has the targets of the evaluated document, with equal fingerprints. */
  lemma ReturnedReadsBack(profile: Profile, f: Formula, raw: Json, doc: Json, unread: seq<Slot>)
    requires CleanProfile(profile) && Returned(profile, f, raw, doc, unread)
    ensures ReadsBack(profile, Evaluate(profile, f, raw), doc)
  {
    var slots, d, e := ByStratum(profile), Evaluate(profile, f, raw), Evaluate(profile, f, doc);
    CleanProfileShows(profile);
    EvaluatedAlike(profile, f, raw, doc);
    TargetsView(slots, slots, profile, d, e);
    EvaluationKeepsTargets(profile, f, doc, unread);
    var a, b, c := CalcTargets(d, profile), CalcTargets(e, profile), CalcTargets(doc, profile);
    forall k | 0 <= k < |a| ensures SameTarget(profile, a[k], c[k]) {
      FingerprintView(slots, slots, profile, a[k].typeName, a[k].entity, b[k].entity);
      assert KeptTarget(profile, c[k], b[k]);
    }
  }

  /**
   * Warm, then read: when every slot gave a scalar, the read after a pass that skips nothing
   * is fresh, whether or not the document read carries the outputs.
   */
  lemma {:induction false} WarmThenReadIsFresh(
      profile: Profile, f: Formula, raw: seq<Json>, store: Statements, d: nat, doc: Json, unread: seq<Slot>)
    requires CopiesAgree(profile, EvaluatedAll(profile, f, raw)) && CleanProfile(profile)
    requires UniquePaths(profile) && PathsAreNames(profile)
    requires d < |raw| && Returned(profile, f, raw[d], doc, unread) && AllScalar(profile, Evaluate(profile, f, raw[d]))
    requires exists o :: o in CalcTargets(doc, profile) && SlotsOf(profile, o.typeName) != []
    ensures var jobs := JobsOfDocs(profile, EvaluatedAll(profile, f, raw));
      Verdict(RunJobs(store, jobs, false).store, profile, CalcTargets(doc, profile)) == FreshState
  {
    ReturnedReadsBack(profile, f, raw[d], doc, unread);
    forall s | s in profile ensures !IsSidecar(s.propertyName) { OutputIsData(profile, f, s); }
    FreshWhenReadBack(profile, EvaluatedAll(profile, f, raw), store, d, doc);
  }

  lemma OutputIsData(profile: Profile, f: Formula, slot: Slot)
    requires Stratified(ByStratum(profile), f) && slot in profile
    ensures !IsSidecar(slot.propertyName)
  {
    var slots := ByStratum(profile);
    SameMembers(slots, profile);
    var i :| 0 <= i < |slots| && slots[i] == slot;
  }

  /**
   * The values served are the ones the pass wrote: the record of every target of the
   * document read carries, for every slot, the value of the evaluated target.
   */
  lemma {:induction false} WarmThenReadServesWrittenValues(
      profile: Profile, f: Formula, raw: seq<Json>, store: Statements, d: nat, doc: Json, unread: seq<Slot>, k: nat,
      slot: Slot)
    requires CopiesAgree(profile, EvaluatedAll(profile, f, raw)) && CleanProfile(profile)
    requires UniquePaths(profile) && PathsAreNames(profile)
    requires d < |raw| && Returned(profile, f, raw[d], doc, unread) && AllScalar(profile, Evaluate(profile, f, raw[d]))
    requires k < |CalcTargets(doc, profile)| && OutputsAreFlat(doc, profile, CalcTargets(doc, profile))
    requires slot in profile && Owns(slot, CalcTargets(doc, profile)[k].typeName)
    ensures var e, jobs := Evaluate(profile, f, raw[d]), JobsOfDocs(profile, EvaluatedAll(profile, f, raw));
      var read := Spliced(doc, RunJobs(store, jobs, false).store, profile, CalcTargets(doc, profile));
      var r := NodeAt(read, CalcTargets(doc, profile)[k].at);
      && k < |CalcTargets(e, profile)| && CalcTargets(e, profile)[k].entity.Obj? && r.Obj?
      && Lookup(r.fields, slot.propertyName) == Lookup(CalcTargets(e, profile)[k].entity.fields, slot.propertyName)
  {
    ReturnedReadsBack(profile, f, raw[d], doc, unread);
    OutputIsData(profile, f, slot);
    ServedWhenReadBack(profile, EvaluatedAll(profile, f, raw), store, d, doc, k, slot);
  }

  /** The target is served with the value that evaluation gives it. */
  ghost predicate ServesEvaluated(profile: Profile, f: Formula, store: Statements, doc: Json, k: nat, slot: Slot)
    requires k < |CalcTargets(doc, profile)|
  {
    var e := CalcTargets(Evaluate(profile, f, doc), profile);
    var r := NodeAt(Spliced(doc, store, profile, CalcTargets(doc, profile)), CalcTargets(doc, profile)[k].at);
    && k < |e| && e[k].entity.Obj? && r.Obj?
    && Lookup(r.fields, slot.propertyName) == Lookup(e[k].entity.fields, slot.propertyName)
  }

  lemma {:induction false} JustifiedStoreServes(b: Basis, store: Statements, doc: Json, unread: seq<Slot>, k: nat, slot: Slot)
    requires Grounded(b) && Justified(b, store) && PathsAreNames(b.profile) && Readable(b.profile, b.f, doc, unread)
    requires FingerprintsDetermine(b.profile, b.f, b.occurs) && AllOccur(b.occurs, CalcTargets(doc, b.profile))
    requires Verdict(store, b.profile, CalcTargets(doc, b.profile)) == FreshState
    requires k < |CalcTargets(doc, b.profile)| && OutputsAreFlat(doc, b.profile, CalcTargets(doc, b.profile))
    requires slot in b.trusted && Owns(slot, CalcTargets(doc, b.profile)[k].typeName)
    ensures ServesEvaluated(b.profile, b.f, store, doc, k, slot)
  {
    var targets := CalcTargets(doc, b.profile);
    var nodes := Nodes(store, targets[k], slot);
    var e := CalcTargets(Evaluate(b.profile, b.f, doc), b.profile);
    assert k < |e| && e[k].entity.Obj? && nodes != []
           && nodes[|nodes| - 1].value == Lookup(e[k].entity.fields, slot.propertyName) by {
      FreshValueIsEvaluated(b, store, doc, unread, k, slot);
    }
    PlacesDiffer(doc, b.profile);
    SplicedSlot(doc, store, b.profile, targets, k, slot, nodes);
  }

  /**
   * Coherence of what is served, in every store that passes and edits can reach: the record
   * of a fresh read holds, for every slot all hosts evaluate, the value that evaluation puts
   * on that record.
   */
  lemma {:induction false} FreshReadServesEvaluatedValues(
      b: Basis, steps: seq<Step>, doc: Json, unread: seq<Slot>, k: nat, slot: Slot)
    requires Grounded(b) && PathsAreNames(b.profile) && Readable(b.profile, b.f, doc, unread)
    requires forall i :: 0 <= i < |steps| ==> Observes(b, steps[i].host, steps[i].doc)
    requires FingerprintsDetermine(b.profile, b.f, b.occurs) && AllOccur(b.occurs, CalcTargets(doc, b.profile))
    requires Verdict(After(b.profile, b.f, steps), b.profile, CalcTargets(doc, b.profile)) == FreshState
    requires k < |CalcTargets(doc, b.profile)| && OutputsAreFlat(doc, b.profile, CalcTargets(doc, b.profile))
    requires slot in b.trusted && Owns(slot, CalcTargets(doc, b.profile)[k].typeName)
    ensures ServesEvaluated(b.profile, b.f, After(b.profile, b.f, steps), doc, k, slot)
  {
    ReachableIsJustified(b, steps);
    JustifiedStoreServes(b, After(b.profile, b.f, steps), doc, unread, k, slot);
  }
}
