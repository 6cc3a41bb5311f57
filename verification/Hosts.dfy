/**
 * Hosts that cannot evaluate every slot (packages/formula-runtime/src/selectLiveEvalSlots.ts).
 * A pass evaluates the live slots but plans writes for all of them.
 */
module Hosts {
  import opened Strings
  import opened Json
  import opened Canonical
  import opened Profiles
  import opened Fingerprints
  import opened Targets
  import opened Evaluator
  import opened Statements
  import opened Warm
  import opened ReadCalcValues
  import opened Coherence
  import opened WarmThenRead
  import opened SkippingPasses

  /** Slots of distinct properties, owned by plainly named types, that leave identity fields alone. */
  ghost predicate PlainProfile(profile: Profile)
  {
    && (forall s :: s in profile ==>
          s.owner.Some? && PlainName(s.owner.value) && s.propertyName != "@type" && s.propertyName != "@id")
    && (forall s, t :: s in profile && t in profile && s != t ==> SeparateOutputs(s, t))
  }

  lemma ApplyKeepsField(a: Slot, t: Slot, f: Formula, v: Json)
    requires v.Obj? && Matches(a, v) && SeparateOutputs(a, t) && t.propertyName != "@type"
    requires IsFlat(Lookup(v.fields, a.propertyName))
    ensures var r := ApplySlot(t, f, v);
      && r.Obj? && Matches(a, r)
      && Lookup(r.fields, a.propertyName) == Lookup(v.fields, a.propertyName)
      && (HasKey(r.fields, a.propertyName) ==> HasKey(v.fields, a.propertyName))
  {
    TypeKept(t, f, v);
    VisitedField(t, f, v, a.propertyName);
    if Matches(t, v) {
      SetFieldLookup(Visited(t, f, v), t.propertyName, f(t, v), a.propertyName);
      if HasKey(SetField(Visited(t, f, v), t.propertyName, f(t, v)), a.propertyName) {
        SetFieldAddsOnly(Visited(t, f, v), t.propertyName, f(t, v), a.propertyName);
      }
    }
  }

  lemma VisitedField(t: Slot, f: Formula, v: Json, key: string)
    requires v.Obj? && IsFlat(Lookup(v.fields, key))
    ensures Lookup(Visited(t, f, v), key) == Lookup(v.fields, key)
    ensures HasKey(Visited(t, f, v), key) ==> HasKey(v.fields, key)
  {
    VisitedLookup(t, f, v.fields, key);
    FlatKept(t, f, Lookup(v.fields, key));
    if i :| 0 <= i < |v.fields| && Visited(t, f, v)[i].key == key {
      assert v.fields[i].key == key;
    }
  }

  lemma {:induction false} SetFieldAddsOnly(fields: seq<Field>, key: string, value: Json, other: string)
    requires key != other && HasKey(SetField(fields, key, value), other)
    ensures HasKey(fields, other)
  {
    var after := SetField(fields, key, value);
    var i :| 0 <= i < |after| && after[i].key == other;
    if fields == [] {
    } else if fields[0].key == key || i == 0 {
      assert fields[i].key == other;
    } else {
      assert SetField(fields[1..], key, value)[i - 1].key == other;
      SetFieldAddsOnly(fields[1..], key, value, other);
      var j :| 0 <= j < |fields[1..]| && fields[1..][j].key == other;
      assert fields[j + 1].key == other;
    }
  }

  /** Slots that leave a property alone leave its value, and do not create it. */
  lemma {:induction false} SlotsKeepField(a: Slot, slots: seq<Slot>, f: Formula, v: Json)
    requires v.Obj? && Matches(a, v) && IsFlat(Lookup(v.fields, a.propertyName))
    requires forall t :: t in slots ==> SeparateOutputs(a, t) && t.propertyName != "@type"
    ensures var r := ApplySlots(slots, f, v);
      && r.Obj? && Matches(a, r)
      && Lookup(r.fields, a.propertyName) == Lookup(v.fields, a.propertyName)
      && (HasKey(r.fields, a.propertyName) ==> HasKey(v.fields, a.propertyName))
  {
    if slots != [] {
      var n := |slots| - 1;
      assert slots == slots[..n] + [slots[n]];
      SlotsKeepField(a, slots[..n], f, v);
      ApplyKeepsField(a, slots[n], f, ApplySlots(slots[..n], f, v));
    }
  }

  lemma {:induction false} DeadSlotKept(profile: Profile, f: Formula, host: Host, slot: Slot, v: Json)
    requires PlainProfile(profile) && slot in profile && !LiveOn(slot, host)
    requires v.Obj? && Matches(slot, v) && IsFlat(Lookup(v.fields, slot.propertyName))
    ensures var r := Evaluate(LiveSlots(profile, host), f, v);
      && r.Obj? && Matches(slot, r)
      && Lookup(r.fields, slot.propertyName) == Lookup(v.fields, slot.propertyName)
      && (HasKey(r.fields, slot.propertyName) ==> HasKey(v.fields, slot.propertyName))
  {
    var live := ByStratum(LiveSlots(profile, host));
    SameMembers(live, LiveSlots(profile, host));
    forall t | t in live ensures SeparateOutputs(slot, t) && t.propertyName != "@type" {
      LiveMember(profile, host, t);
    }
    SlotsKeepField(slot, live, f, v);
  }

  /** Every record of a computed document satisfies every slot equation: no earlier output is left in it. */
  ghost predicate Complete(profile: Profile, f: Formula, doc: Json)
  {
    forall s :: s in profile ==> Solves(s, f, doc)
  }

  /** A document with a property of a slot that is not evaluated. */
  lemma SomeDocumentIncomplete(profile: Profile, f: Formula, host: Host, slot: Slot)
    requires PlainProfile(profile) && slot in profile && !LiveOn(slot, host)
    ensures exists doc :: !Complete(profile, f, Evaluate(LiveSlots(profile, host), f, doc))
  {
    IncompleteDocument(profile, f, host, slot);
  }

  lemma {:induction false} EveryDocumentComplete(profile: Profile, f: Formula, host: Host)
    requires Stratified(ByStratum(LiveSlots(profile, host)), f) && forall s :: s in profile ==> LiveOn(s, host)
    ensures forall doc :: Complete(profile, f, Evaluate(LiveSlots(profile, host), f, doc))
  {
    forall doc ensures Complete(profile, f, Evaluate(LiveSlots(profile, host), f, doc)) {
      CompleteDocument(profile, f, host, doc);
    }
  }

  /**
   * A computed result never mixes in earlier outputs if and only if the host can evaluate
   * every slot: otherwise some document keeps a property no formula has set.
   */
  lemma {:induction false} EvaluationIsCompleteIff(profile: Profile, f: Formula, host: Host)
    requires PlainProfile(profile) && Stratified(ByStratum(LiveSlots(profile, host)), f)
    ensures (forall s :: s in profile ==> s.cost <= host.maxLiveCost && (host.browser ==> !s.serverOnly)) <==>
            forall doc :: Complete(profile, f, Evaluate(LiveSlots(profile, host), f, doc))
  {
    if forall s :: s in profile ==> LiveOn(s, host) {
      EveryDocumentComplete(profile, f, host);
    } else {
      var s :| s in profile && !LiveOn(s, host);
      SomeDocumentIncomplete(profile, f, host, s);
    }
  }

  lemma {:induction false} CompleteDocument(profile: Profile, f: Formula, host: Host, doc: Json)
    requires Stratified(ByStratum(LiveSlots(profile, host)), f) && forall s :: s in profile ==> LiveOn(s, host)
    ensures Complete(profile, f, Evaluate(LiveSlots(profile, host), f, doc))
  {
    AllSlotsLive(profile, host);
    SameMembers(ByStratum(profile), profile);
    EvaluateSolves(ByStratum(profile), f, doc);
  }

  /** An entity without the property keeps lacking it when the slot is not live. */
  lemma {:induction false} IncompleteDocument(profile: Profile, f: Formula, host: Host, slot: Slot)
    requires PlainProfile(profile) && slot in profile && !LiveOn(slot, host)
    ensures !Complete(profile, f, Evaluate(LiveSlots(profile, host), f, Obj([Field("@type", Str(slot.owner.value))])))
  {
    var doc := Obj([Field("@type", Str(slot.owner.value))]);
    PlainType(slot.owner.value, doc.fields);
    assert doc.fields[0].key == "@type";
    DeadSlotKept(profile, f, host, slot, doc);
    assert !Solves(slot, f, Evaluate(LiveSlots(profile, host), f, doc));
  }

  lemma ApplyKeepsId(t: Slot, f: Formula, v: Json)
    requires v.Obj? && Lookup(v.fields, "@id").Str? && t.propertyName != "@id"
    ensures EntityId(ApplySlot(t, f, v)) == EntityId(v)
  {
    VisitedLookup(t, f, v.fields, "@id");
    SetFieldLookup(Visited(t, f, v), t.propertyName, f(t, v), "@id");
  }

  lemma {:induction false} SlotsKeepId(slots: seq<Slot>, f: Formula, v: Json)
    requires EntityId(v).Some? && forall t :: t in slots ==> t.propertyName != "@id"
    ensures EntityId(ApplySlots(slots, f, v)) == EntityId(v)
  {
    if slots != [] {
      var n := |slots| - 1;
      assert slots == slots[..n] + [slots[n]];
      SlotsKeepId(slots[..n], f, v);
      ApplyKeepsId(slots[n], f, ApplySlots(slots[..n], f, v));
    }
  }

  /** One write batch: the current statement of a planned path is the planned value. */
  lemma {:induction false} PlannedValueStored(slots: seq<Slot>, entity: Json, fingerprint: string, nodes: PathStatements, slot: Slot)
    requires slot in slots && (forall s :: s in slots && s.path == slot.path ==> s == slot)
    requires entity.Obj? && IsScalar(Lookup(entity.fields, slot.propertyName))
    ensures var writes := Writes(slots, entity, fingerprint);
      var after := Record(nodes, writes);
      && writes != [] && slot.path in after && after[slot.path] != []
      && after[slot.path][|after[slot.path]| - 1] == Statement(Lookup(entity.fields, slot.propertyName), fingerprint)
  {
    var writes := Writes(slots, entity, fingerprint);
    ScalarSlotPlanned(slots, entity, fingerprint, slot);
    RecordPath(nodes, writes, slot.path);
    var after := Record(nodes, writes)[slot.path];
    var w :| w in writes && w.path == slot.path && w.statement == after[|after| - 1];
    WritesFingerprint(slots, entity, fingerprint, w);
  }

  /**
   * A pass on a host that cannot evaluate a slot stores the value the document already had
   * under the fingerprint of its current inputs, whatever the formula would give now: the
   * next read calls that value fresh.
   */
  lemma {:induction false} DeadSlotIsRestamped(profile: Profile, f: Formula, host: Host, store: Statements, doc: Json, slot: Slot)
    returns (e: Json, o: Occurrence)
    requires PlainProfile(profile) && UniquePaths(profile) && PathsAreNames(profile)
    requires slot in profile && !LiveOn(slot, host)
    requires doc.Obj? && Matches(slot, doc) && Identified(doc) && IsScalar(Lookup(doc.fields, slot.propertyName))
    ensures e == Evaluate(LiveSlots(profile, host), f, doc) && o in Own(e, []) && o.entity == e
    ensures var nodes := Nodes(RunJobs(store, JobsOf(profile, e), false).store, o, slot);
      nodes != [] && nodes[|nodes| - 1] ==
        Statement(Lookup(doc.fields, slot.propertyName), Fingerprint(profile, slot.owner.value, e))
  {
    e := DeadSlotDocument(profile, f, host, doc, slot);
    o := RootOccurrence(slot, e);
    RootSlotStored(profile, store, e, slot, o);
  }

  lemma {:induction false} RootOccurrence(slot: Slot, e: Json) returns (o: Occurrence)
    requires Matches(slot, e) && Identified(e)
    ensures Own(e, []) == [o] && o.entity == e && slot.owner == Some(o.typeName)
  {
    o := Own(e, [])[0];
  }

  /** The document after an evaluation that skips the slot. */
  lemma {:induction false} DeadSlotDocument(profile: Profile, f: Formula, host: Host, doc: Json, slot: Slot)
    returns (e: Json)
    requires PlainProfile(profile) && slot in profile && !LiveOn(slot, host)
    requires doc.Obj? && Matches(slot, doc) && Identified(doc) && IsScalar(Lookup(doc.fields, slot.propertyName))
    ensures e == Evaluate(LiveSlots(profile, host), f, doc)
    ensures e.Obj? && Matches(slot, e) && Identified(e)
    ensures Lookup(e.fields, slot.propertyName) == Lookup(doc.fields, slot.propertyName)
  {
    e := Evaluate(LiveSlots(profile, host), f, doc);
    DeadSlotKept(profile, f, host, slot, doc);
    IdKept(profile, f, host, doc);
  }

  lemma {:induction false} IdKept(profile: Profile, f: Formula, host: Host, doc: Json)
    requires PlainProfile(profile) && Identified(doc)
    ensures EntityId(Evaluate(LiveSlots(profile, host), f, doc)) == EntityId(doc)
  {
    SameMembers(ByStratum(LiveSlots(profile, host)), LiveSlots(profile, host));
    forall t | t in ByStratum(LiveSlots(profile, host)) ensures t.propertyName != "@id" { LiveMember(profile, host, t); }
    SlotsKeepId(ByStratum(LiveSlots(profile, host)), f, doc);
  }

  lemma {:induction false} RootSlotStored(profile: Profile, store: Statements, e: Json, slot: Slot, o: Occurrence)
    requires UniquePaths(profile) && PathsAreNames(profile) && slot in profile && Owns(slot, o.typeName)
    requires Own(e, []) == [o] && o.entity == e && e.Obj? && IsScalar(Lookup(e.fields, slot.propertyName))
    ensures var nodes := Nodes(RunJobs(store, JobsOf(profile, e), false).store, o, slot);
      nodes != [] && nodes[|nodes| - 1] ==
        Statement(Lookup(e.fields, slot.propertyName), Fingerprint(profile, o.typeName, e))
  {
    RootEntry(profile, store, e, o);
    OwnSlotStored(profile, store, RunJobs(store, JobsOf(profile, e), false).store, o, slot);
  }

  lemma {:induction false} OwnSlotStored(
      profile: Profile, store: Statements, after: Statements, o: Occurrence, slot: Slot)
    requires UniquePaths(profile) && PathsAreNames(profile) && slot in profile && Owns(slot, o.typeName)
    requires o.entity.Obj? && IsScalar(Lookup(o.entity.fields, slot.propertyName))
    requires EntryFor(after, Key(o.typeName, o.iri)) == OwnEntry(store, JobOf(profile, o), false)
    ensures var nodes := Nodes(after, o, slot);
      nodes != [] && nodes[|nodes| - 1] ==
        Statement(Lookup(o.entity.fields, slot.propertyName), Fingerprint(profile, o.typeName, o.entity))
  {
    assert slot.path == slot.propertyName;
    PlannedOnce(profile, o.typeName, slot);
    JobStored(store, after, o, JobOf(profile, o), PlanSlots(profile, o.typeName), slot);
  }

  /** A job for the entity leaves the planned value as the current statement of its slot. */
  lemma {:induction false} JobStored(
      store: Statements, after: Statements, o: Occurrence, job: Job, slots: seq<Slot>, slot: Slot)
    requires o.entity.Obj? && IsScalar(Lookup(o.entity.fields, slot.propertyName)) && slot.path == slot.propertyName
    requires slot in slots && (forall s :: s in slots && s.path == slot.path ==> s == slot)
    requires job.key == Key(o.typeName, o.iri) && job.writes == Writes(slots, o.entity, job.fingerprint)
    requires EntryFor(after, job.key) == OwnEntry(store, job, false)
    ensures var nodes := Nodes(after, o, slot);
      nodes != [] && nodes[|nodes| - 1] == Statement(Lookup(o.entity.fields, slot.propertyName), job.fingerprint)
  {
    var before := Opened(EntryFor(store, job.key));
    PlannedValueStored(slots, o.entity, job.fingerprint, before, slot);
    EntryNodes(after, o, slot, Record(before, job.writes));
  }

  lemma EntryNodes(after: Statements, o: Occurrence, slot: Slot, entry: PathStatements)
    requires EntryFor(after, Key(o.typeName, o.iri)) == Some(entry)
    requires slot.path == slot.propertyName && slot.path in entry
    ensures Nodes(after, o, slot) == entry[slot.path]
  {
  }

  /** The root's job is the only one that touches the root's entry. */
  lemma {:induction false} RootEntry(profile: Profile, store: Statements, e: Json, o: Occurrence)
    requires Own(e, []) == [o] && e.Obj? && o.entity == e
    ensures EntryFor(RunJobs(store, JobsOf(profile, e), false).store, Key(o.typeName, o.iri))
         == OwnEntry(store, JobOf(profile, o), false)
  {
    RootIsTarget(e, profile);
    TargetsAreRecords(profile, e);
    var k :| 0 <= k < |CalcTargets(e, profile)| && CalcTargets(e, profile)[k] == o;
    JobKeysDiffer(profile, e);
    JobsAreIndependent(store, JobsOf(profile, e), false, k);
  }

  lemma {:induction false} PlannedOnce(profile: Profile, typeName: string, slot: Slot)
    requires UniquePaths(profile) && slot in profile && Owns(slot, typeName)
    ensures slot in PlanSlots(profile, typeName)
    ensures forall s :: s in PlanSlots(profile, typeName) && s.path == slot.path ==> s == slot
  {
    var slots := PlanSlots(profile, typeName);
    SlotsOfMember(profile, typeName, slot);
    SameMembers(slots, SlotsOf(profile, typeName));
    forall s | s in slots && s.path == slot.path ensures s == slot {
      SlotsOfMember(profile, typeName, s);
      assert SamePlace(s, slot);
    }
  }
}
