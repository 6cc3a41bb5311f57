/**
 * A document as read and the same document evaluated: when their targets have the same
 * fingerprints. Passes store fingerprints of evaluated records
 * (packages/calc-engine/src/warm.ts:351-361), reads compare those of records as they come
 * from the store (packages/calc-engine/src/readCalcValues.ts:185-224).
 */
module Inputs {
  import opened Strings
  import opened Json
  import opened Canonical
  import opened Profiles
  import opened Fingerprints
  import opened Targets
  import opened Views
  import opened Evaluator
  import opened Addresses

  /**
   * Every computed property that some source path reads is current in the document. The
   * others may be missing or outdated: no source path and no formula reads them, and the
   * records that own them have an id.
   */
  ghost predicate InputsCurrent(profile: Profile, f: Formula, doc: Json, unread: seq<Slot>)
  {
    && (forall s :: s in unread ==> s in profile)
    && (forall s :: s in profile && s !in unread ==> Solves(s, f, doc))
    && (forall s :: s in profile ==> ReadsShown(f, unread, [], s))
    && ShowsSources(unread, [], profile) && Open(unread, [], doc)
  }

  lemma {:induction false} TidySub(some: seq<Slot>, all: seq<Slot>, v: Json)
    requires Tidy(all, v) && forall s :: s in some ==> s in all
    ensures Tidy(some, v)
    decreases v
  {
    if v.Obj? {
      forall i | 0 <= i < |v.fields| && Dropped(some, EntityType(v), v.fields[i].key) ensures Inert(v.fields[i].value) {
        OutputOfMore(some, all, EntityType(v), v.fields[i].key);
      }
    }
    forall i | 0 <= i < |Children(v)| ensures Tidy(some, Children(v)[i]) {
      ChildTidy(all, v, i);
      TidySub(some, all, Children(v)[i]);
    }
  }

  lemma OutputOfMore(some: seq<Slot>, all: seq<Slot>, typeName: Option<string>, key: string)
    requires forall s :: s in some ==> s in all
    ensures Dropped(some, typeName, key) ==> Dropped(all, typeName, key)
  {
    if IsOutput(some, typeName, key) {
      var i :| 0 <= i < |some| && some[i].owner == typeName && some[i].propertyName == key;
      assert some[i] in all;
      var j :| 0 <= j < |all| && all[j] == some[i];
    }
  }

  lemma DataNamesSub(some: seq<Slot>, all: seq<Slot>)
    requires DataNames(all) && forall s :: s in some ==> s in all
    ensures DataNames(some)
  {
    forall i | 0 <= i < |some|
      ensures some[i].propertyName !in {"@id", "@type"} && !IsSidecar(some[i].propertyName)
    {
      assert some[i] in all;
      var j :| 0 <= j < |all| && all[j] == some[i];
    }
  }

  // ----- current outputs stay current when others change -----

  lemma {:induction false} CoreListed(slots: seq<Slot>, known: seq<Slot>, typeName: Option<string>, fields: seq<Field>, i: nat)
    requires i < |fields| && !Dropped(slots, typeName, fields[i].key)
    ensures Shown(fields[i].key, ViewOf(slots, known, fields[i].value)) in CoreViews(slots, known, typeName, fields)
  {
    if i > 0 {
      CoreListed(slots, known, typeName, fields[1..], i - 1);
    }
  }

  lemma {:induction false} CoreSource(slots: seq<Slot>, known: seq<Slot>, typeName: Option<string>, fields: seq<Field>, x: Shown)
    returns (j: nat)
    requires x in CoreViews(slots, known, typeName, fields)
    ensures j < |fields| && !Dropped(slots, typeName, fields[j].key)
    ensures x == Shown(fields[j].key, ViewOf(slots, known, fields[j].value))
  {
    if x in CoreViews(slots, known, typeName, fields[1..]) {
      j := CoreSource(slots, known, typeName, fields[1..], x);
      j := j + 1;
    } else {
      j := 0;
    }
  }

  lemma {:induction false} InertSolves(slot: Slot, f: Formula, v: Json)
    requires Inert(v)
    ensures Solves(slot, f, v)
    decreases v
  {
    forall i | 0 <= i < |Children(v)| ensures Solves(slot, f, Children(v)[i]) {
      InertSolves(slot, f, Children(v)[i]);
    }
  }

  /** Trees of one view solve the same equation of a slot that shows in it and reads no more than it shows. */
  lemma {:induction false} SolvesView(slots: seq<Slot>, known: seq<Slot>, slot: Slot, f: Formula, v: Json, w: Json)
    requires SameView(slots, known, v, w) && Solves(slot, f, v) && Tidy(slots, w)
    requires FlatResults(f) && ReadsShown(f, slots, known, slot) && Visibly(slots, known, slot.owner, slot.propertyName)
    ensures Solves(slot, f, w)
    decreases w
  {
    if Matches(slot, w) {
      LookupView(slots, known, v, w, slot.propertyName);
      FlatView(slots, known, Lookup(v.fields, slot.propertyName), Lookup(w.fields, slot.propertyName));
    }
    forall i | 0 <= i < |Children(w)| ensures Solves(slot, f, Children(w)[i]) {
      ChildTidy(slots, w, i);
      if w.Arr? {
        assert ViewOf(slots, known, v).views[i] == ViewOf(slots, known, w).views[i];
        assert Children(v)[i] == v.items[i];
        SolvesView(slots, known, slot, f, v.items[i], w.items[i]);
      } else if Dropped(slots, EntityType(w), w.fields[i].key) {
        InertSolves(slot, f, w.fields[i].value);
      } else {
        CoreListed(slots, known, EntityType(w), w.fields, i);
        var j := CoreSource(slots, known, EntityType(v), v.fields, Shown(w.fields[i].key, ViewOf(slots, known, w.fields[i].value)));
        assert Children(v)[j] == v.fields[j].value;
        SolvesView(slots, known, slot, f, v.fields[j].value, w.fields[i].value);
      }
    }
  }

  lemma ReadIsVisible(slots: seq<Slot>, f: Formula, unread: seq<Slot>, slot: Slot)
    requires Stratified(slots, f) && (forall s :: s in unread ==> s in slots) && slot in slots && slot !in unread
    ensures Visibly(unread, [], slot.owner, slot.propertyName)
  {
    var i :| 0 <= i < |slots| && slots[i] == slot;
    if k :| 0 <= k < |unread| && unread[k].owner == slot.owner && unread[k].propertyName == slot.propertyName {
      assert unread[k] in slots;
      var j :| 0 <= j < |slots| && slots[j] == unread[k];
      assert i < j ==> SeparateOutputs(slots[i], slots[j]);
      assert j < i ==> SeparateOutputs(slots[j], slots[i]);
    }
  }

  /** Evaluation changes unread outputs only. */
  lemma {:induction false} EvaluationKeepsInputs(profile: Profile, f: Formula, doc: Json, unread: seq<Slot>, n: nat)
    requires Stratified(ByStratum(profile), f) && Tidy(ByStratum(profile), doc) && InputsCurrent(profile, f, doc, unread)
    requires n <= |ByStratum(profile)|
    ensures SameView(unread, [], doc, ApplySlots(ByStratum(profile)[..n], f, doc))
  {
    var slots := ByStratum(profile);
    if n > 0 {
      EvaluationKeepsInputs(profile, f, doc, unread, n - 1);
      assert slots[..n][..n - 1] == slots[..n - 1];
      var before, slot := ApplySlots(slots[..n - 1], f, doc), slots[n - 1];
      SameMembers(slots, profile);
      TidySub(unread, slots, doc);
      DataNamesSub(unread, slots);
      SlotsTidy(unread, slots[..n - 1], f, doc);
      assert slot in slots;
      if slot in unread {
        ApplyOverwrites(unread, slot, f, before);
        OverwritesView(unread, before, ApplySlot(slot, f, before));
      } else {
        ReadIsVisible(slots, f, unread, slot);
        SolvesView(unread, [], slot, f, doc, before);
        ApplySolved(slot, f, before);
      }
    }
  }

  lemma EvaluatedInputsAlike(profile: Profile, f: Formula, doc: Json, unread: seq<Slot>)
    requires Stratified(ByStratum(profile), f) && WellFormed(doc) && Tidy(ByStratum(profile), doc)
    requires InputsCurrent(profile, f, doc, unread)
    ensures Alike(unread, [], doc, Evaluate(profile, f, doc)) && DataNames(unread)
  {
    var slots := ByStratum(profile);
    EvaluationKeepsInputs(profile, f, doc, unread, |slots|);
    assert slots[..|slots|] == slots;
    SameMembers(slots, profile);
    TidySub(unread, slots, doc);
    DataNamesSub(unread, slots);
    SlotsTidy(unread, slots, f, doc);
    SlotsWellFormed(slots, f, doc);
  }

  /** The same record, with the same fingerprint. */
  ghost predicate KeptTarget(profile: Profile, o: Occurrence, p: Occurrence)
  {
    && o.at == p.at && o.typeName == p.typeName && o.iri == p.iri
    && Fingerprint(profile, o.typeName, o.entity) == Fingerprint(profile, p.typeName, p.entity)
  }

  /** Evaluation keeps every target's address, type, IRI and fingerprint. */
  lemma EvaluationKeepsTargets(profile: Profile, f: Formula, doc: Json, unread: seq<Slot>)
    requires Stratified(ByStratum(profile), f) && WellFormed(doc) && Tidy(ByStratum(profile), doc)
    requires InputsCurrent(profile, f, doc, unread)
    ensures var a, b := CalcTargets(doc, profile), CalcTargets(Evaluate(profile, f, doc), profile);
      |a| == |b| && forall k :: 0 <= k < |a| ==> KeptTarget(profile, a[k], b[k])
  {
    var slots, e := ByStratum(profile), Evaluate(profile, f, doc);
    var a, b := CalcTargets(doc, profile), CalcTargets(e, profile);
    EvaluatedInputsAlike(profile, f, doc, unread);
    TargetsView(unread, [], profile, doc, e);
    SlotsOverwrite(slots, slots, f, doc);
    AddressesKept(slots, doc, e, []);
    forall k | 0 <= k < |a| ensures KeptTarget(profile, a[k], b[k]) {
      FingerprintView(unread, [], profile, a[k].typeName, a[k].entity, b[k].entity);
      assert Paired(doc, e, a[k], b[k]);
      var i :| 0 <= i < |Entities(doc, [])| && i < |Entities(e, [])|
               && Entities(doc, [])[i] == a[k] && Entities(e, [])[i] == b[k];
      assert Ats(Entities(doc, []))[i] == Ats(Entities(e, []))[i];
    }
  }
}
