/**
 * The whole document of a fresh read (packages/calc-engine/src/readCalcValues.ts:226-243):
 * raw inputs with the recorded values set on them show what evaluating the inputs gives.
 */
module FreshReads {
  import opened Strings
  import opened Json
  import opened Canonical
  import opened Profiles
  import opened Fingerprints
  import opened Targets
  import opened Views
  import opened Evaluator
  import opened Roots
  import opened Statements
  import opened Warm
  import opened ReadCalcValues
  import opened Addresses
  import opened Inputs
  import opened Coherence
  import opened WarmThenRead

  // ----- records that carry the recorded values -----

  /** The slot's current value for the record's own type and id. */
  function RecordedFor(store: Statements, slot: Slot, v: Json): seq<Statement>
  {
    if EntityType(v).Some? && EntityId(v).Some? then
      NodesAt(store, Occurrence(EntityType(v).value, EntityId(v).value, v, []), slot.propertyName)
    else []
  }

  ghost predicate CarriesOne(slot: Slot, store: Statements, v: Json)
  {
    Matches(slot, v) ==>
      var nodes := RecordedFor(store, slot, v);
      nodes != [] && HasKey(v.fields, slot.propertyName)
      && Lookup(v.fields, slot.propertyName) == nodes[|nodes| - 1].value
  }

  /** Every record of the slot's type carries the recorded value. */
  ghost predicate Carries(slot: Slot, store: Statements, v: Json)
  {
    CarriesOne(slot, store, v) && forall i :: 0 <= i < |Children(v)| ==> Carries(slot, store, Children(v)[i])
  }

  lemma {:induction false} InertCarries(slot: Slot, store: Statements, v: Json)
    requires Inert(v)
    ensures Carries(slot, store, v)
    decreases v
  {
    forall i | 0 <= i < |Children(v)| ensures Carries(slot, store, Children(v)[i]) {
      InertCarries(slot, store, Children(v)[i]);
    }
  }

  /** Every record of an owning type has an id. */
  ghost predicate OwnersNamed(slots: seq<Slot>, view: View)
    decreases view
  {
    match view
    case Leaf(_) => true
    case Items(views) => forall i :: 0 <= i < |views| ==> OwnersNamed(slots, views[i])
    case Rec(typeName, core, _) =>
      && ((exists i :: 0 <= i < |slots| && typeName.Some? && slots[i].owner == typeName) ==> OwnView(view) != [])
      && forall i :: 0 <= i < |core| ==> OwnersNamed(slots, core[i].view)
  }

  /** If all collected entities carry a slot's values, all records do. */
  lemma {:induction false} CarriesEverywhere(
      slots: seq<Slot>, slot: Slot, store: Statements, v: Json, at: seq<nat>)
    requires Tidy(slots, v) && DataNames(slots) && slot in slots && OwnersNamed(slots, ViewOf(slots, [], v))
    requires forall o :: o in Entities(v, at) ==> CarriesOne(slot, store, o.entity)
    ensures Carries(slot, store, v)
    decreases v
  {
    if Matches(slot, v) {
      var k :| 0 <= k < |slots| && slots[k] == slot;
      OwnSeen(slots, [], v, at);
      assert Own(v, at) != [];
      assert Own(v, at)[0] in Entities(v, at) && Own(v, at)[0].entity == v;
    }
    forall i | 0 <= i < |Children(v)| ensures Carries(slot, store, Children(v)[i]) {
      ChildTidy(slots, v, i);
      if v.Obj? && Dropped(slots, EntityType(v), v.fields[i].key) {
        InertCarries(slot, store, v.fields[i].value);
      } else {
        ChildNamed(slots, v, i);
        forall o | o in Entities(Children(v)[i], at + [i]) ensures o in Entities(v, at) {
          ConcatContains(Below(v, at), i, o);
        }
        CarriesEverywhere(slots, slot, store, Children(v)[i], at + [i]);
      }
    }
  }

  lemma ChildNamed(slots: seq<Slot>, v: Json, i: nat)
    requires i < |Children(v)| && OwnersNamed(slots, ViewOf(slots, [], v))
    requires v.Obj? ==> !Dropped(slots, EntityType(v), v.fields[i].key)
    ensures OwnersNamed(slots, ViewOf(slots, [], Children(v)[i]))
  {
    if v.Arr? {
      assert ViewOf(slots, [], v).views[i] == ViewOf(slots, [], v.items[i]);
    } else {
      CoreListed(slots, [], EntityType(v), v.fields, i);
      var core := CoreViews(slots, [], EntityType(v), v.fields);
      var j :| 0 <= j < |core| && core[j] == Shown(v.fields[i].key, ViewOf(slots, [], v.fields[i].value));
      assert OwnersNamed(slots, ViewOf(slots, [], v).core[j].view);
    }
  }

  // ----- two documents that carry the same values -----

  ghost predicate BothCarry(slots: seq<Slot>, store: Statements, v: Json, w: Json)
  {
    forall s :: s in slots ==> Carries(s, store, v) && Carries(s, store, w)
  }

  /** They show the same with all outputs known if they do with none known. */
  lemma {:induction false} CarryingView(slots: seq<Slot>, store: Statements, v: Json, w: Json)
    requires SameView(slots, [], v, w) && BothCarry(slots, store, v, w) && DataNames(slots)
    ensures SameView(slots, slots, v, w)
    decreases v, 1, w
  {
    if v.Arr? {
      assert |v.items| == |ViewOf(slots, [], v).views| == |w.items|;
      forall i | 0 <= i < |v.items| ensures SameView(slots, slots, v.items[i], w.items[i]) {
        assert ViewOf(slots, [], v).views[i] == ViewOf(slots, [], w).views[i];
        ChildrenCarry(slots, store, v, w, i, i);
        CarryingView(slots, store, v.items[i], w.items[i]);
      }
    } else if v.Obj? {
      IdView(slots, [], v, w);
      forall i, j | 0 <= i < |v.fields| && 0 <= j < |w.fields|
        ensures BothCarry(slots, store, v.fields[i].value, w.fields[j].value)
      {
        ChildrenCarry(slots, store, v, w, i, j);
      }
      CarryingFields(slots, store, EntityType(v), v.fields, w.fields);
      forall i | 0 <= i < |slots| ensures OutViews(slots, slots, v)[i] == OutViews(slots, slots, w)[i] {
        CarriedOutput(slots, store, v, w, i);
      }
    }
  }

  lemma ChildrenCarry(slots: seq<Slot>, store: Statements, v: Json, w: Json, i: nat, j: nat)
    requires BothCarry(slots, store, v, w) && i < |Children(v)| && j < |Children(w)|
    ensures BothCarry(slots, store, Children(v)[i], Children(w)[j])
  {
    forall s | s in slots ensures Carries(s, store, Children(v)[i]) && Carries(s, store, Children(w)[j]) {
      assert Carries(s, store, v) && Carries(s, store, w);
    }
  }

  lemma CarriedOutput(slots: seq<Slot>, store: Statements, v: Json, w: Json, i: nat)
    requires i < |slots| && v.Obj? && w.Obj? && EntityType(v) == EntityType(w) && EntityId(v) == EntityId(w)
    requires BothCarry(slots, store, v, w)
    ensures OutView(slots, slots, v, slots[i]) == OutView(slots, slots, w, slots[i])
  {
    assert slots[i] in slots;
    assert Carries(slots[i], store, v) && Carries(slots[i], store, w);
    if Matches(slots[i], v) {
      assert RecordedFor(store, slots[i], v) == RecordedFor(store, slots[i], w);
      FieldViewIsView(slots, slots, v, slots[i].propertyName);
      FieldViewIsView(slots, slots, w, slots[i].propertyName);
    }
  }

  lemma {:induction false} CarryingFields(
      slots: seq<Slot>, store: Statements, t: Option<string>, fs: seq<Field>, gs: seq<Field>)
    requires CoreViews(slots, [], t, fs) == CoreViews(slots, [], t, gs) && DataNames(slots)
    requires forall i, j :: 0 <= i < |fs| && 0 <= j < |gs| ==> BothCarry(slots, store, fs[i].value, gs[j].value)
    ensures CoreViews(slots, slots, t, fs) == CoreViews(slots, slots, t, gs)
    decreases fs, 0, gs
  {
    if fs != [] && Dropped(slots, t, fs[0].key) {
      assert CoreViews(slots, [], t, fs) == CoreViews(slots, [], t, fs[1..]);
      CarryingFields(slots, store, t, fs[1..], gs);
    } else if gs != [] && Dropped(slots, t, gs[0].key) {
      assert CoreViews(slots, [], t, gs) == CoreViews(slots, [], t, gs[1..]);
      CarryingFields(slots, store, t, fs, gs[1..]);
    } else if fs != [] && gs != [] {
      var x, y := CoreViews(slots, [], t, fs), CoreViews(slots, [], t, gs);
      assert x[0] == y[0] && x[1..] == CoreViews(slots, [], t, fs[1..]) && y[1..] == CoreViews(slots, [], t, gs[1..]);
      CarryingView(slots, store, fs[0].value, gs[0].value);
      CarryingFields(slots, store, t, fs[1..], gs[1..]);
    }
  }

  // ----- the spliced document -----

  /** Every entity that owns slots is a target, and every record that owns slots has an id. */
  ghost predicate OwnersAreTargets(profile: Profile, doc: Json)
  {
    && OwnersNamed(ByStratum(profile), ViewOf(ByStratum(profile), [], doc))
    && forall o :: o in Entities(doc, []) && SlotsOf(profile, o.typeName) != [] ==> o in CalcTargets(doc, profile)
  }

  /** An entity keeps its place, type and id in an overwritten document. */
  lemma SamePlaceEntity(slots: seq<Slot>, v: Json, w: Json, k: nat)
    requires Overwrites(slots, v, w) && Tidy(slots, v) && DataNames(slots)
    ensures |Entities(v, [])| == |Entities(w, [])|
    ensures k < |Entities(v, [])| ==>
      var o, p := Entities(v, [])[k], Entities(w, [])[k];
      o.at == p.at && o.typeName == p.typeName && o.iri == p.iri && p.entity == NodeAt(w, o.at)
      && EntityType(p.entity) == Some(o.typeName)
  {
    OverwritesView(slots, v, w);
    OverwritesTidy(slots, v, w);
    EntitiesSeen(slots, [], v, []);
    EntitiesSeen(slots, [], w, []);
    AddressesKept(slots, v, w, []);
    var a, b := Entities(v, []), Entities(w, []);
    assert |a| == |SeenOf(slots, [], a)| == |SeenOf(slots, [], b)| == |b|;
    if k < |a| {
      assert SeenOf(slots, [], a)[k] == SeenOf(slots, [], b)[k] && Ats(a)[k] == Ats(b)[k];
      assert b[k] in b;
      EntitiesAt(w, [], b[k]);
      assert b[k].at[0..] == b[k].at;
    }
  }

  lemma {:induction false} SplicedOverwrites(doc: Json, store: Statements, profile: Profile, all: seq<Occurrence>)
    requires Tidy(ByStratum(profile), doc) && DataNames(ByStratum(profile))
    requires forall o :: o in all ==> o in Entities(doc, [])
    ensures Overwrites(ByStratum(profile), doc, Spliced(doc, store, profile, all))
  {
    var slots := ByStratum(profile);
    if all == [] {
      OverwritesItself(slots, doc);
    } else {
      var n := |all| - 1;
      var o, before := all[n], Spliced(doc, store, profile, all[..n]);
      SplicedOverwrites(doc, store, profile, all[..n]);
      OverwritesTidy(slots, doc, before);
      assert o in all;
      var k :| 0 <= k < |Entities(doc, [])| && Entities(doc, [])[k] == o;
      SamePlaceEntity(slots, doc, before, k);
      forall s | s in SlotsOf(profile, o.typeName) ensures s in slots && Owns(s, o.typeName) {
        SlotsOfMember(profile, o.typeName, s);
        SameMembers(slots, profile);
      }
      PatchOverwrites(slots, before, o.at, store, o, SlotsOf(profile, o.typeName));
      OverwritesOnce(slots, doc, before, Spliced(doc, store, profile, all));
    }
  }

  /** A record of the target's type and id with its current value carries it. */
  lemma CarriesCurrent(store: Statements, slot: Slot, o: Occurrence, v: Json)
    requires EntityType(v) == Some(o.typeName) && EntityId(v) == Some(o.iri)
    requires var nodes := Nodes(store, o, slot);
      nodes != [] && Lookup(v.fields, slot.propertyName) == nodes[|nodes| - 1].value
    ensures CarriesOne(slot, store, v)
  {
    if !HasKey(v.fields, slot.propertyName) { LookupMissing(v.fields, slot.propertyName); }
  }

  /** In a spliced document the entity of every target carries its recorded values. */
  lemma {:induction false} SplicedTargetCarries(
      store: Statements, profile: Profile, doc: Json, targets: seq<Occurrence>, o: Occurrence, slot: Slot)
    requires targets == CalcTargets(doc, profile) && EverySlotFresh(store, profile, targets)
    requires OutputsAreFlat(doc, profile, targets) && o in targets && slot in profile && Owns(slot, o.typeName)
    ensures var r, nodes := NodeAt(Spliced(doc, store, profile, targets), o.at), Nodes(store, o, slot);
      r.Obj? && nodes != [] && Lookup(r.fields, slot.propertyName) == nodes[|nodes| - 1].value
  {
    var i :| 0 <= i < |targets| && targets[i] == o;
    FreshSlot(store, profile, targets, o, slot);
    PlacesDiffer(doc, profile);
    SplicedSlot(doc, store, profile, targets, i, slot, Nodes(store, o, slot));
  }

  lemma {:induction false} SplicedEntityCarries(
      store: Statements, profile: Profile, doc: Json, targets: seq<Occurrence>, read: Json, slot: Slot, k: nat)
    requires targets == CalcTargets(doc, profile) && EverySlotFresh(store, profile, targets)
    requires OutputsAreFlat(doc, profile, targets) && OwnersAreTargets(profile, doc) && slot in profile
    requires read == Spliced(doc, store, profile, targets) && Overwrites(ByStratum(profile), doc, read)
    requires Tidy(ByStratum(profile), doc) && DataNames(ByStratum(profile)) && k < |Entities(read, [])|
    ensures CarriesOne(slot, store, Entities(read, [])[k].entity)
  {
    SamePlaceEntity(ByStratum(profile), doc, read, k);
    var o, p := Entities(doc, [])[k], Entities(read, [])[k];
    assert p in Entities(read, []) && o in Entities(doc, []);
    EntitiesAt(read, [], p);
    if Matches(slot, p.entity) {
      SlotsOfMember(profile, o.typeName, slot);
      SplicedTargetCarries(store, profile, doc, targets, o, slot);
      CarriesCurrent(store, slot, o, p.entity);
    }
  }

  lemma {:induction false} SplicedEntitiesCarry(
      store: Statements, profile: Profile, doc: Json, targets: seq<Occurrence>, read: Json, slot: Slot)
    requires targets == CalcTargets(doc, profile) && EverySlotFresh(store, profile, targets)
    requires OutputsAreFlat(doc, profile, targets) && OwnersAreTargets(profile, doc) && slot in profile
    requires read == Spliced(doc, store, profile, targets) && Overwrites(ByStratum(profile), doc, read)
    requires Tidy(ByStratum(profile), doc) && DataNames(ByStratum(profile))
    ensures forall p :: p in Entities(read, []) ==> CarriesOne(slot, store, p.entity)
  {
    forall p | p in Entities(read, []) ensures CarriesOne(slot, store, p.entity) {
      var k :| 0 <= k < |Entities(read, [])| && Entities(read, [])[k] == p;
      SplicedEntityCarries(store, profile, doc, targets, read, slot, k);
    }
  }

  lemma {:induction false} SplicedCarries(
      store: Statements, profile: Profile, doc: Json, targets: seq<Occurrence>, read: Json, slot: Slot)
    requires targets == CalcTargets(doc, profile) && EverySlotFresh(store, profile, targets)
    requires OutputsAreFlat(doc, profile, targets) && OwnersAreTargets(profile, doc) && slot in profile
    requires read == Spliced(doc, store, profile, targets) && Overwrites(ByStratum(profile), doc, read)
    requires Tidy(ByStratum(profile), doc) && DataNames(ByStratum(profile))
    ensures Carries(slot, store, read)
  {
    var slots := ByStratum(profile);
    SameMembers(slots, profile);
    OverwritesTidy(slots, doc, read);
    OverwritesView(slots, doc, read);
    SplicedEntitiesCarry(store, profile, doc, targets, read, slot);
    CarriesEverywhere(slots, slot, store, read, []);
  }

  /** Everything that lets a read of the document trust recorded values. */
  ghost predicate Trusted(b: Basis, store: Statements, doc: Json, unread: seq<Slot>)
  {
    && Grounded(b) && Justified(b, store) && PathsAreNames(b.profile)
    && FingerprintsDetermine(b.profile, b.f, b.occurs) && AllOccur(b.occurs, CalcTargets(doc, b.profile))
    && Readable(b.profile, b.f, doc, unread) && OwnersAreTargets(b.profile, doc)
    && EverySlotFresh(store, b.profile, CalcTargets(doc, b.profile))
  }

  lemma {:induction false} EvaluatedEntityCarries(
      b: Basis, store: Statements, doc: Json, e: Json, unread: seq<Slot>, slot: Slot, k: nat)
    requires Trusted(b, store, doc, unread) && slot in b.trusted && e == Evaluate(b.profile, b.f, doc)
    requires Overwrites(ByStratum(b.profile), doc, e) && k < |Entities(e, [])|
    ensures CarriesOne(slot, store, Entities(e, [])[k].entity)
  {
    SamePlaceEntity(ByStratum(b.profile), doc, e, k);
    var o, p := Entities(doc, [])[k], Entities(e, [])[k];
    assert o in Entities(doc, []) && p in Entities(e, []);
    EntitiesAt(e, [], p);
    if Matches(slot, p.entity) {
      SlotsOfMember(b.profile, o.typeName, slot);
      FreshValue(b, store, CalcTargets(doc, b.profile), o, slot);
      assert SameView(unread, [], o.entity, p.entity) by {
        EvaluatedInputsAlike(b.profile, b.f, doc, unread);
        SameEntities(unread, [], doc, e, k);
      }
      EvaluatedValue(b.profile, b.f, doc, p, slot);
      CarriesCurrent(store, slot, o, p.entity);
    }
  }

  lemma {:induction false} EvaluatedCarries(b: Basis, store: Statements, doc: Json, e: Json, unread: seq<Slot>, slot: Slot)
    requires Trusted(b, store, doc, unread) && slot in b.trusted && e == Evaluate(b.profile, b.f, doc)
    requires Overwrites(ByStratum(b.profile), doc, e)
    ensures Carries(slot, store, e)
  {
    var slots := ByStratum(b.profile);
    SameMembers(slots, b.profile);
    OverwritesTidy(slots, doc, e);
    OverwritesView(slots, doc, e);
    forall p | p in Entities(e, []) ensures CarriesOne(slot, store, p.entity) {
      var k :| 0 <= k < |Entities(e, [])| && Entities(e, [])[k] == p;
      EvaluatedEntityCarries(b, store, doc, e, unread, slot, k);
    }
    CarriesEverywhere(slots, slot, store, e, []);
  }

  /**
   * Coherence of whole documents, with or without recorded values in the document read: a
   * fresh read shows what evaluating that document gives, every record and every computed
   * property; only sidecars and the order of computed properties may differ.
   */
  lemma {:induction false} FreshReadShowsEvaluation(b: Basis, host: Host, store: Statements, doc: Json, unread: seq<Slot>)
    requires Grounded(b) && b.trusted == b.profile && Justified(b, store) && PathsAreNames(b.profile)
    requires FingerprintsDetermine(b.profile, b.f, b.occurs) && AllOccur(b.occurs, CalcTargets(doc, b.profile))
    requires Readable(b.profile, b.f, doc, unread) && OwnersAreTargets(b.profile, doc)
    requires OutputsAreFlat(doc, b.profile, CalcTargets(doc, b.profile))
    requires Verdict(store, b.profile, CalcTargets(doc, b.profile)) == FreshState
    ensures SameView(ByStratum(b.profile), ByStratum(b.profile),
                     ReadData(store, b.profile, b.f, host, doc), Evaluate(b.profile, b.f, doc))
  {
    var targets, slots := CalcTargets(doc, b.profile), ByStratum(b.profile);
    var read, e := Spliced(doc, store, b.profile, targets), Evaluate(b.profile, b.f, doc);
    assert Trusted(b, store, doc, unread);
    OverwrittenBoth(b, store, doc, targets, read, e);
    SameMembers(slots, b.profile);
    forall s | s in slots ensures Carries(s, store, read) && Carries(s, store, e) {
      SplicedCarries(store, b.profile, doc, targets, read, s);
      EvaluatedCarries(b, store, doc, e, unread, s);
    }
    CarryingView(slots, store, read, e);
  }

  lemma OverwrittenBoth(b: Basis, store: Statements, doc: Json, targets: seq<Occurrence>, read: Json, e: Json)
    requires Stratified(ByStratum(b.profile), b.f) && Tidy(ByStratum(b.profile), doc)
    requires targets == CalcTargets(doc, b.profile)
    requires read == Spliced(doc, store, b.profile, targets) && e == Evaluate(b.profile, b.f, doc)
    ensures Overwrites(ByStratum(b.profile), doc, read) && Overwrites(ByStratum(b.profile), doc, e)
    ensures SameView(ByStratum(b.profile), [], read, e)
  {
    var slots := ByStratum(b.profile);
    forall o | o in targets ensures o in Entities(doc, []) { TargetIsNode(doc, b.profile, o); }
    SplicedOverwrites(doc, store, b.profile, targets);
    OverwritesView(slots, doc, read);
    SlotsOverwrite(slots, slots, b.f, doc);
    OverwritesView(slots, doc, e);
  }

  /** The same in every store that edits and passes can reach from an empty one. */
  lemma {:induction false} ReachableReadShowsEvaluation(
      b: Basis, host: Host, steps: seq<Step>, doc: Json, unread: seq<Slot>)
    requires Grounded(b) && b.trusted == b.profile && PathsAreNames(b.profile)
    requires forall k :: 0 <= k < |steps| ==> Observes(b, steps[k].host, steps[k].doc)
    requires FingerprintsDetermine(b.profile, b.f, b.occurs) && AllOccur(b.occurs, CalcTargets(doc, b.profile))
    requires Readable(b.profile, b.f, doc, unread) && OwnersAreTargets(b.profile, doc)
    requires OutputsAreFlat(doc, b.profile, CalcTargets(doc, b.profile))
    requires Verdict(After(b.profile, b.f, steps), b.profile, CalcTargets(doc, b.profile)) == FreshState
    ensures SameView(ByStratum(b.profile), ByStratum(b.profile),
                     ReadData(After(b.profile, b.f, steps), b.profile, b.f, host, doc), Evaluate(b.profile, b.f, doc))
  {
    ReachableIsJustified(b, steps);
    FreshReadShowsEvaluation(b, host, After(b.profile, b.f, steps), doc, unread);
  }
}
