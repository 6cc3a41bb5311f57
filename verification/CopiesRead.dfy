/**
 * Reads of documents with records that are no targets: second copies of an entity, and stubs
 * with nothing but their id (packages/calc-engine/src/readCalcValues.ts:226-234). A fresh read
 * sets values on targets only; it shows what evaluation gives exactly if the other records
 * carry their values already.
 */
module CopiesRead {
  import opened Strings
  import opened Json
  import opened Canonical
  import opened Profiles
  import opened Fingerprints
  import opened Targets
  import opened Views
  import opened Evaluator
  import opened Roots
  import opened Statements
  import opened Warm
  import opened ReadCalcValues
  import opened Addresses
  import opened Inputs
  import opened Coherence
  import opened WarmThenRead
  import opened FreshReads

  /** Record k carries the value that evaluation gives it. */
  ghost predicate CopyCurrent(doc: Json, e: Json, k: nat, slot: Slot)
    requires k < |Entities(doc, [])|
  {
    var o := Entities(doc, [])[k].entity;
    && k < |Entities(e, [])| && o.Obj? && Entities(e, [])[k].entity.Obj?
    && HasKey(o.fields, slot.propertyName)
    && Lookup(o.fields, slot.propertyName) == Lookup(Entities(e, [])[k].entity.fields, slot.propertyName)
  }

  ghost predicate CopiesCurrent(profile: Profile, doc: Json, e: Json)
  {
    forall k: nat, slot :: IsCopy(profile, doc, k, slot) ==> CopyCurrent(doc, e, k, slot)
  }

  /** Record k owns the slot and is no target. */
  ghost predicate IsCopy(profile: Profile, doc: Json, k: nat, slot: Slot)
  {
    && k < |Entities(doc, [])| && Entities(doc, [])[k] !in CalcTargets(doc, profile)
    && slot in profile && Owns(slot, Entities(doc, [])[k].typeName)
  }

  /** Computed properties hold no records. */
  ghost predicate FlatOwners(profile: Profile, doc: Json)
  {
    && (forall o :: o in Entities(doc, []) ==> FlatTarget(doc, profile, o))
    && OwnersNamed(ByStratum(profile), ViewOf(ByStratum(profile), [], doc))
  }

  // ----- the splice leaves other records alone -----

  lemma {:induction false} PatchOtherKeys(
      v: Json, at: seq<nat>, store: Statements, o: Occurrence, slots: seq<Slot>, b: seq<nat>, key: string)
    requires at != b && NodeAt(v, b).Obj?
    requires NodeAt(v, at).Obj? && FlatOutputs(NodeAt(v, at).fields, slots)
    ensures var r := NodeAt(Patch(v, at, store, o, slots), b);
      r.Obj? && HasKey(r.fields, key) == HasKey(NodeAt(v, b).fields, key)
    decreases |at| + |b|
  {
    PatchKeepsRecord(v, at, store, o, slots, b);
    if at == [] {
      var i := b[0];
      RecordPathNotFlat(Children(v)[i], b[1..]);
      assert v.fields[i].value == Children(v)[i];
      SetAllKeepsRecords(v.fields, store, o, slots, i);
      var r := Patch(v, at, store, o, slots);
      assert Children(r)[i] == r.fields[i].value == Children(v)[i];
    } else {
      var child := Children(v)[at[0]];
      if b == [] {
        assert v.fields[at[0]].value == child;
        var r := Patch(v, at, store, o, slots);
        assert forall j :: 0 <= j < |v.fields| ==> r.fields[j].key == v.fields[j].key;
      } else if b[0] == at[0] {
        assert at == [at[0]] + at[1..] && b == [b[0]] + b[1..];
        PatchOtherKeys(child, at[1..], store, o, slots, b[1..], key);
      }
    }
  }

  lemma {:induction false} UnsplicedField(
      doc: Json, store: Statements, profile: Profile, targets: seq<Occurrence>, n: nat, b: seq<nat>, key: string)
    requires n <= |targets| && OutputsAreFlat(doc, profile, targets) && forall t :: t in targets ==> t.at != b
    requires NodeAt(doc, b).Obj? && IsFlat(Lookup(NodeAt(doc, b).fields, key))
    ensures var r := NodeAt(Spliced(doc, store, profile, targets[..n]), b);
      && r.Obj? && Lookup(r.fields, key) == Lookup(NodeAt(doc, b).fields, key)
      && HasKey(r.fields, key) == HasKey(NodeAt(doc, b).fields, key)
  {
    if n > 0 {
      UnsplicedField(doc, store, profile, targets, n - 1, b, key);
      assert targets[..n][..n - 1] == targets[..n - 1];
      var before, last := Spliced(doc, store, profile, targets[..n - 1]), targets[n - 1];
      SplicedFlat(doc, store, profile, targets, n - 1);
      assert last in targets && FlatTarget(before, profile, last);
      PatchOther(before, last.at, store, last, SlotsOf(profile, last.typeName), b, key);
      PatchOtherKeys(before, last.at, store, last, SlotsOf(profile, last.typeName), b, key);
    }
  }

  /** A record at the place of a target is that target. */
  lemma OnePlaceOneEntity(doc: Json, profile: Profile, o: Occurrence)
    requires o in Entities(doc, []) && o !in CalcTargets(doc, profile)
    ensures forall t :: t in CalcTargets(doc, profile) ==> t.at != o.at
  {
    EntitiesAt(doc, [], o);
    assert o.at[0..] == o.at;
    forall t | t in CalcTargets(doc, profile) ensures t.at != o.at {
      TargetIsNode(doc, profile, t);
    }
  }

  /** A record that is no target keeps its own outputs. */
  lemma CopyUnspliced(
      store: Statements, profile: Profile, doc: Json, read: Json, k: nat, slot: Slot)
    requires FlatOwners(profile, doc) && IsCopy(profile, doc, k, slot)
    requires OutputsAreFlat(doc, profile, CalcTargets(doc, profile))
    requires read == Spliced(doc, store, profile, CalcTargets(doc, profile))
    ensures var o, r := Entities(doc, [])[k], NodeAt(read, Entities(doc, [])[k].at);
      && o.entity.Obj? && IsFlat(Lookup(o.entity.fields, slot.propertyName)) && r.Obj?
      && Lookup(r.fields, slot.propertyName) == Lookup(o.entity.fields, slot.propertyName)
      && HasKey(r.fields, slot.propertyName) == HasKey(o.entity.fields, slot.propertyName)
  {
    var o, targets := Entities(doc, [])[k], CalcTargets(doc, profile);
    assert o in Entities(doc, []) && FlatTarget(doc, profile, o);
    EntitiesAt(doc, [], o);
    assert o.at[0..] == o.at;
    SlotsOfMember(profile, o.typeName, slot);
    OnePlaceOneEntity(doc, profile, o);
    UnsplicedField(doc, store, profile, targets, |targets|, o.at, slot.propertyName);
    assert targets[..|targets|] == targets;
  }

  // ----- a fresh read and the evaluation -----

  /** What lets a fresh read be trusted on its targets. */
  ghost predicate FreshFor(b: Basis, store: Statements, doc: Json, unread: seq<Slot>)
  {
    && Grounded(b) && b.trusted == b.profile && Justified(b, store) && PathsAreNames(b.profile)
    && FingerprintsDetermine(b.profile, b.f, b.occurs) && AllOccur(b.occurs, CalcTargets(doc, b.profile))
    && Readable(b.profile, b.f, doc, unread) && FlatOwners(b.profile, doc)
    && OutputsAreFlat(doc, b.profile, CalcTargets(doc, b.profile))
    && EverySlotFresh(store, b.profile, CalcTargets(doc, b.profile))
  }

  /** Read and evaluation, record by record. */
  ghost predicate SideBySide(b: Basis, store: Statements, doc: Json, read: Json, e: Json)
  {
    && read == Spliced(doc, store, b.profile, CalcTargets(doc, b.profile)) && e == Evaluate(b.profile, b.f, doc)
    && Overwrites(ByStratum(b.profile), doc, read) && Overwrites(ByStratum(b.profile), doc, e)
    && SameView(ByStratum(b.profile), [], read, e)
  }

  /** Evaluation changes nothing the formula reads. */
  lemma {:induction false} FormulaKept(profile: Profile, f: Formula, doc: Json, unread: seq<Slot>, e: Json, k: nat, slot: Slot)
    requires Readable(profile, f, doc, unread) && e == Evaluate(profile, f, doc) && slot in profile
    requires k < |Entities(doc, [])|
    ensures k < |Entities(e, [])| && f(slot, Entities(doc, [])[k].entity) == f(slot, Entities(e, [])[k].entity)
  {
    EvaluatedInputsAlike(profile, f, doc, unread);
    SameEntities(unread, [], doc, e, k);
    assert SameView(unread, [], Entities(doc, [])[k].entity, Entities(e, [])[k].entity);
    assert ReadsShown(f, unread, [], slot);
  }

  lemma ServedKey(fields: seq<Field>, key: string, nodes: seq<Statement>)
    requires nodes != [] && Lookup(fields, key) == nodes[|nodes| - 1].value
    ensures HasKey(fields, key)
  {
    if !HasKey(fields, key) { LookupMissing(fields, key); }
  }

  lemma {:induction false} TargetSpliced(
      b: Basis, store: Statements, doc: Json, targets: seq<Occurrence>, o: Occurrence, slot: Slot)
    requires targets == CalcTargets(doc, b.profile) && EverySlotFresh(store, b.profile, targets)
    requires OutputsAreFlat(doc, b.profile, targets) && o in targets && slot in b.profile && Owns(slot, o.typeName)
    requires Grounded(b) && slot in b.trusted && Justified(b, store) && PathsAreNames(b.profile)
    requires FingerprintsDetermine(b.profile, b.f, b.occurs) && Occurs(b.occurs, o.typeName, o.entity)
    ensures var r := NodeAt(Spliced(doc, store, b.profile, targets), o.at);
      && r.Obj? && HasKey(r.fields, slot.propertyName)
      && Lookup(r.fields, slot.propertyName) == b.f(slot, o.entity)
  {
    SplicedTargetCarries(store, b.profile, doc, targets, o, slot);
    FreshValue(b, store, targets, o, slot);
    ServedKey(NodeAt(Spliced(doc, store, b.profile, targets), o.at).fields, slot.propertyName, Nodes(store, o, slot));
  }

  /** A target has the value of the formula in the read. */
  lemma {:induction false} TargetServed(
      b: Basis, store: Statements, doc: Json, unread: seq<Slot>, read: Json, e: Json, k: nat, slot: Slot)
    requires FreshFor(b, store, doc, unread) && SideBySide(b, store, doc, read, e) && slot in b.profile
    requires k < |Entities(doc, [])| && Entities(doc, [])[k] in CalcTargets(doc, b.profile)
    requires Owns(slot, Entities(doc, [])[k].typeName)
    ensures var r := NodeAt(read, Entities(doc, [])[k].at);
      && r.Obj? && HasKey(r.fields, slot.propertyName)
      && k < |Entities(e, [])| && Lookup(r.fields, slot.propertyName) == b.f(slot, Entities(e, [])[k].entity)
  {
    var o := Entities(doc, [])[k];
    TargetSpliced(b, store, doc, CalcTargets(doc, b.profile), o, slot);
    FormulaKept(b.profile, b.f, doc, unread, e, k, slot);
  }

  /** Every owner has the value of the formula in the read, if the copies are current. */
  lemma {:induction false} OwnerServed(
      b: Basis, store: Statements, doc: Json, unread: seq<Slot>, read: Json, e: Json, k: nat, slot: Slot)
    requires FreshFor(b, store, doc, unread) && SideBySide(b, store, doc, read, e) && slot in b.profile
    requires CopiesCurrent(b.profile, doc, e) && k < |Entities(doc, [])| && Owns(slot, Entities(doc, [])[k].typeName)
    ensures var r := NodeAt(read, Entities(doc, [])[k].at);
      && r.Obj? && HasKey(r.fields, slot.propertyName)
      && k < |Entities(e, [])| && Lookup(r.fields, slot.propertyName) == b.f(slot, Entities(e, [])[k].entity)
  {
    if Entities(doc, [])[k] in CalcTargets(doc, b.profile) {
      TargetServed(b, store, doc, unread, read, e, k, slot);
    } else {
      assert IsCopy(b.profile, doc, k, slot) && CopyCurrent(doc, e, k, slot);
      CopyUnspliced(store, b.profile, doc, read, k, slot);
      SamePlaceEntity(ByStratum(b.profile), doc, e, k);
      assert Entities(e, [])[k] in Entities(e, []);
      EvaluatedValue(b.profile, b.f, doc, Entities(e, [])[k], slot);
    }
  }

  /** The next slot's formula sees no difference between read and evaluation. */
  lemma {:induction false} NextFormula(slots: seq<Slot>, f: Formula, read: Json, e: Json, i: nat, k: nat)
    requires Stratified(slots, f) && i < |slots| && SameView(slots, slots[..i], read, e)
    requires Tidy(slots, read) && Tidy(slots, e) && k < |Entities(read, [])|
    ensures k < |Entities(e, [])| && f(slots[i], Entities(read, [])[k].entity) == f(slots[i], Entities(e, [])[k].entity)
  {
    SameEntityView(slots, slots[..i], read, e, k);
    assert ReadsShown(f, slots, slots[..i], slots[i]);
  }

  lemma SlotListed(profile: Profile, i: nat)
    requires i < |ByStratum(profile)|
    ensures ByStratum(profile)[i] in profile
  {
    SameMembers(ByStratum(profile), profile);
    assert ByStratum(profile)[i] in ByStratum(profile);
  }

  /** The equation of the next slot, on one record of the read. */
  lemma {:induction false} EntityEquation(
      b: Basis, store: Statements, doc: Json, unread: seq<Slot>, read: Json, e: Json, i: nat, k: nat)
    requires FreshFor(b, store, doc, unread) && SideBySide(b, store, doc, read, e) && CopiesCurrent(b.profile, doc, e)
    requires i < |ByStratum(b.profile)| && SameView(ByStratum(b.profile), ByStratum(b.profile)[..i], read, e)
    requires k < |Entities(read, [])|
    ensures Equation(ByStratum(b.profile)[i], b.f, Entities(read, [])[k].entity)
  {
    var slots := ByStratum(b.profile);
    SlotListed(b.profile, i);
    SamePlaceEntity(slots, doc, read, k);
    if Matches(slots[i], Entities(read, [])[k].entity) {
      OwnerServed(b, store, doc, unread, read, e, k, slots[i]);
      OverwritesTidy(slots, doc, read);
      OverwritesTidy(slots, doc, e);
      NextFormula(slots, b.f, read, e, i, k);
    }
  }

  /** The records at one position of two trees of one view have one view. */
  lemma SameEntityView(slots: seq<Slot>, known: seq<Slot>, v: Json, w: Json, k: nat)
    requires SameView(slots, known, v, w) && Tidy(slots, v) && Tidy(slots, w) && DataNames(slots)
    requires k < |Entities(v, [])|
    ensures k < |Entities(w, [])| && SameView(slots, known, Entities(v, [])[k].entity, Entities(w, [])[k].entity)
  {
    EntitiesSeen(slots, known, v, []);
    EntitiesSeen(slots, known, w, []);
    var a, b := SeenOf(slots, known, Entities(v, [])), SeenOf(slots, known, Entities(w, []));
    assert a == b && a[k] == b[k];
  }

  /** If all collected entities satisfy a slot's equation, all records do. */
  lemma {:induction false} SolvesEverywhere(slots: seq<Slot>, slot: Slot, f: Formula, v: Json, at: seq<nat>)
    requires Tidy(slots, v) && DataNames(slots) && slot in slots && OwnersNamed(slots, ViewOf(slots, [], v))
    requires forall o :: o in Entities(v, at) ==> Equation(slot, f, o.entity)
    ensures Solves(slot, f, v)
    decreases v
  {
    if Matches(slot, v) {
      var k :| 0 <= k < |slots| && slots[k] == slot;
      OwnSeen(slots, [], v, at);
      assert Own(v, at) != [];
      assert Own(v, at)[0] in Entities(v, at) && Own(v, at)[0].entity == v;
    }
    forall i | 0 <= i < |Children(v)| ensures Solves(slot, f, Children(v)[i]) {
      ChildTidy(slots, v, i);
      if v.Obj? && Dropped(slots, EntityType(v), v.fields[i].key) {
        InertSolves(slot, f, v.fields[i].value);
      } else {
        ChildNamed(slots, v, i);
        forall o | o in Entities(Children(v)[i], at + [i]) ensures o in Entities(v, at) {
          ConcatContains(Below(v, at), i, o);
        }
        SolvesEverywhere(slots, slot, f, Children(v)[i], at + [i]);
      }
    }
  }

  /** If equal views so far give the next equation, all equations hold. */
  ghost predicate StepByStep(slots: seq<Slot>, f: Formula, v: Json, w: Json)
  {
    forall i: nat :: i < |slots| && SameView(slots, slots[..i], v, w) ==> Solves(slots[i], f, v)
  }

  lemma {:induction false} SolvesInTurn(slots: seq<Slot>, f: Formula, v: Json, w: Json, n: nat)
    requires Stratified(slots, f) && n <= |slots| && SameView(slots, [], v, w) && StepByStep(slots, f, v, w)
    requires forall s :: s in slots ==> Solves(s, f, w)
    ensures forall s :: s in slots[..n] ==> Solves(s, f, v)
    ensures SameView(slots, slots[..n], v, w)
  {
    if n > 0 {
      SolvesInTurn(slots, f, v, w, n - 1);
      assert Solves(slots[n - 1], f, v);
      assert slots[..n] == slots[..n - 1] + [slots[n - 1]];
    }
    SolvedPrefixView(slots, f, n, v, w);
  }

  /** Trees that satisfy the first equations, and show the same without outputs, show the same with them. */
  lemma SolvedPrefixView(slots: seq<Slot>, f: Formula, n: nat, v: Json, w: Json)
    requires Stratified(slots, f) && n <= |slots| && SameView(slots, [], v, w)
    requires forall s :: s in slots[..n] ==> Solves(s, f, v)
    requires forall s :: s in slots ==> Solves(s, f, w)
    ensures SameView(slots, slots[..n], v, w)
  {
    PrefixView(slots, f, n, v, w);
    EvaluateSolved(slots[..n], f, v);
    forall s | s in slots[..n] ensures Solves(s, f, w) { assert s in slots; }
    EvaluateSolved(slots[..n], f, w);
  }

  lemma ReadNamesOwners(b: Basis, doc: Json, read: Json)
    requires Overwrites(ByStratum(b.profile), doc, read) && Tidy(ByStratum(b.profile), doc)
    requires DataNames(ByStratum(b.profile)) && FlatOwners(b.profile, doc)
    ensures Tidy(ByStratum(b.profile), read)
    ensures OwnersNamed(ByStratum(b.profile), ViewOf(ByStratum(b.profile), [], read))
  {
    OverwritesTidy(ByStratum(b.profile), doc, read);
    OverwritesView(ByStratum(b.profile), doc, read);
  }

  lemma {:induction false} SolvesNext(
      b: Basis, store: Statements, doc: Json, unread: seq<Slot>, read: Json, e: Json, i: nat)
    requires FreshFor(b, store, doc, unread) && SideBySide(b, store, doc, read, e) && CopiesCurrent(b.profile, doc, e)
    requires i < |ByStratum(b.profile)| && SameView(ByStratum(b.profile), ByStratum(b.profile)[..i], read, e)
    ensures Solves(ByStratum(b.profile)[i], b.f, read)
  {
    var slots := ByStratum(b.profile);
    forall p | p in Entities(read, []) ensures Equation(slots[i], b.f, p.entity) {
      var k :| 0 <= k < |Entities(read, [])| && Entities(read, [])[k] == p;
      EntityEquation(b, store, doc, unread, read, e, i, k);
    }
    ReadNamesOwners(b, doc, read);
    SolvesEverywhere(slots, slots[i], b.f, read, []);
  }

  /** What the read shows of a copy is what the document had. */
  lemma {:induction false} ShownCopyIsCurrent(
      b: Basis, store: Statements, doc: Json, unread: seq<Slot>, read: Json, e: Json, k: nat, slot: Slot)
    requires FreshFor(b, store, doc, unread) && SideBySide(b, store, doc, read, e)
    requires SameView(ByStratum(b.profile), ByStratum(b.profile), read, e) && IsCopy(b.profile, doc, k, slot)
    ensures CopyCurrent(doc, e, k, slot)
  {
    var slots := ByStratum(b.profile);
    SameMembers(slots, b.profile);
    OverwritesTidy(slots, doc, read);
    OverwritesTidy(slots, doc, e);
    CopyUnspliced(store, b.profile, doc, read, k, slot);
    SamePlaceEntity(slots, doc, read, k);
    SamePlaceEntity(slots, doc, e, k);
    SameEntityView(slots, slots, read, e, k);
    var p, q := Entities(read, [])[k], Entities(e, [])[k];
    assert q in Entities(e, []);
    EvaluatedValue(b.profile, b.f, doc, q, slot);
    LookupView(slots, slots, p.entity, q.entity, slot.propertyName);
    FlatView(slots, slots, Lookup(p.entity.fields, slot.propertyName), Lookup(q.entity.fields, slot.propertyName));
  }

  /**
   * A fresh read shows what evaluating the document gives, if and only if every record that owns
   * slots and is no target carries the values evaluation gives it already.
   */
  lemma {:induction false} FreshReadShowsIff(b: Basis, host: Host, store: Statements, doc: Json, unread: seq<Slot>)
    requires FreshFor(b, store, doc, unread) && Verdict(store, b.profile, CalcTargets(doc, b.profile)) == FreshState
    ensures SameView(ByStratum(b.profile), ByStratum(b.profile),
                     ReadData(store, b.profile, b.f, host, doc), Evaluate(b.profile, b.f, doc))
            <==> CopiesCurrent(b.profile, doc, Evaluate(b.profile, b.f, doc))
  {
    var read, e := Spliced(doc, store, b.profile, CalcTargets(doc, b.profile)), Evaluate(b.profile, b.f, doc);
    assert SideBySide(b, store, doc, read, e) by {
      OverwrittenBoth(b, store, doc, CalcTargets(doc, b.profile), read, e);
    }
    SidesAgreeIff(b, store, doc, unread, read, e);
  }

  lemma {:induction false} SidesAgreeIff(b: Basis, store: Statements, doc: Json, unread: seq<Slot>, read: Json, e: Json)
    requires FreshFor(b, store, doc, unread) && SideBySide(b, store, doc, read, e)
    ensures SameView(ByStratum(b.profile), ByStratum(b.profile), read, e) <==> CopiesCurrent(b.profile, doc, e)
  {
    var slots := ByStratum(b.profile);
    if SameView(slots, slots, read, e) {
      forall k: nat, slot | IsCopy(b.profile, doc, k, slot) ensures CopyCurrent(doc, e, k, slot) {
        ShownCopyIsCurrent(b, store, doc, unread, read, e, k, slot);
      }
    }
    if CopiesCurrent(b.profile, doc, e) {
      forall i: nat | i < |slots| && SameView(slots, slots[..i], read, e) ensures Solves(slots[i], b.f, read) {
        SolvesNext(b, store, doc, unread, read, e, i);
      }
      EvaluateSolves(slots, b.f, doc);
      SolvesInTurn(slots, b.f, read, e, |slots|);
      assert slots[..|slots|] == slots;
    }
  }

  /** A stub of an owning type, with nothing but its id, is never served its values. */
  lemma {:induction false} StubIsNotServed(
      b: Basis, host: Host, store: Statements, doc: Json, unread: seq<Slot>, k: nat, slot: Slot)
    requires FreshFor(b, store, doc, unread) && Verdict(store, b.profile, CalcTargets(doc, b.profile)) == FreshState
    requires IsCopy(b.profile, doc, k, slot) && Entities(doc, [])[k].entity.Obj?
    requires !HasKey(Entities(doc, [])[k].entity.fields, slot.propertyName)
    ensures !SameView(ByStratum(b.profile), ByStratum(b.profile),
                      ReadData(store, b.profile, b.f, host, doc), Evaluate(b.profile, b.f, doc))
  {
    FreshReadShowsIff(b, host, store, doc, unread);
    assert !CopyCurrent(doc, Evaluate(b.profile, b.f, doc), k, slot);
  }
}
