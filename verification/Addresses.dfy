/**
 * Evaluation and splicing overwrite computed properties in place or append them. The records
 * of a document keep their addresses, and nothing else about them changes.
 */
module Addresses {
  import opened Strings
  import opened Json
  import opened Canonical
  import opened Profiles
  import opened Fingerprints
  import opened Targets
  import opened Views
  import opened Evaluator
  import opened Statements
  import opened Warm
  import opened ReadCalcValues

  /** w is v with other values for outputs and sidecars, or further ones, that hold no records. */
  ghost predicate Overwrites(slots: seq<Slot>, v: Json, w: Json)
    decreases v
  {
    match v
    case Arr(items) =>
      w.Arr? && |w.items| == |items| && forall i :: 0 <= i < |items| ==> Overwrites(slots, items[i], w.items[i])
    case Obj(fields) =>
      && w.Obj? && EntityType(w) == EntityType(v) && |fields| <= |w.fields|
      && (forall i :: 0 <= i < |fields| ==> OverwritesField(slots, EntityType(v), fields[i], w.fields[i]))
      && (forall i :: |fields| <= i < |w.fields| ==>
            Dropped(slots, EntityType(v), w.fields[i].key) && Inert(w.fields[i].value))
    case _ => w == v
  }

  ghost predicate OverwritesField(slots: seq<Slot>, typeName: Option<string>, a: Field, b: Field)
    decreases a
  {
    && a.key == b.key
    && if Dropped(slots, typeName, a.key) then Inert(a.value) && Inert(b.value) else Overwrites(slots, a.value, b.value)
  }

  lemma {:induction false} OverwritesItself(slots: seq<Slot>, v: Json)
    requires Tidy(slots, v)
    ensures Overwrites(slots, v, v)
    decreases v
  {
    if v.Arr? {
      forall i | 0 <= i < |v.items| ensures Overwrites(slots, v.items[i], v.items[i]) {
        ChildTidy(slots, v, i);
        assert Children(v)[i] == v.items[i];
        OverwritesItself(slots, v.items[i]);
      }
    } else if v.Obj? {
      forall i | 0 <= i < |v.fields| ensures OverwritesField(slots, EntityType(v), v.fields[i], v.fields[i]) {
        ChildTidy(slots, v, i);
        assert Children(v)[i] == v.fields[i].value && Children(v)[i] < v;
        if !Dropped(slots, EntityType(v), v.fields[i].key) { OverwritesItself(slots, v.fields[i].value); }
      }
    }
  }

  lemma {:induction false} OverwritesOnce(slots: seq<Slot>, u: Json, v: Json, w: Json)
    requires Overwrites(slots, u, v) && Overwrites(slots, v, w)
    ensures Overwrites(slots, u, w)
    decreases u
  {
    if u.Arr? {
      forall i | 0 <= i < |u.items| ensures Overwrites(slots, u.items[i], w.items[i]) {
        OverwritesOnce(slots, u.items[i], v.items[i], w.items[i]);
      }
    } else if u.Obj? {
      forall i | 0 <= i < |u.fields| ensures OverwritesField(slots, EntityType(u), u.fields[i], w.fields[i]) {
        assert OverwritesField(slots, EntityType(u), u.fields[i], v.fields[i]);
        assert OverwritesField(slots, EntityType(u), v.fields[i], w.fields[i]);
        assert u.fields[i] < u;
        if !Dropped(slots, EntityType(u), u.fields[i].key) {
          OverwritesOnce(slots, u.fields[i].value, v.fields[i].value, w.fields[i].value);
        }
      }
      forall i | |u.fields| <= i < |w.fields|
        ensures Dropped(slots, EntityType(u), w.fields[i].key) && Inert(w.fields[i].value)
      {
        if i < |v.fields| { assert OverwritesField(slots, EntityType(u), v.fields[i], w.fields[i]); }
      }
    }
  }

  // ----- what stays -----

  lemma {:induction false} AppendedCore(slots: seq<Slot>, known: seq<Slot>, typeName: Option<string>, fields: seq<Field>)
    requires forall i :: 0 <= i < |fields| ==> Dropped(slots, typeName, fields[i].key)
    ensures CoreViews(slots, known, typeName, fields) == []
  {
    if fields != [] {
      AppendedCore(slots, known, typeName, fields[1..]);
    }
  }

  /** The view without known outputs is the same. */
  lemma {:induction false} OverwritesView(slots: seq<Slot>, v: Json, w: Json)
    requires Overwrites(slots, v, w)
    ensures SameView(slots, [], v, w)
    decreases v, 1
  {
    if v.Arr? {
      forall i | 0 <= i < |v.items| ensures SameView(slots, [], v.items[i], w.items[i]) {
        OverwritesView(slots, v.items[i], w.items[i]);
      }
    } else if v.Obj? {
      OverwrittenCore(slots, EntityType(v), v.fields, w.fields);
    }
  }

  lemma {:induction false} OverwrittenCore(slots: seq<Slot>, typeName: Option<string>, fs: seq<Field>, gs: seq<Field>)
    requires |fs| <= |gs| && forall i :: 0 <= i < |fs| ==> OverwritesField(slots, typeName, fs[i], gs[i])
    requires forall i :: |fs| <= i < |gs| ==> Dropped(slots, typeName, gs[i].key)
    ensures CoreViews(slots, [], typeName, fs) == CoreViews(slots, [], typeName, gs)
    decreases fs, 0
  {
    if fs == [] {
      AppendedCore(slots, [], typeName, gs);
    } else {
      assert OverwritesField(slots, typeName, fs[0], gs[0]);
      forall i | 0 <= i < |fs[1..]| ensures OverwritesField(slots, typeName, fs[1..][i], gs[1..][i]) {
        assert OverwritesField(slots, typeName, fs[i + 1], gs[i + 1]);
      }
      OverwrittenCore(slots, typeName, fs[1..], gs[1..]);
      if !Dropped(slots, typeName, fs[0].key) { OverwritesView(slots, fs[0].value, gs[0].value); }
    }
  }

  lemma {:induction false} OverwritesTidy(slots: seq<Slot>, v: Json, w: Json)
    requires Overwrites(slots, v, w) && Tidy(slots, v)
    ensures Tidy(slots, w)
    decreases v
  {
    if v.Arr? {
      forall i | 0 <= i < |Children(w)| ensures Tidy(slots, Children(w)[i]) {
        ChildTidy(slots, v, i);
        assert Children(v)[i] == v.items[i] && Children(w)[i] == w.items[i];
        OverwritesTidy(slots, v.items[i], w.items[i]);
      }
    } else if v.Obj? {
      forall i | 0 <= i < |w.fields|
        ensures Tidy(slots, w.fields[i].value)
        ensures Dropped(slots, EntityType(w), w.fields[i].key) ==> Inert(w.fields[i].value)
      {
        if i < |v.fields| {
          assert OverwritesField(slots, EntityType(v), v.fields[i], w.fields[i]) && v.fields[i] < v;
          if !Dropped(slots, EntityType(v), v.fields[i].key) {
            ChildTidy(slots, v, i);
            assert Children(v)[i] == v.fields[i].value;
            OverwritesTidy(slots, v.fields[i].value, w.fields[i].value);
          }
        }
        if Dropped(slots, EntityType(w), w.fields[i].key) { InertIsTidy(slots, w.fields[i].value); }
      }
      assert forall i :: 0 <= i < |w.fields| ==> Children(w)[i] == w.fields[i].value;
    }
  }

  function Ats(all: seq<Occurrence>): (r: seq<seq<nat>>)
    ensures |r| == |all|
  {
    seq(|all|, i requires 0 <= i < |all| => all[i].at)
  }

  lemma AtsConcat(a: seq<Occurrence>, b: seq<Occurrence>)
    ensures Ats(a + b) == Ats(a) + Ats(b)
  {
  }

  lemma {:induction false} ConcatAts(a: seq<seq<Occurrence>>, b: seq<seq<Occurrence>>)
    requires |a| <= |b| && forall i :: 0 <= i < |a| ==> Ats(a[i]) == Ats(b[i])
    requires forall i :: |a| <= i < |b| ==> b[i] == []
    ensures Ats(Concat(a)) == Ats(Concat(b))
  {
    if b != [] {
      AtsConcat(b[0], Concat(b[1..]));
      if a == [] {
        ConcatAts([], b[1..]);
      } else {
        AtsConcat(a[0], Concat(a[1..]));
        ConcatAts(a[1..], b[1..]);
      }
    }
  }

  /** Every entity keeps its address. */
  lemma {:induction false} AddressesKept(slots: seq<Slot>, v: Json, w: Json, at: seq<nat>)
    requires Overwrites(slots, v, w) && DataNames(slots)
    ensures Ats(Entities(v, at)) == Ats(Entities(w, at))
    decreases v
  {
    OverwritesView(slots, v, w);
    IdView(slots, [], v, w);
    AtsConcat(Own(v, at), Concat(Below(v, at)));
    AtsConcat(Own(w, at), Concat(Below(w, at)));
    var a, b := Below(v, at), Below(w, at);
    forall i | 0 <= i < |a| ensures Ats(a[i]) == Ats(b[i]) {
      var c, d := Children(v)[i], Children(w)[i];
      if v.Arr? {
        AddressesKept(slots, c, d, at + [i]);
      } else {
        assert OverwritesField(slots, EntityType(v), v.fields[i], w.fields[i]) && v.fields[i] < v;
        if Dropped(slots, EntityType(v), v.fields[i].key) {
          InertHasNoEntities(c, at + [i]);
          InertHasNoEntities(d, at + [i]);
        } else {
          AddressesKept(slots, c, d, at + [i]);
        }
      }
    }
    forall i | |a| <= i < |b| ensures b[i] == [] {
      InertHasNoEntities(Children(w)[i], at + [i]);
    }
    ConcatAts(a, b);
  }

  // ----- evaluation overwrites -----

  lemma {:induction false} SetFieldGrows(fields: seq<Field>, key: string, value: Json)
    ensures |SetField(fields, key, value)| >= |fields|
  {
    if fields != [] && fields[0].key != key {
      SetFieldGrows(fields[1..], key, value);
    }
  }

  lemma {:induction false} ApplyOverwrites(slots: seq<Slot>, slot: Slot, f: Formula, v: Json)
    requires Tidy(slots, v) && slot in slots && DataNames(slots) && FlatResults(f)
    ensures Overwrites(slots, v, ApplySlot(slot, f, v))
    decreases v
  {
    var r := ApplySlot(slot, f, v);
    if v.Arr? {
      forall i | 0 <= i < |v.items| ensures Overwrites(slots, v.items[i], r.items[i]) {
        ChildTidy(slots, v, i);
        assert Children(v)[i] == v.items[i];
        ApplyOverwrites(slots, slot, f, v.items[i]);
      }
    } else if v.Obj? {
      TypeKept(slot, f, v);
      SetFieldGrows(Visited(slot, f, v), slot.propertyName, f(slot, v));
      forall i | 0 <= i < |r.fields|
        ensures i < |v.fields| ==> OverwritesField(slots, EntityType(v), v.fields[i], r.fields[i])
        ensures i >= |v.fields| ==> Dropped(slots, EntityType(v), r.fields[i].key) && Inert(r.fields[i].value)
      {
        if i < |v.fields| { AppliedAt(slots, slot, f, v, i); }
        ReplacedAt(slots, slot, f, v, i);
      }
    }
  }

  lemma {:induction false} AppliedAt(slots: seq<Slot>, slot: Slot, f: Formula, v: Json, i: nat)
    requires v.Obj? && i < |v.fields| && Tidy(slots, v) && slot in slots && DataNames(slots) && FlatResults(f)
    ensures OverwritesField(slots, EntityType(v), v.fields[i], Visited(slot, f, v)[i])
    decreases v.fields[i]
  {
    ChildTidy(slots, v, i);
    assert Children(v)[i] == v.fields[i].value && v.fields[i] < v;
    if Dropped(slots, EntityType(v), v.fields[i].key) {
      InertApplied(slot, f, v.fields[i].value);
    } else {
      ApplyOverwrites(slots, slot, f, v.fields[i].value);
    }
  }

  /** Setting the output replaces one field, whatever it held, or adds one. */
  lemma ReplacedAt(slots: seq<Slot>, slot: Slot, f: Formula, v: Json, i: nat)
    requires v.Obj? && slot in slots && FlatResults(f) && Tidy(slots, v) && i < |ApplySlot(slot, f, v).fields|
    ensures var r := ApplySlot(slot, f, v);
      && (i >= |v.fields| ==> Dropped(slots, EntityType(v), r.fields[i].key) && Inert(r.fields[i].value))
      && (i < |v.fields| && r.fields[i] != Visited(slot, f, v)[i] ==>
            r.fields[i].key == v.fields[i].key && Dropped(slots, EntityType(v), v.fields[i].key)
            && Inert(v.fields[i].value) && Inert(r.fields[i].value))
  {
    FlatIsInert(f(slot, v));
    if Matches(slot, v) {
      SetFieldEntry(Visited(slot, f, v), slot.propertyName, f(slot, v), i);
      var k :| 0 <= k < |slots| && slots[k] == slot;
      assert IsOutput(slots, EntityType(v), slot.propertyName);
    }
  }

  lemma {:induction false} SlotsOverwrite(slots: seq<Slot>, applied: seq<Slot>, f: Formula, v: Json)
    requires Tidy(slots, v) && (forall s :: s in applied ==> s in slots) && DataNames(slots) && FlatResults(f)
    ensures Overwrites(slots, v, ApplySlots(applied, f, v))
  {
    if applied == [] {
      OverwritesItself(slots, v);
    } else {
      var n := |applied| - 1;
      var before := ApplySlots(applied[..n], f, v);
      SlotsOverwrite(slots, applied[..n], f, v);
      OverwritesTidy(slots, v, before);
      assert applied[n] in applied;
      ApplyOverwrites(slots, applied[n], f, before);
      OverwritesOnce(slots, v, before, ApplySlots(applied, f, v));
    }
  }

  // ----- splicing overwrites -----

  lemma {:induction false} SetAllOverwrites(
      slots: seq<Slot>, fields: seq<Field>, store: Statements, o: Occurrence, own: seq<Slot>)
    requires TidyFields(slots, Some(o.typeName), fields) && Tidy(slots, Obj(fields)) && DataNames(slots)
    requires EntityType(Obj(fields)) == Some(o.typeName)
    requires forall s :: s in own ==> s in slots && Owns(s, o.typeName)
    ensures Overwrites(slots, Obj(fields), Obj(SetAll(fields, store, o, own)))
  {
    if own == [] {
      OverwritesItself(slots, Obj(fields));
    } else {
      var n := |own| - 1;
      SetAllOverwrites(slots, fields, store, o, own[..n]);
      var before := SetAll(fields, store, o, own[..n]);
      assert own[n] in own;
      OverwritesTidy(slots, Obj(fields), Obj(before));
      var nodes := Nodes(store, o, own[n]);
      if nodes != [] {
        SetOverwrites(slots, own[n], before, nodes[|nodes| - 1].value);
        OverwritesOnce(slots, Obj(fields), Obj(before), Obj(SetAll(fields, store, o, own)));
      }
    }
  }

  lemma SetOverwrites(slots: seq<Slot>, slot: Slot, fields: seq<Field>, value: Json)
    requires Tidy(slots, Obj(fields)) && slot in slots && DataNames(slots) && IsFlat(value)
    requires EntityType(Obj(fields)).Some? && EntityType(Obj(fields)) == slot.owner
    ensures Overwrites(slots, Obj(fields), Obj(SetField(fields, slot.propertyName, value)))
  {
    var after := SetField(fields, slot.propertyName, value);
    var k :| 0 <= k < |slots| && slots[k] == slot;
    assert IsOutput(slots, slot.owner, slot.propertyName);
    SetFieldLookup(fields, slot.propertyName, value, "@type");
    SetFieldGrows(fields, slot.propertyName, value);
    FlatIsInert(value);
    OverwritesItself(slots, Obj(fields));
    forall i | 0 <= i < |after|
      ensures i < |fields| ==> OverwritesField(slots, slot.owner, fields[i], after[i])
      ensures i >= |fields| ==> Dropped(slots, slot.owner, after[i].key) && Inert(after[i].value)
    {
      SetFieldEntry(fields, slot.propertyName, value, i);
      if i < |fields| { assert OverwritesField(slots, slot.owner, fields[i], fields[i]); }
    }
  }

  /** Setting the recorded values of a target overwrites the document. */
  lemma {:induction false} PatchOverwrites(
      slots: seq<Slot>, v: Json, at: seq<nat>, store: Statements, o: Occurrence, own: seq<Slot>)
    requires Tidy(slots, v) && DataNames(slots) && EntityType(NodeAt(v, at)) == Some(o.typeName)
    requires forall s :: s in own ==> s in slots && Owns(s, o.typeName)
    ensures Overwrites(slots, v, Patch(v, at, store, o, own))
    decreases |at|
  {
    OverwritesItself(slots, v);
    if at == [] {
      SetAllOverwrites(slots, v.fields, store, o, own);
    } else {
      var i := at[0];
      ChildTidy(slots, v, i);
      var child := Patch(Children(v)[i], at[1..], store, o, own);
      PatchOverwrites(slots, Children(v)[i], at[1..], store, o, own);
      TypedIsNotInert(Children(v)[i], at[1..]);
      ChildOverwrites(slots, v, i, child);
    }
  }

  lemma ChildOverwrites(slots: seq<Slot>, v: Json, i: nat, child: Json)
    requires i < |Children(v)| && Tidy(slots, v) && DataNames(slots) && Overwrites(slots, v, v)
    requires Overwrites(slots, Children(v)[i], child) && !IsFlat(Children(v)[i]) && !Inert(Children(v)[i])
    ensures Overwrites(slots, v, WithChild(v, i, child))
  {
    var r := WithChild(v, i, child);
    if v.Obj? {
      ReplacedField(v.fields, i, child, "@type");
      forall k | 0 <= k < |v.fields| ensures OverwritesField(slots, EntityType(v), v.fields[k], r.fields[k]) {
        assert OverwritesField(slots, EntityType(v), v.fields[k], v.fields[k]);
        assert Children(v)[i] == v.fields[i].value;
      }
    }
  }

  lemma {:induction false} TypedIsNotInert(v: Json, at: seq<nat>)
    requires EntityType(NodeAt(v, at)).Some?
    ensures !Inert(v) && !IsFlat(v)
    decreases |at|
  {
    if at != [] {
      TypedIsNotInert(Children(v)[at[0]], at[1..]);
    }
  }

  /** Replacing a record or an array by another one leaves every scalar field. */
  lemma {:induction false} ReplacedField(fields: seq<Field>, i: nat, child: Json, key: string)
    requires i < |fields| && !IsFlat(fields[i].value) && !IsFlat(child)
    ensures var before, after := Lookup(fields, key), Lookup(fields[i := Field(fields[i].key, child)], key);
      after == before || (!IsFlat(before) && !IsFlat(after))
  {
    var changed := fields[i := Field(fields[i].key, child)];
    if i == 0 {
      assert changed[1..] == fields[1..];
    } else {
      assert changed[1..] == fields[1..][i - 1 := Field(fields[i].key, child)];
      if fields[0].key != key { ReplacedField(fields[1..], i - 1, child, key); }
    }
  }
}
