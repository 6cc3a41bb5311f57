/**
 * Evaluating a profile over a document tree
 * (packages/formula-runtime/src/evaluateCompiledProfile.ts:136-218). The formula engine
 * is a parameter: the value of one slot on one record.
 */
module Evaluator {
  import opened Strings
  import opened Json
  import opened Profiles
  import opened Fingerprints
  import opened Targets
  import opened Views

  type Formula = (Slot, Json) -> Json

  predicate Matches(slot: Slot, v: Json)
  {
    EntityType(v).Some? && EntityType(v) == slot.owner
  }

  /**
   * `applySlotToEntityTree`: set the property on every record of the owning type. The
   * value is computed before the records below are visited.
   */
  function ApplySlot(slot: Slot, f: Formula, v: Json): Json
    decreases v, 1
  {
    match v
    case Arr(items) => Arr(seq(|items|, i requires 0 <= i < |items| => ApplySlot(slot, f, items[i])))
    case Obj(fields) =>
      var visited := Visited(slot, f, v);
      Obj(if Matches(slot, v) then SetField(visited, slot.propertyName, f(slot, v)) else visited)
    case _ => v
  }

  function Visited(slot: Slot, f: Formula, v: Json): (r: seq<Field>)
    requires v.Obj?
    ensures |r| == |v.fields|
    decreases v, 0
  {
    seq(|v.fields|, i requires 0 <= i < |v.fields| =>
      assert v.fields[i] < v;
      Field(v.fields[i].key, ApplySlot(slot, f, v.fields[i].value)))
  }

  function ApplySlots(slots: seq<Slot>, f: Formula, v: Json): Json
  {
    if slots == [] then v
    else ApplySlot(slots[|slots| - 1], f, ApplySlots(slots[..|slots| - 1], f, v))
  }

  predicate EarlierStratum(a: Slot, b: Slot)
  {
    a.stratum <= b.stratum
  }

  function ByStratum(profile: Profile): (r: seq<Slot>)
    ensures multiset(r) == multiset(profile)
  {
    Sort(EarlierStratum, profile)
  }

  /** `evaluateCompiledProfile` */
  function Evaluate(profile: Profile, f: Formula, doc: Json): Json
  {
    ApplySlots(ByStratum(profile), f, doc)
  }

  /** The slots of one stratum. */
  function InStratum(slots: seq<Slot>, n: int): seq<Slot>
  {
    if slots == [] then []
    else (if slots[0].stratum == n then [slots[0]] else []) + InStratum(slots[1..], n)
  }

  lemma StratumCons(slot: Slot, slots: seq<Slot>, n: int)
    ensures InStratum([slot] + slots, n) == (if slot.stratum == n then [slot] else []) + InStratum(slots, n)
  {
    assert ([slot] + slots)[1..] == slots;
  }

  lemma {:induction false} InsertStable(slot: Slot, slots: seq<Slot>, n: int)
    ensures InStratum(Insert(EarlierStratum, slot, slots), n) == InStratum([slot] + slots, n)
  {
    if slots != [] && !EarlierStratum(slot, slots[0]) {
      InsertStable(slot, slots[1..], n);
      var below := InStratum(slots[1..], n);
      StratumCons(slots[0], Insert(EarlierStratum, slot, slots[1..]), n);
      StratumCons(slot, slots[1..], n);
      StratumCons(slot, slots, n);
      if slot.stratum == n {
        assert InStratum(slots, n) == below;
      } else {
        assert InStratum([slot] + slots, n) == InStratum(slots, n);
      }
    }
  }

  /** Slots are applied from the lowest stratum up, and those of one stratum in profile order. */
  lemma {:induction false} StrataInOrder(profile: Profile, n: int)
    ensures forall i, j :: 0 <= i < j < |ByStratum(profile)| ==>
      ByStratum(profile)[i].stratum <= ByStratum(profile)[j].stratum
    ensures InStratum(ByStratum(profile), n) == InStratum(profile, n)
  {
    SortSorted(EarlierStratum, profile);
    if profile != [] {
      StrataInOrder(profile[1..], n);
      InsertStable(profile[0], ByStratum(profile[1..]), n);
      StratumCons(profile[0], ByStratum(profile[1..]), n);
    }
  }

  // ----- slot equations -----

  ghost predicate Equation(slot: Slot, f: Formula, v: Json)
  {
    Matches(slot, v) ==>
      HasKey(v.fields, slot.propertyName) && Lookup(v.fields, slot.propertyName) == f(slot, v)
  }

  /** Only records with the owner's type are computed: any other record keeps its fields, whatever is computed inside them. */
  lemma OnlyOwnersComputed(slot: Slot, f: Formula, fields: seq<Field>)
    requires forall t :: EntityType(Obj(fields)) == Some(t) ==> !Owns(slot, t)
    ensures ApplySlot(slot, f, Obj(fields)).Obj?
    ensures var after := ApplySlot(slot, f, Obj(fields)).fields;
      |after| == |fields| && forall i :: 0 <= i < |fields| ==>
        after[i].key == fields[i].key && (!fields[i].value.Obj? && !fields[i].value.Arr? ==> after[i] == fields[i])
  {
    var v := Obj(fields);
    assert !Matches(slot, v);
    assert ApplySlot(slot, f, v) == Obj(Visited(slot, f, v));
  }

  /** Every record of the tree satisfies the equation of a slot. */
  ghost predicate Solves(slot: Slot, f: Formula, v: Json)
  {
    Equation(slot, f, v) && forall i :: 0 <= i < |Children(v)| ==> Solves(slot, f, Children(v)[i])
  }

  lemma {:induction false} SetFieldSame(fields: seq<Field>, key: string, value: Json)
    requires HasKey(fields, key) && Lookup(fields, key) == value
    ensures SetField(fields, key, value) == fields
  {
    assert fields == [fields[0]] + fields[1..];
    if fields[0].key != key {
      var i :| 0 <= i < |fields| && fields[i].key == key;
      assert fields[1..][i - 1].key == key;
      SetFieldSame(fields[1..], key, value);
    }
  }

  lemma {:induction false} SetFieldLookup(fields: seq<Field>, key: string, value: Json, other: string)
    ensures HasKey(SetField(fields, key, value), key)
    ensures HasKey(fields, other) ==> HasKey(SetField(fields, key, value), other)
    ensures Lookup(SetField(fields, key, value), other) == if other == key then value else Lookup(fields, other)
  {
    var after := SetField(fields, key, value);
    if fields == [] || fields[0].key == key {
      assert after[0].key == key;
      if i :| 0 <= i < |fields| && fields[i].key == other {
        assert after[i].key == other;
      }
    } else {
      SetFieldLookup(fields[1..], key, value, other);
      var j :| 0 <= j < |after[1..]| && after[1..][j].key == key;
      assert after[j + 1].key == key;
      if i :| 0 <= i < |fields| && fields[i].key == other {
        if i > 0 {
          assert fields[1..][i - 1].key == other;
          var k :| 0 <= k < |after[1..]| && after[1..][k].key == other;
          assert after[k + 1].key == other;
        } else {
          assert after[0].key == other;
        }
      }
    }
  }

  lemma {:induction false} ApplySolved(slot: Slot, f: Formula, v: Json)
    requires Solves(slot, f, v)
    ensures ApplySlot(slot, f, v) == v
    decreases v
  {
    if v.Arr? {
      forall i | 0 <= i < |v.items| ensures ApplySlot(slot, f, v.items[i]) == v.items[i] {
        assert Children(v)[i] == v.items[i];
        ApplySolved(slot, f, v.items[i]);
      }
      assert ApplySlot(slot, f, v).items == v.items;
    } else if v.Obj? {
      forall i | 0 <= i < |v.fields| ensures ApplySlot(slot, f, v.fields[i].value) == v.fields[i].value {
        assert Children(v)[i] == v.fields[i].value && Children(v)[i] < v;
        ApplySolved(slot, f, v.fields[i].value);
      }
      assert Visited(slot, f, v) == v.fields;
      if Matches(slot, v) {
        SetFieldSame(v.fields, slot.propertyName, f(slot, v));
      }
    }
  }

  /** A document that already satisfies every slot equation evaluates to itself. */
  lemma {:induction false} EvaluateSolved(slots: seq<Slot>, f: Formula, v: Json)
    requires forall s :: s in slots ==> Solves(s, f, v)
    ensures ApplySlots(slots, f, v) == v
  {
    if slots != [] {
      EvaluateSolved(slots[..|slots| - 1], f, v);
      ApplySolved(slots[|slots| - 1], f, v);
    }
  }

  // ----- evaluated documents satisfy the slot equations -----

  /** Applying b does not reach what a reads. */
  ghost predicate Unread(f: Formula, a: Slot, b: Slot)
  {
    forall v: Json :: f(a, ApplySlot(b, f, v)) == f(a, v)
  }

  predicate SameView(slots: seq<Slot>, known: seq<Slot>, v: Json, w: Json)
  {
    ViewOf(slots, known, v) == ViewOf(slots, known, w)
  }

  /** The slot reads nothing but what is shown once the known outputs are there. */
  ghost predicate ReadsShown(f: Formula, slots: seq<Slot>, known: seq<Slot>, slot: Slot)
  {
    forall v, w :: SameView(slots, known, v, w) ==> f(slot, v) == f(slot, w)
  }

  /** Formula results are scalars, null or undefined. */
  ghost predicate FlatResults(f: Formula)
  {
    forall s: Slot, v: Json :: !f(s, v).Obj? && !f(s, v).Arr?
  }

  ghost predicate SeparateOutputs(a: Slot, b: Slot)
  {
    a.owner == b.owner ==> a.propertyName != b.propertyName
  }

  /** No slot reads its own output or that of a slot evaluated after it. */
  ghost predicate Stratified(slots: seq<Slot>, f: Formula)
  {
    && FlatResults(f) && DataNames(slots)
    && (forall i :: 0 <= i < |slots| ==> ReadsShown(f, slots, slots[..i], slots[i]))
    && (forall i, j :: 0 <= i < j < |slots| ==> SeparateOutputs(slots[i], slots[j]))
  }

  lemma {:induction false} VisitedLookup(slot: Slot, f: Formula, fields: seq<Field>, key: string)
    ensures Lookup(Visited(slot, f, Obj(fields)), key) == ApplySlot(slot, f, Lookup(fields, key))
    ensures HasKey(fields, key) == HasKey(Visited(slot, f, Obj(fields)), key)
  {
    var visited := Visited(slot, f, Obj(fields));
    if fields != [] {
      VisitedLookup(slot, f, fields[1..], key);
      assert visited[1..] == Visited(slot, f, Obj(fields[1..]));
      if i :| 0 <= i < |fields| && fields[i].key == key {
        assert visited[i].key == key;
      }
      if i :| 0 <= i < |visited| && visited[i].key == key {
        assert fields[i].key == key;
      }
    }
  }

  lemma FlatKept(slot: Slot, f: Formula, v: Json)
    requires !v.Obj? && !v.Arr?
    ensures ApplySlot(slot, f, v) == v
  {
  }

  lemma KindKept(slot: Slot, f: Formula, v: Json)
    ensures ApplySlot(slot, f, v).Str? == v.Str? && ApplySlot(slot, f, v).Obj? == v.Obj?
    ensures v.Str? ==> ApplySlot(slot, f, v) == v
  {
  }

  lemma TypeKept(slot: Slot, f: Formula, v: Json)
    requires slot.propertyName != "@type"
    ensures EntityType(ApplySlot(slot, f, v)) == EntityType(v)
  {
    KindKept(slot, f, v);
    if v.Obj? {
      VisitedLookup(slot, f, v.fields, "@type");
      SetFieldLookup(Visited(slot, f, v), slot.propertyName, f(slot, v), "@type");
      KindKept(slot, f, Lookup(v.fields, "@type"));
    }
  }

  lemma {:induction false} SetFieldEntry(fields: seq<Field>, key: string, value: Json, i: nat)
    requires i < |SetField(fields, key, value)|
    ensures i < |fields| ==> SetField(fields, key, value)[i].key == fields[i].key
    ensures SetField(fields, key, value)[i] == Field(key, value)
            || (i < |fields| && SetField(fields, key, value)[i] == fields[i])
  {
    if fields != [] && fields[0].key != key && i > 0 {
      SetFieldEntry(fields[1..], key, value, i - 1);
    }
  }

  /** A child of an evaluated node is an evaluated child or the new output. */
  lemma ChildOf(slot: Slot, f: Formula, v: Json, i: nat)
    requires i < |Children(ApplySlot(slot, f, v))|
    ensures (i < |Children(v)| && Children(ApplySlot(slot, f, v))[i] == ApplySlot(slot, f, Children(v)[i]))
            || (Matches(slot, v) && Children(ApplySlot(slot, f, v))[i] == f(slot, v))
  {
    if v.Obj? && Matches(slot, v) {
      SetFieldEntry(Visited(slot, f, v), slot.propertyName, f(slot, v), i);
    }
  }

  lemma {:induction false} FlatSolves(slot: Slot, f: Formula, v: Json)
    requires !v.Obj? && !v.Arr?
    ensures Solves(slot, f, v)
  {
  }

  lemma {:induction false} ApplySolves(slot: Slot, f: Formula, v: Json)
    requires FlatResults(f) && Unread(f, slot, slot) && slot.propertyName != "@type"
    ensures Solves(slot, f, ApplySlot(slot, f, v))
    decreases v
  {
    var r := ApplySlot(slot, f, v);
    TypeKept(slot, f, v);
    if Matches(slot, v) {
      SetFieldLookup(Visited(slot, f, v), slot.propertyName, f(slot, v), slot.propertyName);
      assert f(slot, r) == f(slot, v);
    }
    forall i | 0 <= i < |Children(r)| ensures Solves(slot, f, Children(r)[i]) {
      ChildOf(slot, f, v, i);
      if i < |Children(v)| && Children(r)[i] == ApplySlot(slot, f, Children(v)[i]) {
        ApplySolves(slot, f, Children(v)[i]);
      } else {
        FlatSolves(slot, f, f(slot, v));
      }
    }
  }

  lemma {:induction false} ApplyKeepsSolved(a: Slot, b: Slot, f: Formula, v: Json)
    requires FlatResults(f) && Unread(f, a, b) && SeparateOutputs(a, b) && b.propertyName != "@type"
    requires Solves(a, f, v)
    ensures Solves(a, f, ApplySlot(b, f, v))
    decreases v
  {
    var r := ApplySlot(b, f, v);
    TypeKept(b, f, v);
    if Matches(a, v) {
      VisitedLookup(b, f, v.fields, a.propertyName);
      SetFieldLookup(Visited(b, f, v), b.propertyName, f(b, v), a.propertyName);
      FlatKept(b, f, f(a, v));
      assert f(a, r) == f(a, v);
    }
    forall i | 0 <= i < |Children(r)| ensures Solves(a, f, Children(r)[i]) {
      ChildOf(b, f, v, i);
      if i < |Children(v)| && Children(r)[i] == ApplySlot(b, f, Children(v)[i]) {
        ApplyKeepsSolved(a, b, f, Children(v)[i]);
      } else {
        FlatSolves(a, f, f(b, v));
      }
    }
  }

  // ----- evaluation and views -----

  lemma {:induction false} CoreSetField(
      slots: seq<Slot>, known: seq<Slot>, typeName: Option<string>, fields: seq<Field>, key: string, value: Json)
    requires Dropped(slots, typeName, key)
    ensures CoreViews(slots, known, typeName, SetField(fields, key, value)) == CoreViews(slots, known, typeName, fields)
  {
    if fields == [] {
      assert [Field(key, value)][1..] == [];
    } else if fields[0].key == key {
      assert ([Field(key, value)] + fields[1..])[1..] == fields[1..];
    } else {
      CoreSetField(slots, known, typeName, fields[1..], key, value);
      assert ([fields[0]] + SetField(fields[1..], key, value))[1..] == SetField(fields[1..], key, value);
    }
  }

  lemma {:induction false} SetFieldKeys(fields: seq<Field>, key: string, value: Json, other: string)
    ensures HasKey(SetField(fields, key, value), other) <==> other == key || HasKey(fields, other)
  {
    var after := SetField(fields, key, value);
    if fields == [] {
      assert after[0].key == key;
    } else {
      HasKeyTail(fields, other);
      HasKeyTail(after, other);
      if fields[0].key == key {
        assert after[1..] == fields[1..];
      } else {
        assert after[1..] == SetField(fields[1..], key, value);
        SetFieldKeys(fields[1..], key, value, other);
      }
    }
  }

  /** A field other than the slot's own output is the evaluated field. */
  lemma AppliedField(slot: Slot, f: Formula, v: Json, key: string)
    requires v.Obj? && (Matches(slot, v) ==> key != slot.propertyName)
    ensures var r := ApplySlot(slot, f, v);
      r.Obj? && HasKey(r.fields, key) == HasKey(v.fields, key)
      && Lookup(r.fields, key) == ApplySlot(slot, f, Lookup(v.fields, key))
  {
    VisitedLookup(slot, f, v.fields, key);
    if Matches(slot, v) {
      SetFieldLookup(Visited(slot, f, v), slot.propertyName, f(slot, v), key);
      SetFieldKeys(Visited(slot, f, v), slot.propertyName, f(slot, v), key);
    }
  }

  lemma AppliedOutput(slot: Slot, f: Formula, v: Json)
    requires Matches(slot, v)
    ensures var r := ApplySlot(slot, f, v);
      r.Obj? && HasKey(r.fields, slot.propertyName) && Lookup(r.fields, slot.propertyName) == f(slot, v)
  {
    SetFieldLookup(Visited(slot, f, v), slot.propertyName, f(slot, v), slot.propertyName);
  }

  lemma AppliedCore(slots: seq<Slot>, known: seq<Slot>, i: nat, f: Formula, v: Json)
    requires i < |slots| && v.Obj? && DataNames(slots)
    ensures var r := ApplySlot(slots[i], f, v);
      && r.Obj? && EntityType(r) == EntityType(v)
      && CoreViews(slots, known, EntityType(v), r.fields)
         == CoreViews(slots, known, EntityType(v), Visited(slots[i], f, v))
  {
    TypeKept(slots[i], f, v);
    if Matches(slots[i], v) {
      assert IsOutput(slots, EntityType(v), slots[i].propertyName);
      CoreSetField(slots, known, EntityType(v), Visited(slots[i], f, v), slots[i].propertyName, f(slots[i], v));
    }
  }

  /** What is shown before a slot is applied decides what is shown after it, its own output included. */
  lemma {:induction false} StepView(slots: seq<Slot>, f: Formula, i: nat, v: Json, w: Json)
    requires Stratified(slots, f) && i < |slots| && SameView(slots, slots[..i], v, w)
    ensures SameView(slots, slots[..i + 1], ApplySlot(slots[i], f, v), ApplySlot(slots[i], f, w))
    decreases v, 2, w
  {
    var before, after := slots[..i], slots[..i + 1];
    if v.Arr? {
      assert |v.items| == |ViewOf(slots, before, v).views| == |w.items|;
      forall k | 0 <= k < |v.items|
        ensures SameView(slots, after, ApplySlot(slots[i], f, v.items[k]), ApplySlot(slots[i], f, w.items[k]))
      {
        assert ViewOf(slots, before, v).views[k] == ViewOf(slots, before, w).views[k];
        StepView(slots, f, i, v.items[k], w.items[k]);
      }
    } else if v.Obj? {
      StepFields(slots, f, i, EntityType(v), v.fields, w.fields);
      AppliedCore(slots, after, i, f, v);
      AppliedCore(slots, after, i, f, w);
      var r, q := ApplySlot(slots[i], f, v), ApplySlot(slots[i], f, w);
      forall j | 0 <= j <= i ensures OutViews(slots, after, r)[j] == OutViews(slots, after, q)[j] {
        assert after[j] == slots[j];
        StepOut(slots, f, i, v, w, j);
      }
    }
  }

  lemma {:induction false} StepOut(slots: seq<Slot>, f: Formula, i: nat, v: Json, w: Json, j: nat)
    requires Stratified(slots, f) && j <= i < |slots| && SameView(slots, slots[..i], v, w) && v.Obj?
    ensures w.Obj?
    ensures OutView(slots, slots[..i + 1], ApplySlot(slots[i], f, v), slots[j])
         == OutView(slots, slots[..i + 1], ApplySlot(slots[i], f, w), slots[j])
    decreases v, 1, w
  {
    var before, after, name := slots[..i], slots[..i + 1], slots[j].propertyName;
    TypeKept(slots[i], f, v);
    TypeKept(slots[i], f, w);
    if Matches(slots[j], v) {
      if j == i {
        AppliedOutput(slots[i], f, v);
        AppliedOutput(slots[i], f, w);
      } else {
        assert SeparateOutputs(slots[j], slots[i]);
        AppliedField(slots[i], f, v, name);
        AppliedField(slots[i], f, w, name);
        assert before[j] == slots[j];
        assert IsOutput(before, EntityType(v), name);
        LookupView(slots, before, v, w, name);
        if Lookup(v.fields, name) != Undefined {
          LookupSmaller(v.fields, name);
          StepView(slots, f, i, Lookup(v.fields, name), Lookup(w.fields, name));
        }
      }
      FieldViewIsView(slots, after, ApplySlot(slots[i], f, v), name);
      FieldViewIsView(slots, after, ApplySlot(slots[i], f, w), name);
    }
  }

  lemma {:induction false} StepFields(
      slots: seq<Slot>, f: Formula, i: nat, t: Option<string>, fs: seq<Field>, gs: seq<Field>)
    requires Stratified(slots, f) && i < |slots|
    requires CoreViews(slots, slots[..i], t, fs) == CoreViews(slots, slots[..i], t, gs)
    ensures CoreViews(slots, slots[..i + 1], t, Visited(slots[i], f, Obj(fs)))
         == CoreViews(slots, slots[..i + 1], t, Visited(slots[i], f, Obj(gs)))
    decreases fs, 0, gs
  {
    var before, after := slots[..i], slots[..i + 1];
    VisitedTail(slots, after, t, slots[i], f, fs);
    VisitedTail(slots, after, t, slots[i], f, gs);
    if fs != [] && Dropped(slots, t, fs[0].key) {
      assert CoreViews(slots, before, t, fs) == CoreViews(slots, before, t, fs[1..]);
      StepFields(slots, f, i, t, fs[1..], gs);
    } else if gs != [] && Dropped(slots, t, gs[0].key) {
      assert CoreViews(slots, before, t, gs) == CoreViews(slots, before, t, gs[1..]);
      StepFields(slots, f, i, t, fs, gs[1..]);
    } else if fs != [] && gs != [] {
      var x, y := CoreViews(slots, before, t, fs), CoreViews(slots, before, t, gs);
      assert x[0] == y[0] && x[1..] == CoreViews(slots, before, t, fs[1..]) && y[1..] == CoreViews(slots, before, t, gs[1..]);
      StepView(slots, f, i, fs[0].value, gs[0].value);
      StepFields(slots, f, i, t, fs[1..], gs[1..]);
    }
  }

  lemma VisitedTail(
      slots: seq<Slot>, known: seq<Slot>, t: Option<string>, slot: Slot, f: Formula, fields: seq<Field>)
    ensures var visited := CoreViews(slots, known, t, Visited(slot, f, Obj(fields)));
      visited == if fields == [] then [] else
        (if Dropped(slots, t, fields[0].key) then []
         else [Shown(fields[0].key, ViewOf(slots, known, ApplySlot(slot, f, fields[0].value)))])
        + CoreViews(slots, known, t, Visited(slot, f, Obj(fields[1..])))
  {
    if fields != [] {
      assert Visited(slot, f, Obj(fields))[1..] == Visited(slot, f, Obj(fields[1..]));
    }
  }

  /** Applying a slot shows nothing new to the slots before it, nor to itself. */
  lemma {:induction false} ApplyUnseen(slots: seq<Slot>, f: Formula, i: nat, j: nat, v: Json)
    requires Stratified(slots, f) && i <= j < |slots|
    ensures SameView(slots, slots[..i], ApplySlot(slots[j], f, v), v)
    decreases v, 1
  {
    var known := slots[..i];
    if v.Arr? {
      forall k | 0 <= k < |v.items| ensures SameView(slots, known, ApplySlot(slots[j], f, v.items[k]), v.items[k]) {
        ApplyUnseen(slots, f, i, j, v.items[k]);
      }
    } else if v.Obj? {
      var r := ApplySlot(slots[j], f, v);
      AppliedCore(slots, known, j, f, v);
      FieldsUnseen(slots, f, i, j, EntityType(v), v.fields);
      forall k | 0 <= k < i ensures OutViews(slots, known, r)[k] == OutViews(slots, known, v)[k] {
        var name := slots[k].propertyName;
        if Matches(slots[k], v) {
          assert SeparateOutputs(slots[k], slots[j]);
          AppliedField(slots[j], f, v, name);
          if Lookup(v.fields, name) != Undefined {
            LookupSmaller(v.fields, name);
            ApplyUnseen(slots, f, i, j, Lookup(v.fields, name));
          }
          FieldViewIsView(slots, known, r, name);
          FieldViewIsView(slots, known, v, name);
        }
      }
    }
  }

  lemma {:induction false} FieldsUnseen(
      slots: seq<Slot>, f: Formula, i: nat, j: nat, t: Option<string>, fields: seq<Field>)
    requires Stratified(slots, f) && i <= j < |slots|
    ensures CoreViews(slots, slots[..i], t, Visited(slots[j], f, Obj(fields))) == CoreViews(slots, slots[..i], t, fields)
    decreases fields, 0
  {
    VisitedTail(slots, slots[..i], t, slots[j], f, fields);
    if fields != [] {
      FieldsUnseen(slots, f, i, j, t, fields[1..]);
      ApplyUnseen(slots, f, i, j, fields[0].value);
    }
  }

  /** Evaluation changes nothing that is shown without known outputs. */
  lemma {:induction false} EvaluateUnseen(slots: seq<Slot>, f: Formula, n: nat, v: Json)
    requires Stratified(slots, f) && n <= |slots|
    ensures SameView(slots, [], ApplySlots(slots[..n], f, v), v)
  {
    if n > 0 {
      EvaluateUnseen(slots, f, n - 1, v);
      assert slots[..n][..n - 1] == slots[..n - 1] && slots[..0] == [];
      ApplyUnseen(slots, f, 0, n - 1, ApplySlots(slots[..n - 1], f, v));
    }
  }

  /** The second view shows no more than the first. */
  ghost predicate Coarser(slots: seq<Slot>, known: seq<Slot>, more: seq<Slot>, fewer: seq<Slot>)
  {
    && (forall t, key :: IsOutput(slots, t, key) ==> IsOutput(more, t, key))
    && (forall s :: s in fewer ==> Visibly(slots, known, s.owner, s.propertyName))
  }

  lemma {:induction false} CoarserView(
      slots: seq<Slot>, known: seq<Slot>, more: seq<Slot>, fewer: seq<Slot>, v: Json, w: Json)
    requires Coarser(slots, known, more, fewer) && SameView(slots, known, v, w)
    ensures SameView(more, fewer, v, w)
    decreases v, 2, w
  {
    if v.Arr? {
      assert |v.items| == |ViewOf(slots, known, v).views| == |w.items|;
      forall k | 0 <= k < |v.items| ensures SameView(more, fewer, v.items[k], w.items[k]) {
        assert ViewOf(slots, known, v).views[k] == ViewOf(slots, known, w).views[k];
        CoarserView(slots, known, more, fewer, v.items[k], w.items[k]);
      }
    } else if v.Obj? {
      CoarserFields(slots, known, more, fewer, EntityType(v), v.fields, w.fields);
      forall i | 0 <= i < |fewer| ensures OutViews(more, fewer, v)[i] == OutViews(more, fewer, w)[i] {
        CoarserOut(slots, known, more, fewer, v, w, i);
      }
    }
  }

  lemma {:induction false} CoarserOut(
      slots: seq<Slot>, known: seq<Slot>, more: seq<Slot>, fewer: seq<Slot>, v: Json, w: Json, i: nat)
    requires Coarser(slots, known, more, fewer) && SameView(slots, known, v, w) && v.Obj? && i < |fewer|
    ensures w.Obj? && OutView(more, fewer, v, fewer[i]) == OutView(more, fewer, w, fewer[i])
    decreases v, 1, w
  {
    var name := fewer[i].propertyName;
    assert fewer[i] in fewer;
    if Matches(fewer[i], v) {
      LookupView(slots, known, v, w, name);
      if Lookup(v.fields, name) != Undefined {
        LookupSmaller(v.fields, name);
        CoarserView(slots, known, more, fewer, Lookup(v.fields, name), Lookup(w.fields, name));
      } else {
        FlatView(slots, known, Lookup(v.fields, name), Lookup(w.fields, name));
      }
      FieldViewIsView(more, fewer, v, name);
      FieldViewIsView(more, fewer, w, name);
    }
  }

  lemma {:induction false} CoarserFields(
      slots: seq<Slot>, known: seq<Slot>, more: seq<Slot>, fewer: seq<Slot>, t: Option<string>, fs: seq<Field>,
      gs: seq<Field>)
    requires Coarser(slots, known, more, fewer) && CoreViews(slots, known, t, fs) == CoreViews(slots, known, t, gs)
    ensures CoreViews(more, fewer, t, fs) == CoreViews(more, fewer, t, gs)
    decreases fs, 0, gs
  {
    if fs != [] && Dropped(slots, t, fs[0].key) {
      assert CoreViews(slots, known, t, fs) == CoreViews(slots, known, t, fs[1..]);
      CoarserFields(slots, known, more, fewer, t, fs[1..], gs);
    } else if gs != [] && Dropped(slots, t, gs[0].key) {
      assert CoreViews(slots, known, t, gs) == CoreViews(slots, known, t, gs[1..]);
      CoarserFields(slots, known, more, fewer, t, fs, gs[1..]);
    } else if fs != [] && gs != [] {
      var x, y := CoreViews(slots, known, t, fs), CoreViews(slots, known, t, gs);
      assert x[0] == y[0] && x[1..] == CoreViews(slots, known, t, fs[1..]) && y[1..] == CoreViews(slots, known, t, gs[1..]);
      CoarserView(slots, known, more, fewer, fs[0].value, gs[0].value);
      CoarserFields(slots, known, more, fewer, t, fs[1..], gs[1..]);
    }
  }

  lemma StratifiedUnread(slots: seq<Slot>, f: Formula, i: nat, j: nat)
    requires Stratified(slots, f) && i <= j < |slots|
    ensures Unread(f, slots[i], slots[j])
  {
    forall v ensures f(slots[i], ApplySlot(slots[j], f, v)) == f(slots[i], v) {
      ApplyUnseen(slots, f, i, j, v);
      assert SameView(slots, slots[..i], ApplySlot(slots[j], f, v), v);
    }
  }

  /** What is shown of the inputs decides what is shown of the evaluated document. */
  lemma {:induction false} PrefixView(slots: seq<Slot>, f: Formula, i: nat, v: Json, w: Json)
    requires Stratified(slots, f) && i <= |slots| && SameView(slots, [], v, w)
    ensures SameView(slots, slots[..i], ApplySlots(slots[..i], f, v), ApplySlots(slots[..i], f, w))
  {
    if i > 0 {
      PrefixView(slots, f, i - 1, v, w);
      assert slots[..i][..i - 1] == slots[..i - 1];
      StepView(slots, f, i - 1, ApplySlots(slots[..i - 1], f, v), ApplySlots(slots[..i - 1], f, w));
    } else {
      assert slots[..0] == [];
    }
  }

  /**
   * Evaluation reads inputs only: documents that differ in computed properties and sidecars
   * alone evaluate to documents that differ in sidecars and key order alone.
   */
  lemma EvaluateView(profile: Profile, f: Formula, v: Json, w: Json)
    requires Stratified(ByStratum(profile), f) && SameView(ByStratum(profile), [], v, w)
    ensures SameView(ByStratum(profile), ByStratum(profile), Evaluate(profile, f, v), Evaluate(profile, f, w))
  {
    var slots := ByStratum(profile);
    PrefixView(slots, f, |slots|, v, w);
    assert slots[..|slots|] == slots;
  }

  /** Evaluation solves every slot equation at every record. */
  lemma EvaluateSolves(slots: seq<Slot>, f: Formula, v: Json)
    requires Stratified(slots, f)
    ensures forall s :: s in slots ==> Solves(s, f, ApplySlots(slots, f, v))
  {
    PrefixSolves(slots, f, |slots|, v);
    assert slots[..|slots|] == slots;
    forall s | s in slots ensures Solves(s, f, ApplySlots(slots, f, v)) {
      var i :| 0 <= i < |slots| && slots[i] == s;
    }
  }

  lemma {:induction false} PrefixSolves(slots: seq<Slot>, f: Formula, n: nat, v: Json)
    requires Stratified(slots, f) && n <= |slots|
    ensures forall i :: 0 <= i < n ==> Solves(slots[i], f, ApplySlots(slots[..n], f, v))
  {
    if n > 0 {
      var before, last := ApplySlots(slots[..n - 1], f, v), slots[n - 1];
      PrefixSolves(slots, f, n - 1, v);
      assert slots[..n][..n - 1] == slots[..n - 1];
      StratifiedUnread(slots, f, n - 1, n - 1);
      ApplySolves(last, f, before);
      forall i | 0 <= i < n - 1 ensures Solves(slots[i], f, ApplySlots(slots[..n], f, v)) {
        StratifiedUnread(slots, f, i, n - 1);
        assert SeparateOutputs(slots[i], slots[n - 1]);
        ApplyKeepsSolved(slots[i], last, f, before);
      }
    }
  }

  /** Evaluating twice changes nothing: earlier outputs are ignored. */
  lemma EvaluateIdempotent(profile: Profile, f: Formula, doc: Json)
    requires Stratified(ByStratum(profile), f)
    ensures Evaluate(profile, f, Evaluate(profile, f, doc)) == Evaluate(profile, f, doc)
  {
    EvaluateSolves(ByStratum(profile), f, doc);
    EvaluateSolved(ByStratum(profile), f, Evaluate(profile, f, doc));
  }

  lemma {:induction false} SolvesBelow(slot: Slot, f: Formula, v: Json, at: seq<nat>, o: Occurrence)
    requires Solves(slot, f, v) && o in Entities(v, at)
    ensures Equation(slot, f, o.entity)
    decreases v
  {
    if o !in Own(v, at) {
      var i := ConcatMember(Below(v, at), o);
      SolvesBelow(slot, f, Children(v)[i], at + [i], o);
    }
  }

  /** Every record of the slot's type equals one of the given records. */
  ghost predicate MatchesAmong(known: set<Json>, slot: Slot, v: Json)
  {
    (Matches(slot, v) ==> v in known) && forall i :: 0 <= i < |Children(v)| ==> MatchesAmong(known, slot, Children(v)[i])
  }

  lemma {:induction false} SolvesFromRecords(known: set<Json>, slot: Slot, f: Formula, v: Json)
    requires MatchesAmong(known, slot, v) && forall r :: r in known ==> Equation(slot, f, r)
    ensures Solves(slot, f, v)
    decreases v
  {
    forall i | 0 <= i < |Children(v)| ensures Solves(slot, f, Children(v)[i]) {
      SolvesFromRecords(known, slot, f, Children(v)[i]);
    }
  }

  // ----- evaluation keeps documents well formed -----

  lemma {:induction false} SetFieldUnique(fields: seq<Field>, key: string, value: Json)
    requires UniqueKeys(fields)
    ensures UniqueKeys(SetField(fields, key, value))
    ensures forall k :: 0 <= k < |SetField(fields, key, value)| ==>
              SetField(fields, key, value)[k].key == key || HasKey(fields, SetField(fields, key, value)[k].key)
  {
    var after := SetField(fields, key, value);
    if fields != [] {
      if fields[0].key != key {
        SetFieldUnique(fields[1..], key, value);
        forall k | 0 <= k < |after|
          ensures after[k].key == key || HasKey(fields, after[k].key)
          ensures k > 0 ==> after[k].key != after[0].key
        {
          if k > 0 {
            assert after[k] == SetField(fields[1..], key, value)[k - 1];
            if j :| 0 <= j < |fields[1..]| && fields[1..][j].key == after[k].key {
              assert fields[j + 1].key == after[k].key;
            }
          } else {
            assert fields[0].key == after[0].key;
          }
        }
        assert after == [after[0]] + SetField(fields[1..], key, value);
      } else {
        forall k | 0 <= k < |after| ensures HasKey(fields, after[k].key) {
          assert fields[k].key == after[k].key;
        }
      }
    }
  }

  lemma {:induction false} ApplyWellFormed(slot: Slot, f: Formula, v: Json)
    requires FlatResults(f) && WellFormed(v)
    ensures WellFormed(ApplySlot(slot, f, v))
    decreases v
  {
    var r := ApplySlot(slot, f, v);
    if v.Obj? {
      var visited := Visited(slot, f, v);
      assert forall i :: 0 <= i < |visited| ==> visited[i].key == v.fields[i].key;
      assert UniqueKeys(visited);
      SetFieldUnique(visited, slot.propertyName, f(slot, v));
    }
    forall i | 0 <= i < |Children(r)| ensures WellFormed(Children(r)[i]) {
      ChildOf(slot, f, v, i);
      if i < |Children(v)| && Children(r)[i] == ApplySlot(slot, f, Children(v)[i]) {
        ApplyWellFormed(slot, f, Children(v)[i]);
      }
    }
    WellFormedChildren(r);
  }

  lemma {:induction false} SlotsWellFormed(slots: seq<Slot>, f: Formula, v: Json)
    requires FlatResults(f) && WellFormed(v)
    ensures WellFormed(ApplySlots(slots, f, v))
  {
    if slots != [] {
      SlotsWellFormed(slots[..|slots| - 1], f, v);
      ApplyWellFormed(slots[|slots| - 1], f, ApplySlots(slots[..|slots| - 1], f, v));
    }
  }

  // ----- evaluation keeps documents tidy -----

  lemma {:induction false} InertApplied(slot: Slot, f: Formula, v: Json)
    requires Inert(v)
    ensures ApplySlot(slot, f, v) == v
    decreases v
  {
    if v.Arr? {
      forall i | 0 <= i < |v.items| ensures ApplySlot(slot, f, v.items[i]) == v.items[i] {
        assert Children(v)[i] == v.items[i];
        InertApplied(slot, f, v.items[i]);
      }
      assert ApplySlot(slot, f, v).items == v.items;
    } else if v.Obj? {
      forall i | 0 <= i < |v.fields| ensures ApplySlot(slot, f, v.fields[i].value) == v.fields[i].value {
        assert Children(v)[i] == v.fields[i].value && Children(v)[i] < v;
        InertApplied(slot, f, v.fields[i].value);
      }
      assert Visited(slot, f, v) == v.fields;
    }
  }

  lemma FlatIsInert(v: Json)
    requires IsFlat(v)
    ensures Inert(v)
  {
  }

  lemma {:induction false} FlatIsTidy(slots: seq<Slot>, v: Json)
    requires IsFlat(v)
    ensures Tidy(slots, v)
  {
  }

  lemma {:induction false} ApplyTidy(slots: seq<Slot>, slot: Slot, f: Formula, v: Json)
    requires FlatResults(f) && slot.propertyName != "@type" && Tidy(slots, v)
    ensures Tidy(slots, ApplySlot(slot, f, v))
    decreases v
  {
    var r := ApplySlot(slot, f, v);
    TypeKept(slot, f, v);
    FlatIsInert(f(slot, v));
    FlatIsTidy(slots, f(slot, v));
    if v.Obj? {
      forall i | 0 <= i < |r.fields| && Dropped(slots, EntityType(r), r.fields[i].key) ensures Inert(r.fields[i].value) {
        if Matches(slot, v) { SetFieldEntry(Visited(slot, f, v), slot.propertyName, f(slot, v), i); }
        if r.fields[i].value != f(slot, v) || !Matches(slot, v) {
          assert r.fields[i] == Visited(slot, f, v)[i] && r.fields[i].key == v.fields[i].key;
          InertApplied(slot, f, v.fields[i].value);
        }
      }
    }
    forall i | 0 <= i < |Children(r)| ensures Tidy(slots, Children(r)[i]) {
      ChildOf(slot, f, v, i);
      if i < |Children(v)| && Children(r)[i] == ApplySlot(slot, f, Children(v)[i]) {
        ChildTidy(slots, v, i);
        ApplyTidy(slots, slot, f, Children(v)[i]);
      }
    }
  }

  lemma {:induction false} SlotsTidy(slots: seq<Slot>, applied: seq<Slot>, f: Formula, v: Json)
    requires FlatResults(f) && DataNames(applied) && Tidy(slots, v)
    ensures Tidy(slots, ApplySlots(applied, f, v))
  {
    if applied != [] {
      var n := |applied| - 1;
      SlotsTidy(slots, applied[..n], f, v);
      ApplyTidy(slots, applied[n], f, ApplySlots(applied[..n], f, v));
    }
  }

  lemma {:induction false} AllOpen(slots: seq<Slot>, v: Json)
    ensures Open(slots, slots, v)
    decreases v
  {
    forall i | 0 <= i < |Children(v)| ensures Open(slots, slots, Children(v)[i]) {
      AllOpen(slots, Children(v)[i]);
    }
  }

  /** Documents that evaluation cannot tell apart: they differ in computed properties and sidecars alone. */
  ghost predicate SameInputs(profile: Profile, v: Json, w: Json)
  {
    && SameView(ByStratum(profile), [], v, w)
    && WellFormed(v) && WellFormed(w) && Tidy(ByStratum(profile), v) && Tidy(ByStratum(profile), w)
  }

  lemma EvaluatedAlike(profile: Profile, f: Formula, v: Json, w: Json)
    requires Stratified(ByStratum(profile), f) && SameInputs(profile, v, w)
    ensures Alike(ByStratum(profile), ByStratum(profile), Evaluate(profile, f, v), Evaluate(profile, f, w))
  {
    var slots := ByStratum(profile);
    EvaluateView(profile, f, v, w);
    SlotsWellFormed(slots, f, v);
    SlotsWellFormed(slots, f, w);
    SlotsTidy(slots, slots, f, v);
    SlotsTidy(slots, slots, f, w);
    AllOpen(slots, Evaluate(profile, f, v));
  }
}
