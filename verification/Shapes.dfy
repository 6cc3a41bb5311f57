/**
 * Fingerprint stability: array order, key order and `...$stmt` sidecars, at any depth,
 * do not reach a fingerprint.
 */
module Shapes {
  import opened Strings
  import opened Json
  import opened Canonical
  import opened Profiles
  import opened Fingerprints

  /** A tree without array order, key order and sidecars; identified records keep their content. */
  datatype Shape =
    | SUndefined
    | SNull
    | SBool(b: bool)
    | SNum(n: int)
    | SStr(s: string)
    | SArr(items: multiset<Shape>)
    | SObj(fields: map<string, Shape>)

  function ShapeOf(v: Json): Shape
  {
    match v
    case Undefined => SUndefined
    case Null => SNull
    case Bool(b) => SBool(b)
    case Num(n) => SNum(n)
    case Str(s) => SStr(s)
    case Arr(items) => SArr(multiset(ItemShapes(v)))
    case Obj(fields) => SObj(map key | key in Keys(Visible(fields)) :: ShapeAt(v, key))
  }

  function ItemShapes(v: Json): (r: seq<Shape>)
    requires v.Arr?
    ensures |r| == |v.items|
    decreases v, 0
  {
    seq(|v.items|, i requires 0 <= i < |v.items| => ShapeOf(v.items[i]))
  }

  function ShapeAt(v: Json, key: string): Shape
    requires v.Obj?
    decreases v, 0
  {
    var value := Lookup(v.fields, key);
    if value == Undefined then SUndefined
    else
      LookupSmaller(v.fields, key);
      ShapeOf(value)
  }

  // ----- the rearrangements that keep a shape -----

  lemma ShapeIgnoresArrayOrder(a: seq<Json>, b: seq<Json>)
    requires multiset(a) == multiset(b)
    ensures ShapeOf(Arr(a)) == ShapeOf(Arr(b))
  {
    Matching(a, ItemShapes(Arr(a)), b, ItemShapes(Arr(b)));
  }

  /** Fields may be reordered, and sidecar fields added or removed. */
  lemma {:induction false} ShapeIgnoresKeyOrderAndSidecars(a: seq<Field>, b: seq<Field>)
    requires UniqueKeys(a) && UniqueKeys(b)
    requires forall f: Field :: !IsSidecar(f.key) ==> (f in a <==> f in b)
    ensures ShapeOf(Obj(a)) == ShapeOf(Obj(b))
  {
    forall key | key in Keys(Visible(a)) ensures key in Keys(Visible(b)) && ShapeAt(Obj(a), key) == ShapeAt(Obj(b), key) {
      SameVisibleField(a, b, key);
    }
    forall key | key in Keys(Visible(b)) ensures key in Keys(Visible(a)) {
      SameVisibleField(b, a, key);
    }
    ShapeFromFields(a, b);
  }

  lemma {:induction false} ShapeFromFields(a: seq<Field>, b: seq<Field>)
    requires forall key :: key in Keys(Visible(a)) <==> key in Keys(Visible(b))
    requires forall key :: key in Keys(Visible(a)) ==> ShapeAt(Obj(a), key) == ShapeAt(Obj(b), key)
    ensures ShapeOf(Obj(a)) == ShapeOf(Obj(b))
  {
    RecordShape(a);
    RecordShape(b);
    assert Keys(Visible(a)) == Keys(Visible(b));
  }

  lemma {:induction false} SameVisibleField(a: seq<Field>, b: seq<Field>, key: string)
    requires UniqueKeys(a) && UniqueKeys(b)
    requires forall f: Field :: f in a && !IsSidecar(f.key) ==> f in b
    requires key in Keys(Visible(a))
    ensures key in Keys(Visible(b)) && Lookup(a, key) == Lookup(b, key)
  {
    var f :| f in Visible(a) && f.key == key;
    assert f in a && f in b && f in Visible(b);
    var i :| 0 <= i < |a| && a[i] == f;
    var j :| 0 <= j < |b| && b[j] == f;
    LookupAt(a, i);
    LookupAt(b, j);
  }

  /** Shapes compose: rearranging inside one item or field rearranges the whole. */
  lemma ShapeCongruence(items: seq<Json>, fields: seq<Field>, i: nat, v: Json)
    ensures i < |items| && ShapeOf(v) == ShapeOf(items[i]) ==> ShapeOf(Arr(items[i := v])) == ShapeOf(Arr(items))
    ensures i < |fields| && UniqueKeys(fields) && ShapeOf(v) == ShapeOf(fields[i].value)
            ==> ShapeOf(Obj(fields[i := fields[i].(value := v)])) == ShapeOf(Obj(fields))
  {
    if i < |items| && ShapeOf(v) == ShapeOf(items[i]) {
      assert ItemShapes(Arr(items[i := v])) == ItemShapes(Arr(items));
    }
    if i < |fields| && UniqueKeys(fields) && ShapeOf(v) == ShapeOf(fields[i].value) {
      FieldCongruence(fields, i, v);
    }
  }

  lemma {:induction false} FieldCongruence(fields: seq<Field>, i: nat, v: Json)
    requires i < |fields| && UniqueKeys(fields) && ShapeOf(v) == ShapeOf(fields[i].value)
    ensures ShapeOf(Obj(fields[i := fields[i].(value := v)])) == ShapeOf(Obj(fields))
  {
    var b := fields[i := fields[i].(value := v)];
    forall k | 0 <= k < |b| ensures b[k].key == fields[k].key && ShapeOf(b[k].value) == ShapeOf(fields[k].value) {
    }
    SameFieldShapes(fields, b);
  }

  lemma {:induction false} SameFieldShapes(a: seq<Field>, b: seq<Field>)
    requires UniqueKeys(a) && UniqueKeys(b) && |a| == |b|
    requires forall k :: 0 <= k < |b| ==> b[k].key == a[k].key && ShapeOf(b[k].value) == ShapeOf(a[k].value)
    ensures ShapeOf(Obj(a)) == ShapeOf(Obj(b))
  {
    forall key ensures key in Keys(Visible(a)) <==> key in Keys(Visible(b)) {
      VisibleKey(a, key);
      VisibleKey(b, key);
    }
    forall key | key in Keys(Visible(a)) ensures ShapeAt(Obj(a), key) == ShapeAt(Obj(b), key) {
      VisibleKey(a, key);
      var k :| 0 <= k < |a| && a[k].key == key;
      FieldShapeAt(a, b, k);
    }
    ShapeFromFields(a, b);
  }

  lemma {:induction false} FieldShapeAt(a: seq<Field>, b: seq<Field>, k: nat)
    requires UniqueKeys(a) && UniqueKeys(b) && k < |a| && k < |b|
    requires a[k].key == b[k].key && ShapeOf(a[k].value) == ShapeOf(b[k].value)
    ensures ShapeAt(Obj(a), a[k].key) == ShapeAt(Obj(b), a[k].key)
  {
    LookupAt(a, k);
    LookupAt(b, k);
    ShapeAtLookup(Obj(a), a[k].key);
    ShapeAtLookup(Obj(b), a[k].key);
  }

  lemma ShapeAtLookup(v: Json, key: string)
    requires v.Obj?
    ensures ShapeAt(v, key) == ShapeOf(Lookup(v.fields, key))
  {
  }

  lemma RecordShape(fields: seq<Field>)
    ensures ShapeOf(Obj(fields)).SObj? && ShapeOf(Obj(fields)).fields.Keys == Keys(Visible(fields))
    ensures forall key :: key in Keys(Visible(fields)) ==> ShapeOf(Obj(fields)).fields[key] == ShapeAt(Obj(fields), key)
  {
  }

  lemma {:induction false} VisibleKey(fields: seq<Field>, key: string)
    ensures key in Keys(Visible(fields)) <==> !IsSidecar(key) && exists k :: 0 <= k < |fields| && fields[k].key == key
  {
    if k :| 0 <= k < |fields| && fields[k].key == key && !IsSidecar(key) {
      assert fields[k] in fields && fields[k] in Visible(fields);
    }
  }

  // ----- what depends on the shape only -----

  lemma {:induction false} FieldShape(v: Json, w: Json, key: string)
    requires v.Obj? && w.Obj? && WellFormed(v) && WellFormed(w) && ShapeOf(v) == ShapeOf(w) && !IsSidecar(key)
    ensures key in Keys(Visible(v.fields)) <==> key in Keys(Visible(w.fields))
    ensures ShapeOf(Lookup(v.fields, key)) == ShapeOf(Lookup(w.fields, key))
  {
    RecordShape(v.fields);
    RecordShape(w.fields);
    VisibleKey(v.fields, key);
    VisibleKey(w.fields, key);
    if key in Keys(Visible(v.fields)) {
      ShapeAtLookup(v, key);
      ShapeAtLookup(w, key);
    } else {
      LookupAbsent(v.fields, key);
      LookupAbsent(w.fields, key);
    }
  }

  lemma SameKind(v: Json, w: Json)
    requires ShapeOf(v) == ShapeOf(w)
    ensures v.Str? <==> w.Str?
    ensures v.Str? ==> v.s == w.s
    ensures v.Obj? <==> w.Obj?
  {
  }

  lemma {:induction false} IdShape(v: Json, w: Json)
    requires WellFormed(v) && WellFormed(w) && ShapeOf(v) == ShapeOf(w)
    ensures EntityId(v) == EntityId(w)
  {
    SameKind(v, w);
    if v.Obj? {
      FieldShape(v, w, "@id");
      SameKind(Lookup(v.fields, "@id"), Lookup(w.fields, "@id"));
    }
  }

  lemma {:induction false} NormalFromItems(v: Json, w: Json)
    requires v.Arr? && w.Arr? && ShapeOf(v) == ShapeOf(w)
    requires forall i, j :: 0 <= i < |v.items| && 0 <= j < |w.items| && ItemShapes(v)[i] == ItemShapes(w)[j]
               ==> Norms(v)[i] == Norms(w)[j]
    ensures Normal(v) == Normal(w)
  {
    Matching(ItemShapes(v), Norms(v), ItemShapes(w), Norms(w));
  }

  lemma {:induction false} ShapeNormal(v: Json, w: Json)
    requires WellFormed(v) && WellFormed(w) && ShapeOf(v) == ShapeOf(w)
    ensures Normal(v) == Normal(w)
    decreases v, 2
  {
    if v.Arr? {
      forall i, j | 0 <= i < |v.items| && 0 <= j < |w.items| && ItemShapes(v)[i] == ItemShapes(w)[j]
        ensures Norms(v)[i] == Norms(w)[j]
      {
        ShapeNormal(v.items[i], w.items[j]);
      }
      NormalFromItems(v, w);
    } else if v.Obj? {
      IdShape(v, w);
      if !Identified(v) {
        RecordShapeNormal(v, w);
      }
    }
  }

  lemma {:induction false} RecordShapeNormal(v: Json, w: Json)
    requires WellFormed(v) && WellFormed(w) && ShapeOf(v) == ShapeOf(w)
    requires v.Obj? && w.Obj? && !Identified(v) && !Identified(w)
    ensures Normal(v) == Normal(w)
    decreases v, 1
  {
    assert ShapeOf(v).fields.Keys == Keys(Visible(v.fields));
    assert ShapeOf(w).fields.Keys == Keys(Visible(w.fields));
    forall key | key in Keys(Visible(v.fields)) ensures NormAt(v, key) == NormAt(w, key) {
      FieldShapeNormal(v, w, key);
    }
    NormalFromFields(v, w);
  }

  lemma {:induction false} FieldShapeNormal(v: Json, w: Json, key: string)
    requires WellFormed(v) && WellFormed(w) && ShapeOf(v) == ShapeOf(w)
    requires v.Obj? && w.Obj? && !IsSidecar(key)
    ensures NormAt(v, key) == NormAt(w, key)
    decreases v, 0
  {
    FieldShape(v, w, key);
    if Lookup(v.fields, key) != Undefined {
      LookupSmaller(v.fields, key);
      LookupWellFormed(v.fields, key);
      LookupWellFormed(w.fields, key);
      ShapeNormal(Lookup(v.fields, key), Lookup(w.fields, key));
    }
  }

  ghost predicate NamesData(path: seq<string>)
  {
    forall i :: 0 <= i < |path| ==> !IsSidecar(path[i])
  }

  lemma {:induction false} PresenceShape(v: Json, w: Json, path: seq<string>)
    requires WellFormed(v) && WellFormed(w) && ShapeOf(v) == ShapeOf(w) && NamesData(path)
    ensures ArrayDerived(v, path) == ArrayDerived(w, path)
    ensures SourcePresent(v, path) == SourcePresent(w, path)
    decreases |path|, v
  {
    if v.Arr? {
      SameLength(ItemShapes(v), ItemShapes(w));
      SameMembers(ItemShapes(v), ItemShapes(w));
      forall i | 0 <= i < |v.items| && SourcePresent(v.items[i], path)
        ensures exists j :: 0 <= j < |w.items| && SourcePresent(w.items[j], path)
      {
        assert ItemShapes(v)[i] in ItemShapes(w);
        var j :| 0 <= j < |w.items| && ItemShapes(w)[j] == ItemShapes(v)[i];
        PresenceShape(v.items[i], w.items[j], path);
      }
      forall j | 0 <= j < |w.items| && SourcePresent(w.items[j], path)
        ensures exists i :: 0 <= i < |v.items| && SourcePresent(v.items[i], path)
      {
        assert ItemShapes(w)[j] in ItemShapes(v);
        var i :| 0 <= i < |v.items| && ItemShapes(v)[i] == ItemShapes(w)[j];
        PresenceShape(v.items[i], w.items[j], path);
      }
    } else if path != [] && v.Obj? {
      FieldShape(v, w, path[0]);
      LookupWellFormed(v.fields, path[0]);
      LookupWellFormed(w.fields, path[0]);
      PresenceShape(Lookup(v.fields, path[0]), Lookup(w.fields, path[0]), path[1..]);
    }
  }

  function Total<T>(bags: seq<multiset<T>>): multiset<T>
  {
    if bags == [] then multiset{} else bags[0] + Total(bags[1..])
  }

  lemma {:induction false} TotalRemove<T>(bags: seq<multiset<T>>, j: nat)
    requires j < |bags|
    ensures Total(bags) == bags[j] + Total(bags[..j] + bags[j + 1..])
  {
    if j == 0 {
      assert bags[..j] + bags[j + 1..] == bags[1..];
    } else {
      TotalRemove(bags[1..], j - 1);
      var less := bags[..j] + bags[j + 1..];
      assert less[1..] == bags[1..][..j - 1] + bags[1..][j..];
    }
  }

  lemma {:induction false} TotalPermutation<T>(a: seq<multiset<T>>, b: seq<multiset<T>>)
    requires multiset(a) == multiset(b)
    ensures Total(a) == Total(b)
  {
    SameLength(a, b);
    if a != [] {
      SameMembers(a, b);
      assert a[0] in b;
      var j :| 0 <= j < |b| && b[j] == a[0];
      RemoveAt(b, j);
      assert a == [a[0]] + a[1..];
      assert multiset(a[1..]) == multiset(a) - multiset{a[0]};
      assert multiset(b[..j] + b[j + 1..]) == multiset(b) - multiset{b[j]};
      TotalRemove(b, j);
      TotalPermutation(a[1..], b[..j] + b[j + 1..]);
    }
  }

  function RowBags(lists: seq<seq<PathValue>>): (r: seq<multiset<(string, string)>>)
    ensures |r| == |lists|
  {
    seq(|lists|, i requires 0 <= i < |lists| => multiset(Rows(lists[i])))
  }

  lemma {:induction false} ConcatRows(lists: seq<seq<PathValue>>)
    ensures multiset(Rows(Concat(lists))) == Total(RowBags(lists))
  {
    if lists != [] {
      assert Rows(lists[0] + Concat(lists[1..])) == Rows(lists[0]) + Rows(Concat(lists[1..]));
      ConcatRows(lists[1..]);
      assert RowBags(lists)[1..] == RowBags(lists[1..]);
    }
  }

  function ItemValues(v: Json, path: seq<string>, owner: Option<string>): (r: seq<seq<PathValue>>)
    requires v.Arr?
    ensures |r| == |v.items| && Values(v, path, owner) == Concat(r)
  {
    seq(|v.items|, i requires 0 <= i < |v.items| => Values(v.items[i], path, Or(EntityId(v.items[i]), owner)))
  }

  lemma {:induction false} RowsShape(v: Json, w: Json, path: seq<string>, owner: Option<string>)
    requires WellFormed(v) && WellFormed(w) && ShapeOf(v) == ShapeOf(w) && NamesData(path)
    ensures multiset(Rows(Values(v, path, owner))) == multiset(Rows(Values(w, path, owner)))
    decreases |path|, v
  {
    if v.Arr? {
      forall i, j | 0 <= i < |v.items| && 0 <= j < |w.items| && ItemShapes(v)[i] == ItemShapes(w)[j]
        ensures RowBags(ItemValues(v, path, owner))[i] == RowBags(ItemValues(w, path, owner))[j]
      {
        IdShape(v.items[i], w.items[j]);
        RowsShape(v.items[i], w.items[j], path, Or(EntityId(v.items[i]), owner));
      }
      var a, b := ItemValues(v, path, owner), ItemValues(w, path, owner);
      Matching(ItemShapes(v), RowBags(a), ItemShapes(w), RowBags(b));
      TotalPermutation(RowBags(a), RowBags(b));
      ConcatRows(a);
      ConcatRows(b);
    } else if path == [] {
      ShapeNormal(v, w);
      EqualValuesEqualTexts(v, w);
      assert Rows([PathValue(v, owner)]) == Rows([PathValue(w, owner)]);
    } else if v.Obj? {
      IdShape(v, w);
      FieldShape(v, w, path[0]);
      LookupWellFormed(v.fields, path[0]);
      LookupWellFormed(w.fields, path[0]);
      RowsShape(Lookup(v.fields, path[0]), Lookup(w.fields, path[0]), path[1..], Or(EntityId(v), owner));
    }
  }

  lemma SourceStable(d: Json, e: Json, path: seq<string>)
    requires WellFormed(d) && WellFormed(e) && ShapeOf(d) == ShapeOf(e) && NamesData(path)
    ensures SourceFingerprint(d, path) == SourceFingerprint(e, path)
  {
    IdShape(d, e);
    PresenceShape(d, e, path);
    RowsShape(d, e, path, EntityId(d));
    var a, b := Rows(Values(d, path, EntityId(d))), Rows(Values(e, path, EntityId(e)));
    SameLength(a, b);
    PairOrder();
    forall x, y | x in a && y in a && PairLe(x, y) && PairLe(y, x) ensures x == y {
      LexAntisymmetric(x.0, y.0);
      LexAntisymmetric(x.1, y.1);
    }
    SortCanonical(PairLe, a, b);
  }

  /** Stability: documents of one shape have one fingerprint. */
  lemma FingerprintStable(profile: Profile, typeName: string, d: Json, e: Json)
    requires WellFormed(d) && WellFormed(e) && ShapeOf(d) == ShapeOf(e)
    requires forall s :: s in SourcesOf(SlotsOf(profile, typeName)) ==> NamesData(s.path)
    ensures Fingerprint(profile, typeName, d) == Fingerprint(profile, typeName, e)
  {
    var sources := SourcesOf(SlotsOf(profile, typeName));
    forall i | 0 <= i < |sources| ensures Parts(d, sources)[i] == Parts(e, sources)[i] {
      assert sources[i] in sources;
      SourceStable(d, e, sources[i].path);
    }
    assert Parts(d, sources) == Parts(e, sources);
  }

  // ----- the order of slots -----

  /** The sources one slot adds to those of a type. */
  function Adds(slot: Slot, typeName: string): seq<Source>
  {
    if Owns(slot, typeName) then slot.sources else []
  }

  lemma FirstSlot(profile: Profile, typeName: string)
    requires profile != []
    ensures SourcesOf(SlotsOf(profile, typeName)) ==
            Adds(profile[0], typeName) + SourcesOf(SlotsOf(profile[1..], typeName))
  {
    var slots := SlotsOf(profile[1..], typeName);
    if Owns(profile[0], typeName) {
      assert SlotsOf(profile, typeName)[1..] == slots;
    } else {
      assert SlotsOf(profile, typeName) == slots;
    }
  }

  lemma {:induction false} SlotRemoved(profile: Profile, typeName: string, j: nat)
    requires j < |profile|
    ensures multiset(SourcesOf(SlotsOf(profile, typeName))) ==
            multiset(Adds(profile[j], typeName)) + multiset(SourcesOf(SlotsOf(Without(profile, j), typeName)))
  {
    FirstSlot(profile, typeName);
    if j == 0 {
      assert Without(profile, 0) == profile[1..];
    } else {
      var less := Without(profile, j);
      assert less[1..] == Without(profile[1..], j - 1);
      FirstSlot(less, typeName);
      SlotRemoved(profile[1..], typeName, j - 1);
    }
  }

  lemma {:induction false} SourcesPermuted(p: Profile, q: Profile, typeName: string)
    requires multiset(p) == multiset(q)
    ensures multiset(SourcesOf(SlotsOf(p, typeName))) == multiset(SourcesOf(SlotsOf(q, typeName)))
  {
    SameLength(p, q);
    if p != [] {
      SameMembers(p, q);
      assert p[0] in q;
      var j :| 0 <= j < |q| && q[j] == p[0];
      Uncons(p);
      RemoveAt(q, j);
      Cancel(p[0], multiset(p[1..]), multiset(Without(q, j)));
      SlotRemoved(p, typeName, 0);
      SlotRemoved(q, typeName, j);
      assert Without(p, 0) == p[1..];
      SourcesPermuted(p[1..], Without(q, j), typeName);
    }
  }

  /** The order in which a profile lists its slots does not reach a fingerprint. */
  lemma SlotOrderIgnored(p: Profile, q: Profile, typeName: string, doc: Json)
    requires multiset(p) == multiset(q)
    ensures Fingerprint(p, typeName, doc) == Fingerprint(q, typeName, doc)
  {
    var a, b := SourcesOf(SlotsOf(p, typeName)), SourcesOf(SlotsOf(q, typeName));
    SourcesPermuted(p, q, typeName);
    Matching(a, Parts(doc, a), b, Parts(doc, b));
    LexOrder();
    forall x, y | x in Parts(doc, a) && y in Parts(doc, a) && LexLe(x, y) && LexLe(y, x) ensures x == y {
      LexAntisymmetric(x, y);
    }
    SortCanonical(LexLe, Parts(doc, a), Parts(doc, b));
  }
}
