/**
 * What a formula or a fingerprint may see of a document: the tree without `...$stmt` keys,
 * without the computed properties of some slots, except for those that are known already.
 * Evaluation and dual assertion change nothing else.
 */
module Views {
  import opened Strings
  import opened Json
  import opened Canonical
  import opened Profiles
  import opened Fingerprints
  import opened Shapes
  import opened Targets

  /** A record is its type, its other fields in order, and the known outputs it has. */
  datatype View =
    | Leaf(v: Json)
    | Items(views: seq<View>)
    | Rec(typeName: Option<string>, core: seq<Shown>, outs: seq<Option<View>>)

  datatype Shown = Shown(key: string, view: View)

  /** The key holds an output of one of the slots, on a record of that type. */
  predicate IsOutput(slots: seq<Slot>, typeName: Option<string>, key: string)
  {
    typeName.Some? && exists i :: 0 <= i < |slots| && slots[i].owner == typeName && slots[i].propertyName == key
  }

  predicate Dropped(slots: seq<Slot>, typeName: Option<string>, key: string)
  {
    IsSidecar(key) || IsOutput(slots, typeName, key)
  }

  function ViewOf(slots: seq<Slot>, known: seq<Slot>, v: Json): View
    decreases v, 3
  {
    match v
    case Arr(items) => Items(seq(|items|, i requires 0 <= i < |items| => ViewOf(slots, known, items[i])))
    case Obj(fields) => Rec(EntityType(v), CoreViews(slots, known, EntityType(v), fields), OutViews(slots, known, v))
    case _ => Leaf(v)
  }

  function CoreViews(slots: seq<Slot>, known: seq<Slot>, typeName: Option<string>, fields: seq<Field>)
    : seq<Shown>
    decreases fields, 0
  {
    if fields == [] then []
    else
      (if Dropped(slots, typeName, fields[0].key) then [] else [Shown(fields[0].key, ViewOf(slots, known, fields[0].value))])
      + CoreViews(slots, known, typeName, fields[1..])
  }

  function OutViews(slots: seq<Slot>, known: seq<Slot>, v: Json): (r: seq<Option<View>>)
    requires v.Obj?
    ensures |r| == |known|
    decreases v, 2
  {
    seq(|known|, i requires 0 <= i < |known| => OutView(slots, known, v, known[i]))
  }

  function OutView(slots: seq<Slot>, known: seq<Slot>, v: Json, slot: Slot): Option<View>
    requires v.Obj?
    decreases v, 1
  {
    if EntityType(v).Some? && EntityType(v) == slot.owner && HasKey(v.fields, slot.propertyName) then
      Some(FieldView(slots, known, v, slot.propertyName))
    else None
  }

  function FieldView(slots: seq<Slot>, known: seq<Slot>, v: Json, key: string): View
    requires v.Obj?
    decreases v, 0
  {
    var value := Lookup(v.fields, key);
    if value == Undefined then Leaf(Undefined)
    else
      LookupSmaller(v.fields, key);
      ViewOf(slots, known, value)
  }

  lemma FieldViewIsView(slots: seq<Slot>, known: seq<Slot>, v: Json, key: string)
    requires v.Obj?
    ensures FieldView(slots, known, v, key) == ViewOf(slots, known, Lookup(v.fields, key))
  {
  }

  // ----- what a view shows of a field -----

  function ViewLookup(core: seq<Shown>, key: string): Option<View>
  {
    if core == [] then None else if core[0].key == key then Some(core[0].view) else ViewLookup(core[1..], key)
  }

  lemma {:induction false} CoreLookup(
      slots: seq<Slot>, known: seq<Slot>, typeName: Option<string>, fields: seq<Field>, key: string)
    requires !Dropped(slots, typeName, key)
    ensures ViewLookup(CoreViews(slots, known, typeName, fields), key) ==
            if HasKey(fields, key) then Some(ViewOf(slots, known, Lookup(fields, key))) else None
  {
    if fields != [] {
      HasKeyTail(fields, key);
      CoreLookup(slots, known, typeName, fields[1..], key);
      var rest := CoreViews(slots, known, typeName, fields[1..]);
      if !Dropped(slots, typeName, fields[0].key) {
        var first := Shown(fields[0].key, ViewOf(slots, known, fields[0].value));
        assert ([first] + rest)[1..] == rest;
      } else {
        assert [] + rest == rest;
      }
    }
  }

  lemma LookupMissing(fields: seq<Field>, key: string)
    requires !HasKey(fields, key)
    ensures Lookup(fields, key) == Undefined
  {
    LookupAbsent(fields, key);
  }

  /** The key is no sidecar, and an output of the slots only if it is a known one. */
  predicate Visibly(slots: seq<Slot>, known: seq<Slot>, typeName: Option<string>, key: string)
  {
    !IsSidecar(key) && (IsOutput(slots, typeName, key) ==> IsOutput(known, typeName, key))
  }

  /** Equal views agree on every field they show. */
  lemma LookupView(slots: seq<Slot>, known: seq<Slot>, v: Json, w: Json, key: string)
    requires v.Obj? && ViewOf(slots, known, v) == ViewOf(slots, known, w) && Visibly(slots, known, EntityType(v), key)
    ensures w.Obj? && EntityType(w) == EntityType(v) && HasKey(v.fields, key) == HasKey(w.fields, key)
    ensures ViewOf(slots, known, Lookup(v.fields, key)) == ViewOf(slots, known, Lookup(w.fields, key))
  {
    assert w.Obj? && EntityType(w) == EntityType(v);
    if IsOutput(slots, EntityType(v), key) {
      var i :| 0 <= i < |known| && known[i].owner == EntityType(v) && known[i].propertyName == key;
      assert OutViews(slots, known, v)[i] == OutViews(slots, known, w)[i];
      FieldViewIsView(slots, known, v, key);
      FieldViewIsView(slots, known, w, key);
    } else {
      CoreLookup(slots, known, EntityType(v), v.fields, key);
      CoreLookup(slots, known, EntityType(w), w.fields, key);
    }
    if !HasKey(v.fields, key) {
      LookupMissing(v.fields, key);
      LookupMissing(w.fields, key);
    }
  }

  lemma FlatView(slots: seq<Slot>, known: seq<Slot>, v: Json, w: Json)
    requires ViewOf(slots, known, v) == ViewOf(slots, known, w) && IsFlat(v)
    ensures v == w
  {
  }

  // ----- the entities of a tree are those of its view -----

  /** No record in it has a type. */
  ghost predicate Inert(v: Json)
  {
    EntityType(v).None? && forall i :: 0 <= i < |Children(v)| ==> Inert(Children(v)[i])
  }

  /** Nothing that a view leaves out holds typed records. */
  ghost predicate Tidy(slots: seq<Slot>, v: Json)
  {
    && (v.Obj? ==> TidyFields(slots, EntityType(v), v.fields))
    && forall i :: 0 <= i < |Children(v)| ==> Tidy(slots, Children(v)[i])
  }

  ghost predicate TidyFields(slots: seq<Slot>, typeName: Option<string>, fields: seq<Field>)
  {
    forall i :: 0 <= i < |fields| && Dropped(slots, typeName, fields[i].key) ==> Inert(fields[i].value)
  }

  lemma {:induction false} InertIsTidy(slots: seq<Slot>, v: Json)
    requires Inert(v)
    ensures Tidy(slots, v)
    decreases v
  {
    forall i | 0 <= i < |Children(v)| ensures Inert(Children(v)[i]) && Tidy(slots, Children(v)[i]) {
      InertIsTidy(slots, Children(v)[i]);
    }
    if v.Obj? {
      forall i | 0 <= i < |v.fields| ensures Inert(v.fields[i].value) { assert Children(v)[i] == v.fields[i].value; }
    }
  }

  /** Slots leave identity and provenance alone. */
  predicate DataNames(slots: seq<Slot>)
  {
    forall i :: 0 <= i < |slots| ==> slots[i].propertyName !in {"@id", "@type"} && !IsSidecar(slots[i].propertyName)
  }

  datatype Seen = Seen(typeName: string, iri: string, view: View)

  function SeenOf(slots: seq<Slot>, known: seq<Slot>, all: seq<Occurrence>): (r: seq<Seen>)
    ensures |r| == |all|
  {
    seq(|all|, i requires 0 <= i < |all| =>
      Seen(all[i].typeName, all[i].iri, ViewOf(slots, known, all[i].entity)))
  }

  /** The entities below a view, with their views. */
  function EntityViews(view: View): seq<Seen>
    decreases view
  {
    match view
    case Leaf(_) => []
    case Items(views) => ListEntities(views)
    case Rec(typeName, core, _) => OwnView(view) + CoreEntities(core)
  }

  function OwnView(view: View): seq<Seen>
    requires view.Rec?
  {
    var id := ViewLookup(view.core, "@id");
    if view.typeName.Some? && id.Some? && id.value.Leaf? && id.value.v.Str? && id.value.v.s != ""
    then [Seen(view.typeName.value, id.value.v.s, view)]
    else []
  }

  function ListEntities(views: seq<View>): seq<Seen>
    decreases views
  {
    if views == [] then [] else EntityViews(views[0]) + ListEntities(views[1..])
  }

  function CoreEntities(core: seq<Shown>): seq<Seen>
    decreases core
  {
    if core == [] then [] else EntityViews(core[0].view) + CoreEntities(core[1..])
  }

  lemma {:induction false} InertHasNoEntities(v: Json, at: seq<nat>)
    requires Inert(v)
    ensures Entities(v, at) == []
    decreases v
  {
    if Entities(v, at) != [] {
      var o := Entities(v, at)[0];
      assert o in Entities(v, at);
      var i := ConcatMember(Below(v, at), o);
      InertHasNoEntities(Children(v)[i], at + [i]);
    }
  }

  lemma ChildTidy(slots: seq<Slot>, v: Json, i: nat)
    requires Tidy(slots, v) && i < |Children(v)|
    ensures Tidy(slots, Children(v)[i])
  {
  }

  lemma OwnSeen(slots: seq<Slot>, known: seq<Slot>, v: Json, at: seq<nat>)
    requires v.Obj? && DataNames(slots)
    ensures SeenOf(slots, known, Own(v, at)) == OwnView(ViewOf(slots, known, v))
  {
    CoreLookup(slots, known, EntityType(v), v.fields, "@id");
    if !HasKey(v.fields, "@id") { LookupMissing(v.fields, "@id"); }
  }

  lemma SeenConcat(slots: seq<Slot>, known: seq<Slot>, a: seq<Occurrence>, b: seq<Occurrence>)
    ensures SeenOf(slots, known, a + b) == SeenOf(slots, known, a) + SeenOf(slots, known, b)
  {
  }

  /** Collected entities, in order, are what the view shows: their addresses apart. */
  lemma {:induction false} EntitiesSeen(slots: seq<Slot>, known: seq<Slot>, v: Json, at: seq<nat>)
    requires Tidy(slots, v) && DataNames(slots)
    ensures SeenOf(slots, known, Entities(v, at)) == EntityViews(ViewOf(slots, known, v))
    decreases v, |Children(v)| + 1
  {
    SeenConcat(slots, known, Own(v, at), Concat(Below(v, at)));
    assert Below(v, at)[0..] == Below(v, at);
    match v
    case Arr(items) =>
      ItemsSeen(slots, known, v, at, 0);
      assert ViewOf(slots, known, v).views[0..] == ViewOf(slots, known, v).views;
    case Obj(fields) =>
      OwnSeen(slots, known, v, at);
      FieldsSeen(slots, known, v, at, 0);
      assert v.fields[0..] == v.fields;
    case _ =>
  }

  lemma {:induction false} ItemsSeen(slots: seq<Slot>, known: seq<Slot>, v: Json, at: seq<nat>, i: nat)
    requires v.Arr? && Tidy(slots, v) && DataNames(slots) && i <= |v.items|
    ensures SeenOf(slots, known, Concat(Below(v, at)[i..])) == ListEntities(ViewOf(slots, known, v).views[i..])
    decreases v, |v.items| - i
  {
    if i < |v.items| {
      ChildTidy(slots, v, i);
      EntitiesSeen(slots, known, v.items[i], at + [i]);
      ItemsSeen(slots, known, v, at, i + 1);
      SeenConcat(slots, known, Below(v, at)[i], Concat(Below(v, at)[i + 1..]));
      assert Below(v, at)[i..][1..] == Below(v, at)[i + 1..];
      assert ViewOf(slots, known, v).views[i..][1..] == ViewOf(slots, known, v).views[i + 1..];
    }
  }

  lemma {:induction false} FieldsSeen(slots: seq<Slot>, known: seq<Slot>, v: Json, at: seq<nat>, i: nat)
    requires v.Obj? && Tidy(slots, v) && DataNames(slots) && i <= |v.fields|
    ensures SeenOf(slots, known, Concat(Below(v, at)[i..]))
         == CoreEntities(CoreViews(slots, known, EntityType(v), v.fields[i..]))
    decreases v, |v.fields| - i
  {
    if i < |v.fields| {
      var rest := CoreViews(slots, known, EntityType(v), v.fields[i + 1..]);
      FieldsSeen(slots, known, v, at, i + 1);
      SeenConcat(slots, known, Below(v, at)[i], Concat(Below(v, at)[i + 1..]));
      assert Below(v, at)[i..][1..] == Below(v, at)[i + 1..];
      assert v.fields[i..][1..] == v.fields[i + 1..];
      assert Children(v)[i] == v.fields[i].value && v.fields[i].value < v;
      if Dropped(slots, EntityType(v), v.fields[i].key) {
        InertHasNoEntities(v.fields[i].value, at + [i]);
        assert Below(v, at)[i] == [];
        assert [] + rest == rest;
      } else {
        ChildTidy(slots, v, i);
        EntitiesSeen(slots, known, v.fields[i].value, at + [i]);
        var first := Shown(v.fields[i].key, ViewOf(slots, known, v.fields[i].value));
        assert ([first] + rest)[1..] == rest;
      }
    }
  }

  // ----- equal views, equal fingerprints -----

  /** Every record without an id shows all its fields but sidecars. */
  ghost predicate Open(slots: seq<Slot>, known: seq<Slot>, v: Json)
  {
    && (v.Obj? && !Identified(v) ==> forall key :: !IsSidecar(key) ==> Visibly(slots, known, EntityType(v), key))
    && forall i :: 0 <= i < |Children(v)| ==> Open(slots, known, Children(v)[i])
  }

  /** The path steps over fields a view shows on every record. */
  ghost predicate ShownPath(slots: seq<Slot>, known: seq<Slot>, path: seq<string>)
  {
    forall i :: 0 <= i < |path| ==> ShownName(slots, known, path[i])
  }

  predicate ShownName(slots: seq<Slot>, known: seq<Slot>, name: string)
  {
    !IsSidecar(name) && forall j :: 0 <= j < |slots| && slots[j].propertyName == name ==> slots[j] in known
  }

  lemma ShownNameShows(slots: seq<Slot>, known: seq<Slot>, typeName: Option<string>, name: string)
    requires ShownName(slots, known, name)
    ensures Visibly(slots, known, typeName, name)
  {
  }

  lemma IdView(slots: seq<Slot>, known: seq<Slot>, v: Json, w: Json)
    requires ViewOf(slots, known, v) == ViewOf(slots, known, w) && DataNames(slots)
    ensures EntityId(v) == EntityId(w) && EntityType(v) == EntityType(w)
  {
    if v.Obj? {
      LookupView(slots, known, v, w, "@id");
      if Lookup(v.fields, "@id").Str? {
        FlatView(slots, known, Lookup(v.fields, "@id"), Lookup(w.fields, "@id"));
      } else if Lookup(w.fields, "@id").Str? {
        FlatView(slots, known, Lookup(w.fields, "@id"), Lookup(v.fields, "@id"));
      }
    }
  }

  lemma {:induction false} OpenLookup(slots: seq<Slot>, known: seq<Slot>, v: Json, key: string)
    requires v.Obj? && Open(slots, known, v)
    ensures Open(slots, known, Lookup(v.fields, key))
  {
    LookupIsField(v.fields, key);
    if i :| 0 <= i < |v.fields| && v.fields[i] == Field(key, Lookup(v.fields, key)) {
      assert Children(v)[i] == v.fields[i].value;
    }
  }

  lemma {:induction false} NormalView(slots: seq<Slot>, known: seq<Slot>, v: Json, w: Json)
    requires ViewOf(slots, known, v) == ViewOf(slots, known, w) && DataNames(slots)
    requires WellFormed(v) && WellFormed(w) && Open(slots, known, v)
    ensures Normal(v) == Normal(w)
    decreases v, 1
  {
    if v.Arr? {
      forall i | 0 <= i < |v.items| ensures Norms(v)[i] == Norms(w)[i] {
        assert ViewOf(slots, known, v).views[i] == ViewOf(slots, known, w).views[i];
        assert Children(v)[i] == v.items[i];
        NormalView(slots, known, v.items[i], w.items[i]);
      }
      assert Norms(v) == Norms(w);
    } else if v.Obj? {
      IdView(slots, known, v, w);
      if !Identified(v) {
        forall key ensures key in Keys(Visible(v.fields)) <==> key in Keys(Visible(w.fields)) {
          VisibleKey(v.fields, key);
          VisibleKey(w.fields, key);
          if !IsSidecar(key) { LookupView(slots, known, v, w, key); }
        }
        assert Keys(Visible(v.fields)) == Keys(Visible(w.fields));
        forall key | key in Keys(Visible(v.fields)) ensures NormAt(v, key) == NormAt(w, key) {
          VisibleKey(v.fields, key);
          FieldNormalView(slots, known, v, w, key);
        }
        NormalFromFields(v, w);
      }
    }
  }

  lemma {:induction false} FieldNormalView(slots: seq<Slot>, known: seq<Slot>, v: Json, w: Json, key: string)
    requires v.Obj? && ViewOf(slots, known, v) == ViewOf(slots, known, w) && DataNames(slots)
    requires WellFormed(v) && WellFormed(w) && Open(slots, known, v) && Visibly(slots, known, EntityType(v), key)
    ensures w.Obj? && NormAt(v, key) == NormAt(w, key)
    decreases v, 0
  {
    LookupView(slots, known, v, w, key);
    if Lookup(v.fields, key) != Undefined {
      LookupSmaller(v.fields, key);
      LookupWellFormed(v.fields, key);
      LookupWellFormed(w.fields, key);
      OpenLookup(slots, known, v, key);
      NormalView(slots, known, Lookup(v.fields, key), Lookup(w.fields, key));
    } else {
      FlatView(slots, known, Lookup(v.fields, key), Lookup(w.fields, key));
    }
  }

  lemma {:induction false} PresenceView(slots: seq<Slot>, known: seq<Slot>, v: Json, w: Json, path: seq<string>)
    requires ViewOf(slots, known, v) == ViewOf(slots, known, w) && ShownPath(slots, known, path)
    ensures ArrayDerived(v, path) == ArrayDerived(w, path)
    ensures SourcePresent(v, path) == SourcePresent(w, path)
    decreases |path|, v
  {
    if v.Arr? {
      assert |v.items| == |ViewOf(slots, known, v).views| == |w.items|;
      forall i | 0 <= i < |v.items| ensures SourcePresent(v.items[i], path) == SourcePresent(w.items[i], path) {
        assert ViewOf(slots, known, v).views[i] == ViewOf(slots, known, w).views[i];
        PresenceView(slots, known, v.items[i], w.items[i], path);
      }
    } else if path != [] && v.Obj? {
      ShownNameShows(slots, known, EntityType(v), path[0]);
      LookupView(slots, known, v, w, path[0]);
      PresenceView(slots, known, Lookup(v.fields, path[0]), Lookup(w.fields, path[0]), path[1..]);
    }
  }

  lemma {:induction false} RowsView(
      slots: seq<Slot>, known: seq<Slot>, v: Json, w: Json, path: seq<string>, owner: Option<string>)
    requires ViewOf(slots, known, v) == ViewOf(slots, known, w) && DataNames(slots)
    requires WellFormed(v) && WellFormed(w) && Open(slots, known, v) && ShownPath(slots, known, path)
    ensures Rows(Values(v, path, owner)) == Rows(Values(w, path, owner))
    decreases |path|, v, 1
  {
    if v.Arr? {
      var a, b := ItemValues(v, path, owner), ItemValues(w, path, owner);
      assert |v.items| == |ViewOf(slots, known, v).views| == |w.items|;
      forall i | 0 <= i < |v.items| ensures Rows(a[i]) == Rows(b[i]) {
        assert ViewOf(slots, known, v).views[i] == ViewOf(slots, known, w).views[i];
        assert Children(v)[i] == v.items[i];
        IdView(slots, known, v.items[i], w.items[i]);
        RowsView(slots, known, v.items[i], w.items[i], path, Or(EntityId(v.items[i]), owner));
      }
      ConcatSameRows(a, b);
    } else if path == [] {
      NormalView(slots, known, v, w);
      EqualValuesEqualTexts(v, w);
    } else if v.Obj? {
      IdView(slots, known, v, w);
      ShownNameShows(slots, known, EntityType(v), path[0]);
      LookupView(slots, known, v, w, path[0]);
      LookupWellFormed(v.fields, path[0]);
      LookupWellFormed(w.fields, path[0]);
      OpenLookup(slots, known, v, path[0]);
      RowsView(slots, known, Lookup(v.fields, path[0]), Lookup(w.fields, path[0]), path[1..], Or(EntityId(v), owner));
    }
  }

  lemma {:induction false} ConcatSameRows(a: seq<seq<PathValue>>, b: seq<seq<PathValue>>)
    requires |a| == |b| && forall i :: 0 <= i < |a| ==> Rows(a[i]) == Rows(b[i])
    ensures Rows(Concat(a)) == Rows(Concat(b))
  {
    if a != [] {
      ConcatSameRows(a[1..], b[1..]);
      assert Rows(a[0] + Concat(a[1..])) == Rows(a[0]) + Rows(Concat(a[1..]));
      assert Rows(b[0] + Concat(b[1..])) == Rows(b[0]) + Rows(Concat(b[1..]));
    }
  }

  /** Every source of a type's slots is a path the view shows. */
  ghost predicate ShowsSources(slots: seq<Slot>, known: seq<Slot>, profile: Profile)
  {
    forall t, s :: s in SourcesOf(SlotsOf(profile, t)) ==> ShownPath(slots, known, s.path)
  }

  lemma SourceFingerprintView(slots: seq<Slot>, known: seq<Slot>, v: Json, w: Json, path: seq<string>)
    requires ViewOf(slots, known, v) == ViewOf(slots, known, w) && DataNames(slots)
    requires WellFormed(v) && WellFormed(w) && Open(slots, known, v) && ShownPath(slots, known, path)
    ensures SourceFingerprint(v, path) == SourceFingerprint(w, path)
  {
    IdView(slots, known, v, w);
    PresenceView(slots, known, v, w, path);
    RowsView(slots, known, v, w, path, EntityId(v));
    assert |Values(v, path, EntityId(v))| == |Rows(Values(v, path, EntityId(v)))|;
    assert |Values(w, path, EntityId(w))| == |Rows(Values(w, path, EntityId(w)))|;
  }

  /** Records of one view have one fingerprint, when the view shows all that sources read. */
  lemma FingerprintView(
      slots: seq<Slot>, known: seq<Slot>, profile: Profile, typeName: string, v: Json, w: Json)
    requires ViewOf(slots, known, v) == ViewOf(slots, known, w) && DataNames(slots)
    requires WellFormed(v) && WellFormed(w) && Open(slots, known, v) && ShowsSources(slots, known, profile)
    ensures Fingerprint(profile, typeName, v) == Fingerprint(profile, typeName, w)
  {
    var sources := SourcesOf(SlotsOf(profile, typeName));
    forall i | 0 <= i < |sources| ensures Parts(v, sources)[i] == Parts(w, sources)[i] {
      assert sources[i] in sources;
      SourceFingerprintView(slots, known, v, w, sources[i].path);
    }
    assert Parts(v, sources) == Parts(w, sources);
  }

  lemma {:induction false} CountView(
      slots: seq<Slot>, known: seq<Slot>, own: seq<Slot>, sources: seq<Source>, v: Json, w: Json)
    requires ViewOf(slots, known, v) == ViewOf(slots, known, w)
    requires forall s :: s in sources ==> ShownPath(slots, known, s.path)
    ensures CountPresent(own, sources, v) == CountPresent(own, sources, w)
  {
    if sources != [] {
      var n := |sources| - 1;
      CountView(slots, known, own, sources[..n], v, w);
      assert sources[n] in sources;
      PresenceView(slots, known, v, w, sources[n].path);
    }
  }

  lemma PresentView(slots: seq<Slot>, known: seq<Slot>, profile: Profile, typeName: string, v: Json, w: Json)
    requires ViewOf(slots, known, v) == ViewOf(slots, known, w) && ShowsSources(slots, known, profile)
    ensures Present(profile, typeName, v) == Present(profile, typeName, w)
  {
    CountView(slots, known, SlotsOf(profile, typeName), SourcesOf(SlotsOf(profile, typeName)), v, w);
  }

  // ----- equal views, equal targets -----

  /** Candidate k of one list and candidate k of the other. */
  ghost predicate Twins(a: seq<Entry>, b: seq<Entry>, x: Entry, y: Entry)
  {
    exists k :: 0 <= k < |a| && k < |b| && a[k] == x && b[k] == y
  }

  predicate SameOffer(x: Entry, y: Entry)
  {
    x.occurrence.iri == y.occurrence.iri && (x.occurrence.at == []) == (y.occurrence.at == []) && x.present == y.present
  }

  lemma {:induction false} FindAlike(a: seq<Entry>, b: seq<Entry>, iri: string)
    requires |a| == |b| && forall i :: 0 <= i < |a| ==> SameOffer(a[i], b[i])
    ensures Find(a, iri) == Find(b, iri)
  {
    if a != [] {
      FindAlike(a[1..], b[1..], iri);
    }
  }

  /** The selection looks at IRIs, root position and present sources only. */
  lemma {:induction false} OfferedAlike(a: seq<Entry>, b: seq<Entry>)
    requires |a| == |b| && forall i :: 0 <= i < |a| ==> SameOffer(a[i], b[i])
    ensures |Offered(a)| == |Offered(b)|
    ensures forall i :: 0 <= i < |Offered(a)| ==>
              SameOffer(Offered(a)[i], Offered(b)[i]) && Twins(a, b, Offered(a)[i], Offered(b)[i])
  {
    if a != [] {
      var n := |a| - 1;
      OfferedAlike(a[..n], b[..n]);
      var x, y := Offered(a[..n]), Offered(b[..n]);
      FindAlike(x, y, a[n].occurrence.iri);
      forall i | 0 <= i < |Offered(a)|
        ensures SameOffer(Offered(a)[i], Offered(b)[i]) && Twins(a, b, Offered(a)[i], Offered(b)[i])
      {
        if i < |x| && Offered(a)[i] == x[i] && Offered(b)[i] == y[i] {
          assert Twins(a[..n], b[..n], x[i], y[i]);
          var k :| 0 <= k < n && a[..n][k] == x[i] && b[..n][k] == y[i];
          assert a[k] == x[i] && b[k] == y[i];
        } else {
          assert Offered(a)[i] == a[n] && Offered(b)[i] == b[n];
        }
      }
    }
  }

  lemma {:induction false} EntityOpen(slots: seq<Slot>, known: seq<Slot>, v: Json, at: seq<nat>, o: Occurrence)
    requires Open(slots, known, v) && o in Entities(v, at)
    ensures Open(slots, known, o.entity)
    decreases v
  {
    if o !in Own(v, at) {
      var i := ConcatMember(Below(v, at), o);
      EntityOpen(slots, known, Children(v)[i], at + [i], o);
    }
  }

  /** Trees that show the same through the view. */
  ghost predicate Alike(slots: seq<Slot>, known: seq<Slot>, v: Json, w: Json)
  {
    && ViewOf(slots, known, v) == ViewOf(slots, known, w)
    && WellFormed(v) && WellFormed(w) && Tidy(slots, v) && Tidy(slots, w) && Open(slots, known, v)
  }

  lemma SameEntities(slots: seq<Slot>, known: seq<Slot>, v: Json, w: Json, k: nat)
    requires Alike(slots, known, v, w) && DataNames(slots) && k < |Entities(v, [])|
    ensures |Entities(v, [])| == |Entities(w, [])|
    ensures var o, p := Entities(v, [])[k], Entities(w, [])[k];
      && o.typeName == p.typeName && o.iri == p.iri && Known(slots, known, o.entity, p.entity)
      && (o.at == [] <==> p.at == [])
  {
    EntitiesSeen(slots, known, v, []);
    EntitiesSeen(slots, known, w, []);
    var a, b := SeenOf(slots, known, Entities(v, [])), SeenOf(slots, known, Entities(w, []));
    assert a[k] == b[k];
    var o, p := Entities(v, [])[k], Entities(w, [])[k];
    assert o in Entities(v, []) && p in Entities(w, []);
    EntityWellFormed(v, [], o);
    EntityWellFormed(w, [], p);
    EntityOpen(slots, known, v, [], o);
    if k > 0 {
      RootFirst(v, k);
      RootFirst(w, k);
    } else {
      FirstAt(v);
      FirstAt(w);
      IdView(slots, known, v, w);
    }
  }

  /** Two records of one view, as far as fingerprints are concerned. */
  ghost predicate Known(slots: seq<Slot>, known: seq<Slot>, v: Json, w: Json)
  {
    ViewOf(slots, known, v) == ViewOf(slots, known, w) && WellFormed(v) && WellFormed(w) && Open(slots, known, v)
  }

  /** The first entity is the root exactly when the root is one. */
  lemma FirstAt(v: Json)
    requires Entities(v, []) != []
    ensures Entities(v, [])[0].at == [] <==> Own(v, []) != []
  {
    if Own(v, []) == [] {
      var o := Entities(v, [])[0];
      assert o in Concat(Below(v, []));
      var i := ConcatMember(Below(v, []), o);
      EntitiesAt(Children(v)[i], [] + [i], o);
    }
  }

  ghost predicate SameSelection(slots: seq<Slot>, known: seq<Slot>, profile: Profile, v: Json, w: Json)
  {
    var a, b := CalcTargets(v, profile), CalcTargets(w, profile);
    |a| == |b| && forall i :: 0 <= i < |a| ==> SameOccurrence(slots, known, a[i], b[i]) && Paired(v, w, a[i], b[i])
  }

  /** Collected at the same position. */
  ghost predicate Paired(v: Json, w: Json, o: Occurrence, p: Occurrence)
  {
    exists k :: 0 <= k < |Entities(v, [])| && k < |Entities(w, [])| && Entities(v, [])[k] == o && Entities(w, [])[k] == p
  }

  ghost predicate SameOccurrence(slots: seq<Slot>, known: seq<Slot>, o: Occurrence, p: Occurrence)
  {
    o.typeName == p.typeName && o.iri == p.iri && Known(slots, known, o.entity, p.entity)
  }

  /** Trees of one view have the same targets, in the same order. */
  lemma TargetsView(slots: seq<Slot>, known: seq<Slot>, profile: Profile, v: Json, w: Json)
    requires Alike(slots, known, v, w) && DataNames(slots) && ShowsSources(slots, known, profile)
    ensures SameSelection(slots, known, profile, v, w)
  {
    var a, b := Candidates(v, profile), Candidates(w, profile);
    assert |a| == |b| by {
      EntitiesSeen(slots, known, v, []);
      EntitiesSeen(slots, known, w, []);
    }
    forall k | 0 <= k < |a|
      ensures SameOffer(a[k], b[k]) && SameOccurrence(slots, known, a[k].occurrence, b[k].occurrence)
    {
      SameEntities(slots, known, v, w, k);
      PresentView(slots, known, profile, a[k].occurrence.typeName, a[k].occurrence.entity, b[k].occurrence.entity);
    }
    OfferedAlike(a, b);
    var x, y := CalcTargets(v, profile), CalcTargets(w, profile);
    forall i | 0 <= i < |x| ensures SameOccurrence(slots, known, x[i], y[i]) && Paired(v, w, x[i], y[i]) {
      assert Twins(a, b, Offered(a)[i], Offered(b)[i]);
      var k :| 0 <= k < |a| && k < |b| && a[k] == Offered(a)[i] && b[k] == Offered(b)[i];
      assert Entities(v, [])[k] == x[i] && Entities(w, [])[k] == y[i];
    }
  }
}
