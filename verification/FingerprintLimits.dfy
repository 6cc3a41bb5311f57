/**
 * What a fingerprint does not tell apart: a string and a record with that id, a number and an
 * array that holds it. Formulas over source paths are determined by fingerprints exactly on
 * records where this does not matter.
 */
module FingerprintLimits {
  import opened Strings
  import opened Json
  import opened JsonText
  import opened Canonical
  import opened Profiles
  import opened Fingerprints
  import opened Pushdown
  import opened Coherence
  import opened PlainFormulas

  // ----- two confusions -----

  const NAMED := Obj([Field("name", Str("a"))])
  const LINKED := Obj([Field("name", Obj([Field("@id", Str("a"))]))])

  lemma SamePart(d: Json, e: Json, source: Source)
    requires Rows(Values(d, source.path, EntityId(d))) == Rows(Values(e, source.path, EntityId(e)))
    requires ListForm(d, source.path) == ListForm(e, source.path)
    ensures Part(d, source) == Part(e, source)
  {
  }

  lemma SamePartsSameFingerprint(profile: Profile, typeName: string, d: Json, e: Json)
    requires forall s :: s in SourcesOf(SlotsOf(profile, typeName)) ==> Part(d, s) == Part(e, s)
    ensures Fingerprint(profile, typeName, d) == Fingerprint(profile, typeName, e)
  {
    var sources := SourcesOf(SlotsOf(profile, typeName));
    forall i | 0 <= i < |sources| ensures Parts(d, sources)[i] == Parts(e, sources)[i] { assert sources[i] in sources; }
    assert Parts(d, sources) == Parts(e, sources);
  }

  lemma FieldValues(name: string, value: Json)
    requires name != "@id" && !value.Arr?
    ensures var v := Obj([Field(name, value)]);
      && Values(v, [name], None) == [PathValue(value, None)] && EntityId(v) == None
      && !ListForm(v, [name]) && Get(v, [name]) == value
  {
    var v := Obj([Field(name, value)]);
    assert v.fields[1..] == [] && [name][1..] == [] && [name][0] == name;
    assert Lookup(v.fields, name) == value;
    assert Lookup(v.fields, "@id") == Undefined;
    assert Values(value, [], None) == [PathValue(value, None)];
    assert !ArrayDerived(value, []) && !ArrayDerived(v, [name]);
    assert Values(v, [name], EntityId(v)) == [PathValue(value, None)];
  }

  lemma LinkText(iri: string)
    requires iri != ""
    ensures StableJson(Obj([Field("@id", Str(iri))])) == StableJson(Str(iri))
  {
  }

  /** A name and a record with that id have one fingerprint; a formula binds the name and zero. */
  lemma NameOrRecord(profile: Profile, typeName: string)
    requires SourcesOf(SlotsOf(profile, typeName)) == [Source("name", ["name"])]
    ensures Fingerprint(profile, typeName, NAMED) == Fingerprint(profile, typeName, LINKED)
    ensures Reading(NAMED, ["name"]) == Str("a") && Reading(LINKED, ["name"]) == Num(0)
  {
    FieldValues("name", Str("a"));
    FieldValues("name", Obj([Field("@id", Str("a"))]));
    LinkText("a");
    assert Rows(Values(NAMED, ["name"], None)) == Rows(Values(LINKED, ["name"], None));
    SamePart(NAMED, LINKED, Source("name", ["name"]));
    SamePartsSameFingerprint(profile, typeName, NAMED, LINKED);
  }

  /** An order with one item, which has the amount `f`. */
  function OrderOf(f: Json): Json
  {
    Obj([Field("items", Arr([ItemOf(f)]))])
  }

  function ItemOf(f: Json): Json
  {
    Obj([Field("@id", Str("a")), Field("f", f)])
  }

  lemma AmountValues(f: Json, path: seq<string>)
    requires f == Num(1) || f == Arr([Num(1)])
    requires path == ["items"] || path == ["items", "f"]
    ensures Values(OrderOf(f), path, None) ==
            [PathValue(if path == ["items"] then ItemOf(f) else Num(1), Some("a"))]
    ensures ArrayDerived(OrderOf(f), path)
  {
    assert EntityId(ItemOf(f)) == Some("a");
    assert path[1..] == if path == ["items"] then [] else ["f"];
    assert ["f"][1..] == [];
    assert Lookup(ItemOf(f).fields, "f") == f;
    SingleConcat([PathValue(Num(1), Some("a"))]);
    if f.Arr? {
      assert Values(f, [], Some("a")) == Concat([Values(Num(1), [], Some("a"))]) by {
        assert seq(1, i requires 0 <= i < 1 => Values(f.items[i], [], Or(EntityId(f.items[i]), Some("a"))))
            == [Values(Num(1), [], Some("a"))];
      }
    }
    var rest := path[1..];
    var item := Values(ItemOf(f), rest, Some("a"));
    assert item == [PathValue(if path == ["items"] then ItemOf(f) else Num(1), Some("a"))];
    SingleConcat(item);
    var items := Arr([ItemOf(f)]);
    assert Lookup(OrderOf(f).fields, path[0]) == items;
    assert seq(1, i requires 0 <= i < 1 => Values(items.items[i], rest, Or(EntityId(items.items[i]), None))) == [item];
  }

  lemma SingleConcat<T>(list: seq<T>)
    ensures Concat([list]) == list
  {
    assert [list][1..] == [];
    assert list + [] == list;
  }

  lemma AmountParts(source: Source)
    requires source.path == ["items"] || source.path == ["items", "f"]
    ensures Part(OrderOf(Num(1)), source) == Part(OrderOf(Arr([Num(1)])), source)
  {
    AmountValues(Num(1), source.path);
    AmountValues(Arr([Num(1)]), source.path);
    var a, b := OrderOf(Num(1)), OrderOf(Arr([Num(1)]));
    assert EntityId(a) == None == EntityId(b);
    if source.path == ["items"] {
      assert StableJson(ItemOf(Num(1))) == StableJson(ItemOf(Arr([Num(1)])));
      assert Rows(Values(a, source.path, None)) == Rows(Values(b, source.path, None));
    }
    SamePart(a, b, source);
  }

  lemma AmountFingerprints(profile: Profile, typeName: string)
    requires forall s :: s in SourcesOf(SlotsOf(profile, typeName)) ==> s.path == ["items"] || s.path == ["items", "f"]
    ensures Fingerprint(profile, typeName, OrderOf(Num(1))) == Fingerprint(profile, typeName, OrderOf(Arr([Num(1)])))
  {
    forall s | s in SourcesOf(SlotsOf(profile, typeName))
      ensures Part(OrderOf(Num(1)), s) == Part(OrderOf(Arr([Num(1)])), s)
    {
      AmountParts(s);
    }
    SamePartsSameFingerprint(profile, typeName, OrderOf(Num(1)), OrderOf(Arr([Num(1)])));
  }

  /** A number and an array with that number have one fingerprint; a sum counts the number only. */
  lemma AmountOrList(profile: Profile, typeName: string, slot: Slot, parse: string -> int)
    requires forall s :: s in SourcesOf(SlotsOf(profile, typeName)) ==> s.path == ["items"] || s.path == ["items", "f"]
    requires slot.aggregate == Some(Aggregate(AggregateKind.Sum, ["items"], Some(["f"])))
    ensures Fingerprint(profile, typeName, OrderOf(Num(1))) == Fingerprint(profile, typeName, OrderOf(Arr([Num(1)])))
    ensures AggregateOf(slot, OrderOf(Num(1)), parse) == 1.0 && AggregateOf(slot, OrderOf(Arr([Num(1)])), parse) == 0.0
  {
    AmountFingerprints(profile, typeName);
    AmountAggregate(slot, Num(1), parse);
    AmountAggregate(slot, Arr([Num(1)]), parse);
  }

  lemma AmountSum(slot: Slot, f: Json, coerce: Json -> int)
    requires slot.aggregate == Some(Aggregate(AggregateKind.Sum, ["items"], Some(["f"])))
    ensures ComputeAggregate(slot, OrderOf(f), coerce) == Numeric(f, coerce) as real
  {
    assert Get(OrderOf(f), ["items"]) == Arr([ItemOf(f)]) by {
      assert ["items"][1..] == [] && ["items"][0] == "items";
    }
    assert Get(ItemOf(f), ["f"]) == f by {
      var fields := ItemOf(f).fields;
      assert fields[0].key != "f" && fields[1..] == [Field("f", f)];
      assert Lookup(fields[1..], "f") == f;
      assert ["f"][1..] == [] && ["f"][0] == "f";
    }
    assert Numbers([ItemOf(f)], Some(["f"]), coerce) == [Numeric(f, coerce)];
    assert [Numeric(f, coerce)][1..] == [];
    assert Pushdown.Sum([Numeric(f, coerce)]) == Numeric(f, coerce);
  }

  lemma AmountAggregate(slot: Slot, f: Json, parse: string -> int)
    requires slot.aggregate == Some(Aggregate(AggregateKind.Sum, ["items"], Some(["f"])))
    ensures AggregateOf(slot, OrderOf(f), parse) == NumericOf(f, parse) as real
  {
    forall coerce: Json -> int
      ensures ComputeAggregate(slot, OrderOf(f), coerce) == Numeric(f, coerce) as real
    {
      AmountSum(slot, f, coerce);
    }
  }

  // ----- the exact condition for formulas -----

  /** No segment picks an item or the length of an array. */
  ghost predicate NamesOnly(path: seq<string>)
  {
    forall i :: 0 <= i < |path| ==> path[i] != "length" && forall n: nat :: IntText(n) != path[i]
  }

  lemma {:induction false} NoIndex(key: string, n: nat, from: nat)
    requires from <= n && forall k: nat :: IntText(k) != key
    ensures IndexOf(key, n, from) == n
    decreases n - from
  {
    if from < n { NoIndex(key, n, from + 1); }
  }

  lemma {:induction false} ArrayOnTheWay(v: Json, path: seq<string>)
    requires NamesOnly(path) && ArrayDerived(v, path)
    ensures Get(v, path).Arr? || Get(v, path) == Undefined
    decreases |path|
  {
    if v.Arr? && path != [] {
      NoIndex(path[0], |v.items|, 0);
      if |path| > 1 { GetOfFlat(Undefined, path[1..]); }
    } else if v.Obj? {
      ArrayOnTheWay(Lookup(v.fields, path[0]), path[1..]);
    }
  }

  lemma {:induction false} NoArrayOnTheWay(v: Json, path: seq<string>, owner: Option<string>) returns (o: Option<string>)
    requires !ArrayDerived(v, path)
    ensures Values(v, path, owner) == [PathValue(Get(v, path), o)] && !Get(v, path).Arr?
    decreases |path|
  {
    o := owner;
    if path != [] {
      if v.Obj? {
        o := NoArrayOnTheWay(Lookup(v.fields, path[0]), path[1..], Or(EntityId(v), owner));
      } else {
        GetOfFlat(v, path);
      }
    }
  }

  /** A string, and a record that has it as its id. */
  predicate StandsFor(a: Json, b: Json)
  {
    a.Str? && b.Obj? && Identified(b) && EntityId(b).value == a.s
  }

  lemma ReadingsOfOneValue(d: Json, e: Json, path: seq<string>)
    requires !ArrayDerived(d, path) && !ArrayDerived(e, path) && SourceValues(d, path) == SourceValues(e, path)
    ensures Normal(Get(d, path)) == Normal(Get(e, path)) && !Get(d, path).Arr? && !Get(e, path).Arr?
  {
    var o := NoArrayOnTheWay(d, path, EntityId(d));
    var p := NoArrayOnTheWay(e, path, EntityId(e));
    var x, y := Denotations(Values(d, path, EntityId(d))), Denotations(Values(e, path, EntityId(e)));
    assert x == [Normal(Get(d, path))] && y == [Normal(Get(e, path))];
    assert x[0] in multiset(x);
  }

  /** The fingerprint's list flag is whether an array was met. */
  lemma ListFormDerived(v: Json, path: seq<string>)
    ensures ListForm(v, path) == ArrayDerived(v, path)
  {
    if !ArrayDerived(v, path) { var _ := NoArrayOnTheWay(v, path, EntityId(v)); }
  }

  /**
   * Where fingerprints agree on a path, formulas read the same if and only if both records
   * have a scalar there or neither has. Without arrays on the way the only other case is a
   * string against a record with that id.
   */
  lemma SameReadingIff(d: Json, e: Json, path: seq<string>)
    requires NamesOnly(path) && SourceValues(d, path) == SourceValues(e, path) && ListForm(d, path) == ListForm(e, path)
    ensures Reading(d, path) == Reading(e, path) <==> (IsFlat(Get(d, path)) <==> IsFlat(Get(e, path)))
    ensures !ListForm(d, path) && Reading(d, path) != Reading(e, path) ==>
              StandsFor(Get(d, path), Get(e, path)) || StandsFor(Get(e, path), Get(d, path))
  {
    ListFormDerived(d, path);
    ListFormDerived(e, path);
    if ArrayDerived(d, path) {
      ArrayOnTheWay(d, path);
      ArrayOnTheWay(e, path);
    } else {
      ReadingsOfOneValue(d, e, path);
      if IsFlat(Get(d, path)) && IsFlat(Get(e, path)) { FlatNormal(Get(d, path), Get(e, path)); }
    }
  }

  /** Records that occur with one fingerprint have scalars at the same paths. */
  ghost predicate SameKinds(profile: Profile, occurs: Domain)
  {
    forall s, t, source, x, y :: s in profile && Owns(s, t) && source in s.sources
        && Occurs(occurs, t, x) && Occurs(occurs, t, y) && Fingerprint(profile, t, x) == Fingerprint(profile, t, y)
      ==> (IsFlat(Get(x, source.path)) <==> IsFlat(Get(y, source.path)))
  }

  /** Formulas only, over named properties, with sources told apart by their text. */
  ghost predicate FormulaProfile(profile: Profile)
  {
    && (forall s :: s in profile ==> s.aggregate.None?)
    && (forall s, source :: s in profile && source in s.sources ==> NamesOnly(source.path))
    && forall t: string {:trigger SlotsOf(profile, t)} :: CleanSources(SourcesOf(SlotsOf(profile, t)))
  }

  lemma SourceReadingIff(profile: Profile, slot: Slot, source: Source, t: string, x: Json, y: Json)
    requires FormulaProfile(profile) && slot in profile && Owns(slot, t) && source in slot.sources
    requires WellFormed(x) && WellFormed(y) && Fingerprint(profile, t, x) == Fingerprint(profile, t, y)
    ensures Reading(x, source.path) == Reading(y, source.path) <==>
            (IsFlat(Get(x, source.path)) <==> IsFlat(Get(y, source.path)))
  {
    SlotsOfMember(profile, t, slot);
    SourcesOfContains(SlotsOf(profile, t), slot, source);
    FingerprintFaithful(profile, t, x, y);
    SameReadingIff(x, y, source.path);
  }

  /** A calculator that tells given bindings from all others. */
  function Telling(values: seq<Json>): Calculator
  {
    Calculator((_, bound) => if bound == values then Num(1) else Num(0), _ => Num(0), _ => 0)
  }

  lemma TellingIsFlat(values: seq<Json>)
    ensures FlatCalculator(Telling(values))
  {
  }

  lemma DeterminedAreOfOneKind(profile: Profile, occurs: Domain, s: Slot, t: string, source: Source, x: Json, y: Json)
    requires FormulaProfile(profile) && s in profile && Owns(s, t) && source in s.sources
    requires Occurs(occurs, t, x) && Occurs(occurs, t, y) && Fingerprint(profile, t, x) == Fingerprint(profile, t, y)
    requires FingerprintsDetermine(profile, PlainFormula(Telling(Readings(s.sources, x))), occurs)
    ensures IsFlat(Get(x, source.path)) <==> IsFlat(Get(y, source.path))
  {
    var c := Telling(Readings(s.sources, x));
    assert PlainFormula(c)(s, x) == PlainFormula(c)(s, y);
    assert Readings(s.sources, x) == Readings(s.sources, y);
    var i :| 0 <= i < |s.sources| && s.sources[i] == source;
    assert Readings(s.sources, x)[i] == Readings(s.sources, y)[i];
    SourceReadingIff(profile, s, source, t, x, y);
  }

  lemma OneKindIsDetermined(profile: Profile, occurs: Domain, c: Calculator)
    requires FormulaProfile(profile) && SameKinds(profile, occurs)
    ensures FingerprintsDetermine(profile, PlainFormula(c), occurs)
  {
    forall s, t, x, y | s in profile && Owns(s, t) && Occurs(occurs, t, x) && Occurs(occurs, t, y)
        && Fingerprint(profile, t, x) == Fingerprint(profile, t, y)
      ensures PlainFormula(c)(s, x) == PlainFormula(c)(s, y)
    {
      forall i | 0 <= i < |s.sources| ensures Readings(s.sources, x)[i] == Readings(s.sources, y)[i] {
        assert s.sources[i] in s.sources;
        SourceReadingIff(profile, s, s.sources[i], t, x, y);
      }
      assert Readings(s.sources, x) == Readings(s.sources, y);
    }
  }

  /** Whatever the formulas compute. */
  ghost predicate AlwaysDetermined(profile: Profile, occurs: Domain)
  {
    forall c :: FlatCalculator(c) ==> FingerprintsDetermine(profile, PlainFormula(c), occurs)
  }

  lemma AlwaysDeterminedKinds(profile: Profile, occurs: Domain)
    requires FormulaProfile(profile) && AlwaysDetermined(profile, occurs)
    ensures SameKinds(profile, occurs)
  {
    forall s, t, source, x, y | s in profile && Owns(s, t) && source in s.sources
        && Occurs(occurs, t, x) && Occurs(occurs, t, y) && Fingerprint(profile, t, x) == Fingerprint(profile, t, y)
      ensures IsFlat(Get(x, source.path)) <==> IsFlat(Get(y, source.path))
    {
      TellingIsFlat(Readings(s.sources, x));
      DeterminedAreOfOneKind(profile, occurs, s, t, source, x, y);
    }
  }

  /**
   * Fingerprints determine the formulas of a profile, whatever these compute, if and only if
   * records that occur with one fingerprint have scalars at the same source paths.
   */
  lemma DeterminedIff(profile: Profile, occurs: Domain)
    requires FormulaProfile(profile)
    ensures AlwaysDetermined(profile, occurs) <==> SameKinds(profile, occurs)
  {
    if AlwaysDetermined(profile, occurs) { AlwaysDeterminedKinds(profile, occurs); }
    if SameKinds(profile, occurs) {
      forall c ensures FingerprintsDetermine(profile, PlainFormula(c), occurs) { OneKindIsDetermined(profile, occurs, c); }
    }
  }
}
