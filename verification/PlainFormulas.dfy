/**
 * Formulas that read their source paths and nothing else, as the evaluator does
 * (packages/formula-runtime/src/evaluateCompiledProfile.ts:49-134): the hypotheses of the
 * other theorems become conditions on paths and on the shape of records.
 */
module PlainFormulas {
  import opened Strings
  import opened Json
  import opened Canonical
  import opened Profiles
  import opened Fingerprints
  import opened Targets
  import opened Views
  import opened Evaluator
  import opened Statements
  import opened Warm
  import opened Pushdown
  import opened ReadCalcValues
  import opened Inputs
  import opened Coherence
  import opened WarmThenRead
  import opened FreshReads

  /** The formula engine on bound values, the results of aggregates as data, and `Number` of a text. */
  datatype Calculator = Calculator(eval: (string, seq<Json>) -> Json, encode: real -> Json, parse: string -> int)

  ghost predicate FlatCalculator(c: Calculator)
  {
    (forall scope, values :: IsFlat(c.eval(scope, values))) && forall x :: IsFlat(c.encode(x))
  }

  /** `numeric` */
  function NumericOf(v: Json, parse: string -> int): int
  {
    match v
    case Num(n) => n
    case Str(s) => parse(s)
    case _ => 0
  }

  /** What a source path binds: records and arrays count as zero. */
  function Reading(v: Json, path: seq<string>): Json
  {
    var g := Get(v, path);
    if IsFlat(g) then g else Num(0)
  }

  function Readings(sources: seq<Source>, v: Json): (r: seq<Json>)
    ensures |r| == |sources|
  {
    seq(|sources|, i requires 0 <= i < |sources| => Reading(v, sources[i].path))
  }

  /** `evaluateAggregate`: without a field every item counts as one. */
  function AggregateOf(slot: Slot, v: Json, parse: string -> int): real
    requires slot.aggregate.Some?
  {
    if slot.aggregate.value.field.Some? then ComputeAggregate(slot, v, x => NumericOf(x, parse))
    else
      var g := Get(v, slot.aggregate.value.over);
      if !g.Arr? then 0.0
      else if slot.aggregate.value.kind == Avg then (if g.items == [] then 0.0 else 1.0)
      else |g.items| as real
  }

  /** Without a field every item counts as one. */
  lemma ItemsCountAsOne(slot: Slot, v: Json, parse: string -> int)
    requires slot.aggregate.Some? && slot.aggregate.value.field.None?
    ensures var g, total := Get(v, slot.aggregate.value.over), AggregateOf(slot, v, parse);
      && (!g.Arr? || g.items == [] ==> total == 0.0)
      && (g.Arr? && slot.aggregate.value.kind != Avg ==> total == |g.items| as real)
      && (g.Arr? && g.items != [] && slot.aggregate.value.kind == Avg ==> total == 1.0)
  {
  }

  /** An item counts with its number, a text with the number it spells, and anything else with zero. */
  lemma ItemWorth(slot: Slot, v: Json, item: Json, parse: string -> int)
    requires Aggregates(slot, AggregateKind.Sum) && slot.aggregate.value.field.Some?
    requires Get(v, slot.aggregate.value.over) == Arr([item])
    ensures var value, total := Get(item, slot.aggregate.value.field.value), AggregateOf(slot, v, parse);
      && (value.Num? ==> total == value.n as real)
      && (value.Str? ==> total == parse(value.s) as real)
      && (!value.Num? && !value.Str? ==> total == 0.0)
  {
    forall coerce: Json -> int
      ensures var value := Get(item, slot.aggregate.value.field.value);
        ComputeAggregate(slot, v, coerce) == (if value.Num? then value.n else coerce(value)) as real
    {
      SumOfOne(slot, v, item, coerce);
    }
  }

  function PlainValue(c: Calculator, slot: Slot, v: Json): Json
  {
    if slot.aggregate.Some? then c.encode(AggregateOf(slot, v, c.parse))
    else c.eval(slot.scope, Readings(slot.sources, v))
  }

  function PlainFormula(c: Calculator): Formula
  {
    (slot, v) => PlainValue(c, slot, v)
  }

  // ----- what a plain formula reads -----

  /** The view shows every name on the paths the slot reads. */
  ghost predicate ReadsPaths(slots: seq<Slot>, known: seq<Slot>, slot: Slot)
  {
    if slot.aggregate.Some? then
      && ShownPath(slots, known, slot.aggregate.value.over)
      && (slot.aggregate.value.field.Some? ==> ShownPath(slots, known, slot.aggregate.value.field.value))
    else forall s :: s in slot.sources ==> ShownPath(slots, known, s.path)
  }

  lemma MemberView(slots: seq<Slot>, known: seq<Slot>, v: Json, w: Json, key: string)
    requires SameView(slots, known, v, w) && ShownName(slots, known, key)
    ensures SameView(slots, known, Member(v, key), Member(w, key))
  {
    if v.Obj? {
      ShownNameShows(slots, known, EntityType(v), key);
      LookupView(slots, known, v, w, key);
    } else if v.Arr? {
      var a, b := ViewOf(slots, known, v).views, ViewOf(slots, known, w).views;
      assert |v.items| == |a| == |b| == |w.items|;
      var i := IndexOf(key, |v.items|, 0);
      if 0 <= i < |v.items| { assert a[i] == b[i]; }
    }
  }

  lemma {:induction false} GetView(slots: seq<Slot>, known: seq<Slot>, v: Json, w: Json, path: seq<string>)
    requires SameView(slots, known, v, w) && ShownPath(slots, known, path)
    ensures SameView(slots, known, Get(v, path), Get(w, path))
    decreases |path|
  {
    if path != [] {
      MemberView(slots, known, v, w, path[0]);
      GetView(slots, known, Member(v, path[0]), Member(w, path[0]), path[1..]);
    }
  }

  lemma ReadingView(slots: seq<Slot>, known: seq<Slot>, v: Json, w: Json, path: seq<string>)
    requires SameView(slots, known, v, w) && ShownPath(slots, known, path)
    ensures Reading(v, path) == Reading(w, path)
  {
    GetView(slots, known, v, w, path);
    if IsFlat(Get(v, path)) { FlatView(slots, known, Get(v, path), Get(w, path)); }
    if IsFlat(Get(w, path)) { FlatView(slots, known, Get(w, path), Get(v, path)); }
  }

  lemma AggregateView(slots: seq<Slot>, known: seq<Slot>, slot: Slot, v: Json, w: Json, parse: string -> int)
    requires SameView(slots, known, v, w) && slot.aggregate.Some? && ReadsPaths(slots, known, slot)
    ensures AggregateOf(slot, v, parse) == AggregateOf(slot, w, parse)
  {
    var over, field := slot.aggregate.value.over, slot.aggregate.value.field;
    GetView(slots, known, v, w, over);
    var g, h := Get(v, over), Get(w, over);
    if g.Arr? {
      assert |g.items| == |ViewOf(slots, known, g).views| == |ViewOf(slots, known, h).views| == |h.items|;
      if field.Some? {
        var coerce := x => NumericOf(x, parse);
        forall i | 0 <= i < |g.items| ensures Numbers(g.items, field, coerce)[i] == Numbers(h.items, field, coerce)[i] {
          assert ViewOf(slots, known, g).views[i] == ViewOf(slots, known, h).views[i];
          ReadingView(slots, known, g.items[i], h.items[i], field.value);
          SameNumber(Get(g.items[i], field.value), Get(h.items[i], field.value), parse);
        }
        assert Numbers(g.items, field, coerce) == Numbers(h.items, field, coerce);
      }
    }
  }

  lemma SameNumber(a: Json, b: Json, parse: string -> int)
    requires (if IsFlat(a) then a else Num(0)) == (if IsFlat(b) then b else Num(0))
    ensures NumericOf(a, parse) == NumericOf(b, parse)
  {
  }

  /** A plain formula sees no more than the fields on its paths. */
  lemma PlainReads(slots: seq<Slot>, known: seq<Slot>, slot: Slot, c: Calculator)
    requires ReadsPaths(slots, known, slot)
    ensures ReadsShown(PlainFormula(c), slots, known, slot)
  {
    forall v, w | SameView(slots, known, v, w) ensures PlainFormula(c)(slot, v) == PlainFormula(c)(slot, w) {
      if slot.aggregate.Some? {
        AggregateView(slots, known, slot, v, w, c.parse);
      } else {
        forall i | 0 <= i < |slot.sources| ensures Readings(slot.sources, v)[i] == Readings(slot.sources, w)[i] {
          assert slot.sources[i] in slot.sources;
          ReadingView(slots, known, v, w, slot.sources[i].path);
        }
        assert Readings(slot.sources, v) == Readings(slot.sources, w);
      }
    }
  }

  /** Distinct outputs with data names, and no path over an output of the slot itself or of a later one. */
  ghost predicate Layered(slots: seq<Slot>)
  {
    && DataNames(slots)
    && (forall i :: 0 <= i < |slots| ==> ReadsPaths(slots, slots[..i], slots[i]))
    && (forall i, j :: 0 <= i < j < |slots| ==> SeparateOutputs(slots[i], slots[j]))
  }

  /** For plain formulas the order of evaluation is sound when the paths are layered. */
  lemma PlainIsStratified(slots: seq<Slot>, c: Calculator)
    requires Layered(slots) && FlatCalculator(c)
    ensures Stratified(slots, PlainFormula(c))
  {
    forall i | 0 <= i < |slots| ensures ReadsShown(PlainFormula(c), slots, slots[..i], slots[i]) {
      PlainReads(slots, slots[..i], slots[i], c);
    }
    forall s: Slot, v: Json ensures !PlainFormula(c)(s, v).Obj? && !PlainFormula(c)(s, v).Arr? {
      assert IsFlat(PlainValue(c, s, v));
    }
  }

  // ----- fingerprints determine plain formulas -----

  /** The path ends at a scalar, or stops at one or at a missing field. */
  ghost predicate FlatAt(v: Json, path: seq<string>)
    decreases |path|
  {
    IsFlat(v) || (v.Obj? && path != [] && FlatAt(Lookup(v.fields, path[0]), path[1..]))
  }

  /** The aggregated collection: numbers in a field of its items, or any items but arrays, or none at all. */
  ghost predicate Aggregable(a: Aggregate, v: Json)
  {
    || FlatAt(v, a.over)
    || (if a.field.Some? then NumberColumn(v, a.over, a.field.value) else ItemColumn(v, a.over))
  }

  ghost predicate ItemColumn(v: Json, over: seq<string>)
  {
    ThroughRecords(v, over) && Get(v, over).Arr? && forall i :: 0 <= i < |Get(v, over).items| ==> !Get(v, over).items[i].Arr?
  }

  ghost predicate PlainInputs(slot: Slot, v: Json)
  {
    if slot.aggregate.Some? then Aggregable(slot.aggregate.value, v)
    else forall s :: s in slot.sources ==> FlatAt(v, s.path)
  }

  /** Records whose inputs are of the kinds the formulas of their type expect. */
  ghost predicate PlainRecord(profile: Profile, typeName: string, v: Json)
  {
    forall s :: s in profile && Owns(s, typeName) ==> PlainInputs(s, v)
  }

  ghost function PlainDomain(profile: Profile): Domain
  {
    (t, v) => PlainRecord(profile, t, v)
  }

  /** The path an aggregate's column is fingerprinted under. */
  function ColumnPath(a: Aggregate): seq<string>
  {
    if a.field.Some? then a.over + a.field.value else a.over
  }

  /** Sources are told apart by their text, and every aggregate lists its column. */
  ghost predicate Listed(profile: Profile)
  {
    && (forall t: string {:trigger SlotsOf(profile, t)} :: CleanSources(SourcesOf(SlotsOf(profile, t))))
    && forall s :: s in profile && s.aggregate.Some? ==> ListsColumn(s)
  }

  ghost predicate ListsColumn(slot: Slot)
    requires slot.aggregate.Some?
  {
    exists source :: source in slot.sources && source.path == ColumnPath(slot.aggregate.value)
  }

  lemma {:induction false} GetOfFlat(v: Json, path: seq<string>)
    requires IsFlat(v)
    ensures IsFlat(Get(v, path)) && (path != [] ==> Get(v, path) == Undefined)
    decreases |path|
  {
    if path != [] { GetOfFlat(Undefined, path[1..]); }
  }

  lemma {:induction false} FlatAtValue(v: Json, path: seq<string>, owner: Option<string>) returns (o: Option<string>)
    requires FlatAt(v, path)
    ensures Values(v, path, owner) == [PathValue(Get(v, path), o)] && IsFlat(Get(v, path)) && !ArrayDerived(v, path)
    decreases |path|
  {
    if IsFlat(v) {
      GetOfFlat(v, path);
      o := owner;
    } else {
      o := FlatAtValue(Lookup(v.fields, path[0]), path[1..], Or(EntityId(v), owner));
    }
  }

  lemma {:induction false} FlatAtLonger(v: Json, path: seq<string>, rest: seq<string>)
    requires FlatAt(v, path)
    ensures FlatAt(v, path + rest)
    decreases |path|
  {
    if !IsFlat(v) {
      assert (path + rest)[0] == path[0] && (path + rest)[1..] == path[1..] + rest;
      FlatAtLonger(Lookup(v.fields, path[0]), path[1..], rest);
    }
  }

  lemma FlatNormal(a: Json, b: Json)
    requires IsFlat(a) && IsFlat(b) && Normal(a) == Normal(b)
    ensures a == b
  {
  }

  /** Equal bags of values at a scalar path are one value. */
  lemma SameReading(d: Json, e: Json, path: seq<string>)
    requires FlatAt(d, path) && FlatAt(e, path) && SourceValues(d, path) == SourceValues(e, path)
    ensures Reading(d, path) == Reading(e, path)
  {
    var o := FlatAtValue(d, path, EntityId(d));
    var p := FlatAtValue(e, path, EntityId(e));
    var x, y := Denotations(Values(d, path, EntityId(d))), Denotations(Values(e, path, EntityId(e)));
    assert x == [Normal(Get(d, path))] && y == [Normal(Get(e, path))];
    assert x[0] in multiset(x);
    FlatNormal(Get(d, path), Get(e, path));
  }

  lemma {:induction false} ThroughDerived(v: Json, path: seq<string>, rest: seq<string>)
    requires ThroughRecords(v, path) && Get(v, path).Arr?
    ensures ArrayDerived(v, path + rest)
    decreases |path|
  {
    if path == [] {
      assert path + rest == rest;
    } else {
      assert (path + rest)[0] == path[0] && (path + rest)[1..] == path[1..] + rest;
      ThroughDerived(Lookup(v.fields, path[0]), path[1..], rest);
    }
  }

  lemma {:induction false} ItemCount(items: seq<Json>, owner: Option<string>, lists: seq<seq<PathValue>>)
    requires |lists| == |items| && forall i :: 0 <= i < |items| ==> |lists[i]| == 1
    ensures |Concat(lists)| == |items|
  {
    if items != [] { ItemCount(items[1..], owner, lists[1..]); }
  }

  /** The source path of a collection of items yields as many values. */
  lemma ItemsCounted(v: Json, over: seq<string>)
    requires ItemColumn(v, over)
    ensures |SourceValues(v, over)| == |Get(v, over).items|
  {
    var items, owner := Get(v, over).items, OwnerAfter(v, over, EntityId(v));
    ValuesThroughRecords(v, over, [], EntityId(v));
    assert over + [] == over;
    var lists: seq<seq<PathValue>> :=
      seq(|items|, i requires 0 <= i < |items| => Values(items[i], [], Or(EntityId(items[i]), owner)));
    ItemCount(items, owner, lists);
    assert Values(v, over, EntityId(v)) == Concat(lists);
    assert |Denotations(Values(v, over, EntityId(v)))| == |items|;
  }

  /** The collection is there in both records or in neither. */
  lemma SameCollection(a: Aggregate, d: Json, e: Json)
    requires Aggregable(a, d) && Aggregable(a, e) && ListForm(d, ColumnPath(a)) == ListForm(e, ColumnPath(a))
    ensures FlatAt(d, a.over) <==> FlatAt(e, a.over)
  {
    CollectionForm(a, d);
    CollectionForm(a, e);
  }

  lemma CollectionForm(a: Aggregate, v: Json)
    requires Aggregable(a, v)
    ensures FlatAt(v, a.over) <==> !ListForm(v, ColumnPath(a))
  {
    var rest := if a.field.Some? then a.field.value else [];
    assert ColumnPath(a) == a.over + rest;
    if FlatAt(v, a.over) {
      FlatAtLonger(v, a.over, rest);
      var _ := FlatAtValue(v, ColumnPath(a), EntityId(v));
    } else {
      ThroughDerived(v, a.over, rest);
    }
  }

  lemma SameAggregate(slot: Slot, d: Json, e: Json, parse: string -> int)
    requires slot.aggregate.Some? && Aggregable(slot.aggregate.value, d) && Aggregable(slot.aggregate.value, e)
    requires var path := ColumnPath(slot.aggregate.value);
      SourceValues(d, path) == SourceValues(e, path) && ListForm(d, path) == ListForm(e, path)
    ensures AggregateOf(slot, d, parse) == AggregateOf(slot, e, parse)
  {
    var a := slot.aggregate.value;
    SameCollection(a, d, e);
    if FlatAt(d, a.over) {
      var _ := FlatAtValue(d, a.over, EntityId(d));
      var _ := FlatAtValue(e, a.over, EntityId(e));
    } else if a.field.Some? {
      ValuesDetermineAggregate(slot, d, e, x => NumericOf(x, parse));
    } else {
      ItemsCounted(d, a.over);
      ItemsCounted(e, a.over);
      assert |Get(d, a.over).items| == |Get(e, a.over).items|;
    }
  }

  lemma PlainValueDetermined(
      profile: Profile, c: Calculator, slot: Slot, typeName: string, d: Json, e: Json)
    requires Listed(profile) && slot in profile && Owns(slot, typeName)
    requires WellFormed(d) && WellFormed(e) && PlainInputs(slot, d) && PlainInputs(slot, e)
    requires Fingerprint(profile, typeName, d) == Fingerprint(profile, typeName, e)
    ensures PlainValue(c, slot, d) == PlainValue(c, slot, e)
  {
    SlotsOfMember(profile, typeName, slot);
    FingerprintFaithful(profile, typeName, d, e);
    forall s | s in slot.sources
      ensures SourceValues(d, s.path) == SourceValues(e, s.path) && ListForm(d, s.path) == ListForm(e, s.path)
    {
      SourcesOfContains(SlotsOf(profile, typeName), slot, s);
    }
    if slot.aggregate.Some? {
      assert ListsColumn(slot);
      SameAggregate(slot, d, e, c.parse);
    } else {
      forall i | 0 <= i < |slot.sources| ensures Readings(slot.sources, d)[i] == Readings(slot.sources, e)[i] {
        assert slot.sources[i] in slot.sources;
        SameReading(d, e, slot.sources[i].path);
      }
      assert Readings(slot.sources, d) == Readings(slot.sources, e);
    }
  }

  /** Among records with plain inputs, equal fingerprints give equal values of every slot. */
  lemma PlainIsDetermined(profile: Profile, c: Calculator)
    requires Listed(profile)
    ensures FingerprintsDetermine(profile, PlainFormula(c), PlainDomain(profile))
  {
    var occurs := PlainDomain(profile);
    forall s, t, x, y | s in profile && Owns(s, t) && Occurs(occurs, t, x) && Occurs(occurs, t, y)
        && Fingerprint(profile, t, x) == Fingerprint(profile, t, y)
      ensures PlainFormula(c)(s, x) == PlainFormula(c)(s, y)
    {
      PlainValueDetermined(profile, c, s, t, x, y);
    }
  }

  // ----- coherent reads of plain profiles -----

  /** What a profile's author can check: names, paths and sources. */
  ghost predicate LayeredProfile(profile: Profile)
  {
    && Layered(ByStratum(profile)) && Listed(profile) && UniquePaths(profile) && PathsAreNames(profile)
  }

  /** No formula and no source path goes over an unread output; the outputs that are read are current. */
  ghost predicate PlainDocument(profile: Profile, c: Calculator, doc: Json, unread: seq<Slot>)
  {
    && WellFormed(doc) && Tidy(ByStratum(profile), doc) && OwnersAreTargets(profile, doc)
    && OutputsAreFlat(doc, profile, CalcTargets(doc, profile))
    && AllOccur(PlainDomain(profile), CalcTargets(doc, profile))
    && (forall s :: s in unread ==> s in profile)
    && (forall s :: s in profile && s !in unread ==> Solves(s, PlainFormula(c), doc))
    && (forall s :: s in profile ==> ReadsPaths(unread, [], s))
    && ShowsSources(unread, [], profile) && Open(unread, [], doc)
  }

  lemma PlainIsReadable(profile: Profile, c: Calculator, doc: Json, unread: seq<Slot>)
    requires LayeredProfile(profile) && FlatCalculator(c) && PlainDocument(profile, c, doc, unread)
    ensures Readable(profile, PlainFormula(c), doc, unread)
  {
    PlainIsStratified(ByStratum(profile), c);
    forall s | s in profile ensures ReadsShown(PlainFormula(c), unread, [], s) { PlainReads(unread, [], s, c); }
  }

  /** A pass on a host that evaluates every slot, over a document whose evaluated targets have plain inputs. */
  ghost predicate PlainStep(profile: Profile, c: Calculator, step: Step)
  {
    && (forall s :: s in profile ==> LiveOn(s, step.host))
    && AllOccur(PlainDomain(profile), CalcTargets(Evaluate(profile, PlainFormula(c), step.doc), profile))
  }

  /**
   * Coherence without assumptions on formulas: for plain profiles, in every store that passes
   * and edits can reach, a fresh read shows what evaluating the document read gives.
   */
  lemma {:induction false} PlainReadsAreCoherent(
      profile: Profile, c: Calculator, host: Host, steps: seq<Step>, doc: Json, unread: seq<Slot>)
    requires LayeredProfile(profile) && FlatCalculator(c) && PlainDocument(profile, c, doc, unread)
    requires forall k :: 0 <= k < |steps| ==> PlainStep(profile, c, steps[k])
    requires Verdict(After(profile, PlainFormula(c), steps), profile, CalcTargets(doc, profile)) == FreshState
    ensures SameView(ByStratum(profile), ByStratum(profile),
                     ReadData(After(profile, PlainFormula(c), steps), profile, PlainFormula(c), host, doc),
                     Evaluate(profile, PlainFormula(c), doc))
  {
    var b := Basis(profile, PlainFormula(c), PlainDomain(profile), profile);
    PlainIsStratified(ByStratum(profile), c);
    PlainIsDetermined(profile, c);
    PlainIsReadable(profile, c, doc, unread);
    forall k | 0 <= k < |steps| ensures Observes(b, steps[k].host, steps[k].doc) {
      AllSlotsLive(profile, steps[k].host);
    }
    ReachableReadShowsEvaluation(b, host, steps, doc, unread);
  }
}
