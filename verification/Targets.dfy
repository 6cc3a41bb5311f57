/**
 * Which entities of a document tree are materialized, and from which of their
 * occurrences (packages/calc-engine/src/warm.ts:176-279).
 */
module Targets {
  import opened Json
  import opened Profiles
  import opened Fingerprints
  import opened Walks

  /** Everything after the last c; the whole string when c does not occur. */
  function AfterLast(s: string, c: char): string
  {
    if s == "" then ""
    else if c in s[1..] then AfterLast(s[1..], c)
    else if s[0] == c then s[1..]
    else s
  }

  function NonEmpty(s: string): Option<string>
  {
    if s == "" then None else Some(s)
  }

  /** Local name of the `@type` of a record. */
  function EntityType(v: Json): (r: Option<string>)
    ensures r.Some? ==> v.Obj? && r.value != ""
  {
    if !v.Obj? then None
    else
      var t := Lookup(v.fields, "@type");
      if !t.Str? then None
      else if '#' in t.s then NonEmpty(AfterLast(t.s, '#'))
      else NonEmpty(AfterLast(t.s, '/'))
  }

  predicate PlainName(name: string)
  {
    name != "" && '#' !in name && '/' !in name
  }

  lemma PlainType(name: string, fields: seq<Field>)
    requires PlainName(name) && Lookup(fields, "@type") == Str(name)
    ensures EntityType(Obj(fields)) == Some(name)
  {
    NoSlash(name);
  }

  lemma {:induction false} NoSlash(s: string)
    requires '/' !in s
    ensures AfterLast(s, '/') == s
  {
  }

  /** A typed, identified record of a tree; `at` is its address, [] for the root itself. */
  datatype Occurrence = Occurrence(typeName: string, iri: string, entity: Json, at: seq<nat>)

  function Own(v: Json, at: seq<nat>): seq<Occurrence>
  {
    if EntityType(v).Some? && EntityId(v).Some? && EntityId(v).value != ""
    then [Occurrence(EntityType(v).value, EntityId(v).value, v, at)]
    else []
  }

  /** The nodes directly below a node: array items, or field values in key order. */
  function Children(v: Json): (r: seq<Json>)
    ensures forall i :: 0 <= i < |r| ==> r[i] < v
  {
    match v
    case Arr(items) => items
    case Obj(fields) => seq(|fields|, i requires 0 <= i < |fields| => assert fields[i] < v; fields[i].value)
    case _ => []
  }

  /** `collectEntities`: depth first, parents before children. */
  function Entities(v: Json, at: seq<nat>): seq<Occurrence>
    decreases v, 1
  {
    Own(v, at) + Concat(Below(v, at))
  }

  function Below(v: Json, at: seq<nat>): (r: seq<seq<Occurrence>>)
    ensures |r| == |Children(v)|
    decreases v, 0
  {
    seq(|Children(v)|, i requires 0 <= i < |Children(v)| => Entities(Children(v)[i], at + [i]))
  }

  /** The record itself and what lies below its first `k` children. */
  function EntitiesUpTo(v: Json, at: seq<nat>, k: nat): seq<Occurrence>
    requires k <= |Children(v)|
  {
    Own(v, at) + Concat(Below(v, at)[..k])
  }

  lemma UpToSnoc(before: seq<Occurrence>, v: Json, at: seq<nat>, k: nat)
    requires k < |Children(v)|
    ensures before + EntitiesUpTo(v, at, k + 1) == before + EntitiesUpTo(v, at, k) + Entities(Children(v)[k], at + [k])
  {
    var lists := Below(v, at);
    assert lists[k] == Entities(Children(v)[k], at + [k]);
    ConcatSnoc(lists[..k], lists[k]);
    assert lists[..k] + [lists[k]] == lists[..k + 1];
  }

  lemma UpToAll(before: seq<Occurrence>, v: Json, at: seq<nat>)
    ensures before + EntitiesUpTo(v, at, 0) == before + Own(v, at)
    ensures before + EntitiesUpTo(v, at, |Children(v)|) == before + Entities(v, at)
  {
    assert Below(v, at)[..|Children(v)|] == Below(v, at);
  }

  class EntityCollector {
    var out: seq<Occurrence>

    constructor ()
      ensures out == []
    {
      out := [];
    }

    method Visit(v: Json, at: seq<nat>)
      modifies this
      ensures out == old(out) + Entities(v, at)
      decreases v
    {
      UpToAll(out, v, at);
      out := out + Own(v, at);
      var children := Children(v);
      for k := 0 to |children|
        invariant out == old(out) + EntitiesUpTo(v, at, k)
      {
        UpToSnoc(old(out), v, at, k);
        Visit(children[k], at + [k]);
      }
    }
  }

  method CollectEntities(root: Json) returns (out: seq<Occurrence>)
    ensures out == Entities(root, [])
  {
    var collector := new EntityCollector();
    collector.Visit(root, []);
    out := collector.out;
  }

  /** The node an address leads to. */
  function NodeAt(v: Json, at: seq<nat>): Json
    decreases |at|
  {
    if at == [] then v
    else if at[0] < |Children(v)| then NodeAt(Children(v)[at[0]], at[1..])
    else Undefined
  }

  lemma {:induction false} EntityIsNamed(v: Json, at: seq<nat>, o: Occurrence)
    requires o in Entities(v, at)
    ensures o.iri != ""
    decreases v
  {
    if o !in Own(v, at) {
      var i := ConcatMember(Below(v, at), o);
      EntityIsNamed(Children(v)[i], at + [i], o);
    }
  }

  /** An occurrence is the node at its address, and addresses extend the starting one. */
  lemma {:induction false} EntitiesAt(v: Json, at: seq<nat>, o: Occurrence)
    requires o in Entities(v, at)
    ensures |at| <= |o.at| && o.at[..|at|] == at
    ensures o.entity == NodeAt(v, o.at[|at|..])
    ensures EntityType(o.entity) == Some(o.typeName) && EntityId(o.entity) == Some(o.iri)
    decreases v
  {
    if o in Own(v, at) {
      assert o.at[|at|..] == [];
    } else {
      var i := ConcatMember(Below(v, at), o);
      EntitiesAt(Children(v)[i], at + [i], o);
      StepInto(at, i, o.at);
    }
  }

  lemma StepInto(at: seq<nat>, i: nat, full: seq<nat>)
    requires |at| < |full| && full[..|at| + 1] == at + [i]
    ensures full[..|at|] == at && full[|at|..][0] == i && full[|at|..][1..] == full[|at| + 1..]
  {
    assert full[..|at| + 1][..|at|] == full[..|at|];
    assert full[|at|] == full[..|at| + 1][|at|];
  }

  lemma WellFormedChildren(v: Json)
    ensures WellFormed(v) <==>
            (v.Obj? ==> UniqueKeys(v.fields)) && forall i :: 0 <= i < |Children(v)| ==> WellFormed(Children(v)[i])
  {
    if v.Arr? {
      assert Children(v) == v.items;
    } else if v.Obj? {
      assert forall i :: 0 <= i < |v.fields| ==> Children(v)[i] == v.fields[i].value;
    }
  }

  lemma {:induction false} EntityWellFormed(v: Json, at: seq<nat>, o: Occurrence)
    requires WellFormed(v) && o in Entities(v, at)
    ensures WellFormed(o.entity)
    decreases v
  {
    if o !in Own(v, at) {
      var i := ConcatMember(Below(v, at), o);
      WellFormedChildren(v);
      EntityWellFormed(Children(v)[i], at + [i], o);
    }
  }

  /** Only the first collected entity can be the root. */
  lemma RootFirst(root: Json, k: nat)
    requires 0 < k < |Entities(root, [])|
    ensures Entities(root, [])[k].at != []
  {
    var o := Entities(root, [])[k];
    assert o in Concat(Below(root, []));
    var i := ConcatMember(Below(root, []), o);
    EntitiesAt(Children(root)[i], [] + [i], o);
  }

  /** A source that is itself an output of the type is no evidence of inputs. */
  predicate OwnOutput(slots: seq<Slot>, source: Source)
  {
    |source.path| == 1 && exists i :: 0 <= i < |slots| && slots[i].propertyName == source.path[0]
  }

  function CountPresent(slots: seq<Slot>, sources: seq<Source>, entity: Json): nat
  {
    if sources == [] then 0
    else
      var last := sources[|sources| - 1];
      CountPresent(slots, sources[..|sources| - 1], entity)
      + if !OwnOutput(slots, last) && SourcePresent(entity, last.path) then 1 else 0
  }

  function Present(profile: Profile, typeName: string, entity: Json): nat
  {
    var slots := SlotsOf(profile, typeName);
    CountPresent(slots, SourcesOf(slots), entity)
  }

  lemma {:induction false} SourcesSnoc(slots: seq<Slot>, k: nat)
    requires k < |slots|
    ensures SourcesOf(slots[..k + 1]) == SourcesOf(slots[..k]) + slots[k].sources
  {
    assert slots[..k + 1] == slots[..k] + [slots[k]];
    SourcesConcat(slots[..k], [slots[k]]);
    assert SourcesOf([slots[k]]) == slots[k].sources + SourcesOf([]);
  }

  lemma CountSnoc(slots: seq<Slot>, done: seq<Source>, sources: seq<Source>, j: nat, entity: Json)
    requires j < |sources|
    ensures CountPresent(slots, done + sources[..j + 1], entity) ==
            CountPresent(slots, done + sources[..j], entity)
            + if !OwnOutput(slots, sources[j]) && SourcePresent(entity, sources[j].path) then 1 else 0
  {
    var longer := done + sources[..j + 1];
    assert longer[..|longer| - 1] == done + sources[..j];
  }

  method PresentSourceCount(profile: Profile, typeName: string, entity: Json) returns (present: nat)
    ensures present == Present(profile, typeName, entity)
  {
    var slots := SlotsOf(profile, typeName);
    present := 0;
    ghost var done: seq<Source> := [];
    for k := 0 to |slots|
      invariant done == SourcesOf(slots[..k]) && present == CountPresent(slots, done, entity)
    {
      var sources := slots[k].sources;
      assert done + sources[..0] == done;
      for j := 0 to |sources|
        invariant present == CountPresent(slots, done + sources[..j], entity)
      {
        CountSnoc(slots, done, sources, j, entity);
        if OwnOutput(slots, sources[j]) { continue; }
        var _, _, sourcePresent := CollectPathValues(entity, sources[j].path);
        if sourcePresent { present := present + 1; }
      }
      assert sources[..|sources|] == sources;
      SourcesSnoc(slots, k);
      done := done + sources;
    }
    assert slots[..|slots|] == slots;
  }

  /** The source is no property computed for the type, and the record has evidence of it. */
  ghost predicate Evident(slots: seq<Slot>, source: Source, entity: Json)
  {
    && !(|source.path| == 1 && exists s :: s in slots && s.propertyName == source.path[0])
    && HasEvidence(entity, source.path)
  }

  ghost function EvidentPositions(slots: seq<Slot>, sources: seq<Source>, entity: Json): set<int>
  {
    set i | 0 <= i < |sources| && Evident(slots, sources[i], entity)
  }

  lemma EvidentIff(slots: seq<Slot>, source: Source, entity: Json)
    ensures Evident(slots, source, entity) <==> !OwnOutput(slots, source) && SourcePresent(entity, source.path)
  {
    PresentIff(entity, source.path);
    if |source.path| == 1 {
      if s :| s in slots && s.propertyName == source.path[0] { var i :| 0 <= i < |slots| && slots[i] == s; }
    }
  }

  lemma OneMore<T>(before: set<T>, after: set<T>, n: T, holds: bool)
    requires n !in before && forall i :: i in after <==> i in before || (holds && i == n)
    ensures |after| == |before| + if holds then 1 else 0
  {
    if holds {
      assert after == before + {n};
    } else {
      assert after == before;
    }
  }

  lemma PositionBefore(slots: seq<Slot>, sources: seq<Source>, entity: Json, n: nat, i: int)
    requires n + 1 == |sources|
    ensures i in EvidentPositions(slots, sources, entity) <==>
      i in EvidentPositions(slots, sources[..n], entity) || (Evident(slots, sources[n], entity) && i == n)
  {
    if 0 <= i < n { assert sources[..n][i] == sources[i]; }
  }

  lemma {:induction false} CountIsPositions(slots: seq<Slot>, sources: seq<Source>, entity: Json)
    ensures CountPresent(slots, sources, entity) == |EvidentPositions(slots, sources, entity)|
  {
    if sources != [] {
      var n := |sources| - 1;
      CountIsPositions(slots, sources[..n], entity);
      EvidentIff(slots, sources[n], entity);
      forall i { PositionBefore(slots, sources, entity, n, i); }
      OneMore(EvidentPositions(slots, sources[..n], entity), EvidentPositions(slots, sources, entity), n,
        Evident(slots, sources[n], entity));
    }
  }

  /** The count is the number of evident sources among those of the type's slots. */
  lemma PresentIsCount(profile: Profile, typeName: string, entity: Json)
    ensures var slots := SlotsOf(profile, typeName);
      Present(profile, typeName, entity) == |EvidentPositions(slots, SourcesOf(slots), entity)|
  {
    CountIsPositions(SlotsOf(profile, typeName), SourcesOf(SlotsOf(profile, typeName)), entity);
  }

  /** Some source of the type is evident in the record. */
  ghost predicate HasInputs(profile: Profile, typeName: string, entity: Json)
  {
    exists source :: source in SourcesOf(SlotsOf(profile, typeName)) && Evident(SlotsOf(profile, typeName), source, entity)
  }

  lemma PresentPositive(profile: Profile, typeName: string, entity: Json)
    ensures Present(profile, typeName, entity) > 0 <==> HasInputs(profile, typeName, entity)
  {
    var slots := SlotsOf(profile, typeName);
    var sources := SourcesOf(slots);
    var positions := EvidentPositions(slots, sources, entity);
    PresentIsCount(profile, typeName, entity);
    if |positions| > 0 {
      var i :| i in positions;
      assert sources[i] in sources;
    }
    if source :| source in sources && Evident(slots, source, entity) {
      var i :| 0 <= i < |sources| && sources[i] == source;
      assert i in positions;
    }
  }

  /** One entry of the map keyed by IRI, in insertion order. */
  datatype Entry = Entry(occurrence: Occurrence, present: nat)

  predicate Counts(o: Occurrence, present: nat)
  {
    o.at == [] || present > 0
  }

  /** Position of the entry for an IRI, or the length of the map. */
  function Find(entries: seq<Entry>, iri: string): (k: nat)
    ensures k <= |entries|
    ensures k < |entries| ==> entries[k].occurrence.iri == iri
    ensures forall i :: 0 <= i < k ==> entries[i].occurrence.iri != iri
  {
    if entries == [] then 0
    else if entries[0].occurrence.iri == iri then 0
    else 1 + Find(entries[1..], iri)
  }

  /** The loop body of `collectCalcTargets`. */
  function Offer(entries: seq<Entry>, o: Occurrence, present: nat): seq<Entry>
  {
    var k := Find(entries, o.iri);
    if !Counts(o, present) then entries
    else if k == |entries| then entries + [Entry(o, present)]
    else if entries[k].occurrence.at != [] && (o.at == [] || present > entries[k].present)
    then entries[k := Entry(o, present)]
    else entries
  }

  /** The map after all candidates were offered in turn. */
  function Offered(candidates: seq<Entry>): seq<Entry>
  {
    if candidates == [] then []
    else
      var last := candidates[|candidates| - 1];
      Offer(Offered(candidates[..|candidates| - 1]), last.occurrence, last.present)
  }

  /** Every collected entity with its number of present sources. */
  function Candidates(root: Json, profile: Profile): (r: seq<Entry>)
    ensures |r| == |Entities(root, [])|
  {
    var all := Entities(root, []);
    seq(|all|, i requires 0 <= i < |all| => Entry(all[i], Present(profile, all[i].typeName, all[i].entity)))
  }

  function Occurrences(entries: seq<Entry>): (r: seq<Occurrence>)
    ensures |r| == |entries|
  {
    seq(|entries|, i requires 0 <= i < |entries| => entries[i].occurrence)
  }

  /** `collectCalcTargets` */
  function CalcTargets(root: Json, profile: Profile): seq<Occurrence>
  {
    Occurrences(Offered(Candidates(root, profile)))
  }

  lemma OfferedSnoc(entries: seq<Entry>, k: nat)
    requires k < |entries|
    ensures Offered(entries[..k + 1]) == Offer(Offered(entries[..k]), entries[k].occurrence, entries[k].present)
  {
    assert entries[..k + 1][..k] == entries[..k];
  }

  method CollectCalcTargets(root: Json, profile: Profile) returns (targets: seq<Occurrence>)
    ensures targets == CalcTargets(root, profile)
  {
    var all := CollectEntities(root);
    ghost var candidates := Candidates(root, profile);
    var entries: seq<Entry> := [];
    for k := 0 to |all|
      invariant entries == Offered(candidates[..k])
    {
      var present := PresentSourceCount(profile, all[k].typeName, all[k].entity);
      OfferedSnoc(candidates, k);
      entries := Consider(entries, all[k], present);
    }
    assert candidates[..|all|] == candidates;
    targets := Occurrences(entries);
  }

  /** The body of the loop over the occurrences. */
  method Consider(entries: seq<Entry>, target: Occurrence, present: nat) returns (after: seq<Entry>)
    ensures after == Offer(entries, target, present)
  {
    after := entries;
    var isRoot := target.at == [];
    if !isRoot && present == 0 { return; }
    var at := Find(entries, target.iri);
    if at == |entries| {
      after := after + [Entry(target, present)];
    } else if entries[at].occurrence.at != [] && (isRoot || present > entries[at].present) {
      after := after[at := Entry(target, present)];
    }
  }

  // ----- which occurrence is chosen -----

  /** Candidate k is the root, or the first one of its IRI with the most present sources. */
  ghost predicate Chosen(all: seq<Entry>, k: nat)
    requires k < |all|
  {
    && Counts(all[k].occurrence, all[k].present)
    && forall j :: 0 <= j < |all| && all[j].occurrence.iri == all[k].occurrence.iri && all[k].occurrence.at != [] ==>
         && all[j].occurrence.at != []
         && all[j].present <= all[k].present
         && (j < k ==> all[j].present < all[k].present)
  }

  ghost predicate RootOnce(all: seq<Entry>)
  {
    forall k :: 0 < k < |all| ==> all[k].occurrence.at != []
  }

  ghost predicate IsChosen(all: seq<Entry>, e: Entry)
  {
    exists k :: 0 <= k < |all| && all[k] == e && Chosen(all, k)
  }

  ghost predicate Listed(entries: seq<Entry>, iri: string)
  {
    exists i :: 0 <= i < |entries| && entries[i].occurrence.iri == iri
  }

  ghost predicate Selected(all: seq<Entry>, entries: seq<Entry>)
  {
    && (forall i, j :: 0 <= i < j < |entries| ==> entries[i].occurrence.iri != entries[j].occurrence.iri)
    && (forall i :: 0 <= i < |entries| ==> IsChosen(all, entries[i]))
    && (forall k :: 0 <= k < |all| && Counts(all[k].occurrence, all[k].present)
                    ==> Listed(entries, all[k].occurrence.iri))
  }

  lemma {:induction false} OfferedSelects(all: seq<Entry>)
    requires RootOnce(all)
    ensures Selected(all, Offered(all))
  {
    if all != [] {
      var n := |all| - 1;
      OfferedSelects(all[..n]);
      OfferSelects(all, Offered(all[..n]));
    }
  }

  lemma {:induction false} OfferSelects(all: seq<Entry>, entries: seq<Entry>)
    requires RootOnce(all) && all != [] && Selected(all[..|all| - 1], entries)
    ensures Selected(all, Offer(entries, all[|all| - 1].occurrence, all[|all| - 1].present))
  {
    var n := |all| - 1;
    var o := all[n].occurrence;
    var after := Offer(entries, o, all[n].present);
    OfferChooses(all, entries);
    forall m | 0 <= m < |all| && Counts(all[m].occurrence, all[m].present)
      ensures Listed(after, all[m].occurrence.iri)
    {
      assert m < n ==> all[..n][m] == all[m];
      OfferLists(entries, o, all[n].present, all[m].occurrence.iri);
    }
  }

  lemma {:induction false} OfferChooses(all: seq<Entry>, entries: seq<Entry>)
    requires RootOnce(all) && all != [] && Selected(all[..|all| - 1], entries)
    ensures var after := Offer(entries, all[|all| - 1].occurrence, all[|all| - 1].present);
      forall i :: 0 <= i < |after| ==> IsChosen(all, after[i])
  {
    var n := |all| - 1;
    var after := Offer(entries, all[n].occurrence, all[n].present);
    forall i | 0 <= i < |after| ensures IsChosen(all, after[i]) {
      if i < |entries| && after[i] == entries[i] {
        KeepsChoice(all, entries, i);
      } else {
        NewChoice(all, entries);
        assert after[i] == all[n];
      }
    }
  }

  /** Offering keeps the listed IRIs and adds that of a candidate that counts. */
  lemma OfferLists(entries: seq<Entry>, o: Occurrence, present: nat, iri: string)
    requires Listed(entries, iri) || (iri == o.iri && Counts(o, present))
    ensures Listed(Offer(entries, o, present), iri)
  {
    var k := Find(entries, o.iri);
    var after := Offer(entries, o, present);
    if i :| 0 <= i < |entries| && entries[i].occurrence.iri == iri {
      assert after[i].occurrence.iri == iri;
    } else {
      assert after[k].occurrence.iri == iri;
    }
  }

  /** An entry the newcomer did not replace stays the best of the longer list. */
  lemma KeepsChoice(all: seq<Entry>, entries: seq<Entry>, i: nat)
    requires RootOnce(all) && all != [] && Selected(all[..|all| - 1], entries) && i < |entries|
    requires Offer(entries, all[|all| - 1].occurrence, all[|all| - 1].present)[i] == entries[i]
    ensures IsChosen(all, entries[i])
  {
    var n := |all| - 1;
    var j :| 0 <= j < n && all[..n][j] == entries[i] && Chosen(all[..n], j);
    assert all[j] == entries[i];
    forall m | 0 <= m < |all| && all[m].occurrence.iri == all[j].occurrence.iri && all[j].occurrence.at != []
      ensures all[m].occurrence.at != [] && all[m].present <= all[j].present
      ensures m < j ==> all[m].present < all[j].present
    {
      if m < n {
        assert all[..n][m] == all[m];
      } else {
        assert Find(entries, all[n].occurrence.iri) == i;
      }
    }
    assert Chosen(all, j);
  }

  /** A newcomer that was taken in is the best of its IRI so far. */
  lemma NewChoice(all: seq<Entry>, entries: seq<Entry>)
    requires RootOnce(all) && all != [] && Selected(all[..|all| - 1], entries)
    requires Offer(entries, all[|all| - 1].occurrence, all[|all| - 1].present) != entries
    ensures IsChosen(all, all[|all| - 1])
  {
    var n := |all| - 1;
    var k := Find(entries, all[n].occurrence.iri);
    forall m | 0 <= m < n && all[m].occurrence.iri == all[n].occurrence.iri && all[n].occurrence.at != []
      ensures all[m].occurrence.at != [] && all[m].present < all[n].present
    {
      assert all[..n][m] == all[m];
      if k < |entries| {
        var j :| 0 <= j < n && all[..n][j] == entries[k] && Chosen(all[..n], j);
        assert all[..n][j].occurrence.iri == all[..n][m].occurrence.iri;
      } else {
        assert !Listed(entries, all[m].occurrence.iri);
      }
    }
    assert Chosen(all, n);
  }

  /** Two chosen candidates of one IRI are the same candidate. */
  lemma ChosenUnique(all: seq<Entry>, j: nat, k: nat)
    requires RootOnce(all) && j < |all| && k < |all| && all[j].occurrence.iri == all[k].occurrence.iri
    requires Chosen(all, j) && Chosen(all, k)
    ensures j == k
  {
  }

  lemma OfferedExact(all: seq<Entry>, e: Entry)
    requires RootOnce(all)
    ensures e in Offered(all) <==> IsChosen(all, e)
  {
    OfferedSelects(all);
    if IsChosen(all, e) {
      var k :| 0 <= k < |all| && all[k] == e && Chosen(all, k);
      assert Listed(Offered(all), e.occurrence.iri);
      var i :| 0 <= i < |Offered(all)| && Offered(all)[i].occurrence.iri == e.occurrence.iri;
      assert IsChosen(all, Offered(all)[i]);
      var j :| 0 <= j < |all| && all[j] == Offered(all)[i] && Chosen(all, j);
      ChosenUnique(all, j, k);
    }
  }

  lemma CandidatesRootOnce(root: Json, profile: Profile)
    ensures RootOnce(Candidates(root, profile))
  {
    var all := Candidates(root, profile);
    forall k | 0 < k < |all| ensures all[k].occurrence.at != [] { RootFirst(root, k); }
  }

  /**
   * Target selection: every IRI at most once, and exactly the chosen occurrences.
   */
  lemma {:induction false} TargetsSelected(root: Json, profile: Profile)
    ensures forall i, j :: 0 <= i < j < |CalcTargets(root, profile)|
              ==> CalcTargets(root, profile)[i].iri != CalcTargets(root, profile)[j].iri
    ensures forall o :: o in CalcTargets(root, profile) <==> exists n: nat :: IsChosen(Candidates(root, profile), Entry(o, n))
  {
    var all := Candidates(root, profile);
    CandidatesRootOnce(root, profile);
    OfferedSelects(all);
    forall o ensures o in CalcTargets(root, profile) <==> exists n: nat :: IsChosen(all, Entry(o, n)) {
      SelectedIff(all, o);
    }
  }

  lemma {:induction false} SelectedIff(all: seq<Entry>, o: Occurrence)
    requires RootOnce(all)
    ensures o in Occurrences(Offered(all)) <==> exists n: nat :: IsChosen(all, Entry(o, n))
  {
    var entries := Offered(all);
    OfferedSelects(all);
    if o in Occurrences(entries) {
      var i :| 0 <= i < |entries| && entries[i].occurrence == o;
      assert IsChosen(all, Entry(o, entries[i].present));
    }
    if n: nat :| IsChosen(all, Entry(o, n)) {
      OfferedExact(all, Entry(o, n));
      var i :| 0 <= i < |entries| && entries[i] == Entry(o, n);
      assert Occurrences(entries)[i] == o;
    }
  }

  /** Every target is the typed, identified node at its address. */
  lemma TargetIsNode(root: Json, profile: Profile, o: Occurrence)
    requires o in CalcTargets(root, profile)
    ensures o in Entities(root, []) && o.entity == NodeAt(root, o.at)
    ensures EntityType(o.entity) == Some(o.typeName) && EntityId(o.entity) == Some(o.iri)
  {
    TargetsSelected(root, profile);
    var n: nat :| IsChosen(Candidates(root, profile), Entry(o, n));
    var k :| 0 <= k < |Candidates(root, profile)| && Candidates(root, profile)[k] == Entry(o, n);
    assert Entities(root, [])[k] == o;
    EntitiesAt(root, [], o);
    assert o.at[0..] == o.at;
  }

  /** The root is a target whenever it is typed and identified, whatever its sources. */
  lemma RootIsTarget(root: Json, profile: Profile)
    requires Own(root, []) != []
    ensures Own(root, [])[0] in CalcTargets(root, profile)
  {
    var all := Candidates(root, profile);
    var o := Own(root, [])[0];
    assert all[0].occurrence == Entities(root, [])[0] == o;
    assert Chosen(all, 0);
    assert IsChosen(all, Entry(o, all[0].present));
    TargetsSelected(root, profile);
  }

  /** An IRI is a target exactly when some occurrence of it is the root or has an evident source. */
  lemma {:induction false} IriIsTarget(root: Json, profile: Profile, iri: string)
    ensures (exists o :: o in CalcTargets(root, profile) && o.iri == iri) <==>
            exists o :: o in Entities(root, []) && o.iri == iri && (o.at == [] || HasInputs(profile, o.typeName, o.entity))
  {
    var all := Entities(root, []);
    if o :| o in all && o.iri == iri && (o.at == [] || HasInputs(profile, o.typeName, o.entity)) {
      var i :| 0 <= i < |all| && all[i] == o;
      PresentPositive(profile, o.typeName, o.entity);
      var _ := TargetOfCounted(root, profile, Candidates(root, profile)[i]);
    }
    if o :| o in CalcTargets(root, profile) && o.iri == iri {
      var e := CountedOfTarget(root, profile, o);
      TargetIsNode(root, profile, o);
      var i :| 0 <= i < |all| && Candidates(root, profile)[i] == e;
      PresentPositive(profile, o.typeName, o.entity);
    }
  }

  /** No field but those of identity. */
  predicate IsStub(entity: Json)
  {
    entity.Obj? && forall i :: 0 <= i < |entity.fields| ==> entity.fields[i].key in {"@id", "@type"}
  }

  /** Sources name data, not identity. */
  ghost predicate ReadsData(profile: Profile, typeName: string)
  {
    forall source :: source in SourcesOf(SlotsOf(profile, typeName)) ==>
      source.path != [] && source.path[0] !in {"@id", "@type"}
  }

  lemma StubHasNoInputs(profile: Profile, typeName: string, entity: Json)
    requires IsStub(entity) && ReadsData(profile, typeName)
    ensures !HasInputs(profile, typeName, entity)
  {
    forall source | source in SourcesOf(SlotsOf(profile, typeName)) ensures !HasEvidence(entity, source.path) {
      LookupAbsent(entity.fields, source.path[0]);
      PresentIff(entity, source.path);
    }
  }

  /** A relation stub below the root is no target: it has nothing but its identity. */
  lemma {:induction false} StubIsNoTarget(root: Json, profile: Profile, o: Occurrence)
    requires IsStub(o.entity) && o.at != [] && ReadsData(profile, o.typeName)
    ensures o !in CalcTargets(root, profile)
  {
    if o in CalcTargets(root, profile) {
      var e := CountedOfTarget(root, profile, o);
      var i :| 0 <= i < |Candidates(root, profile)| && Candidates(root, profile)[i] == e;
      PresentPositive(profile, o.typeName, o.entity);
      StubHasNoInputs(profile, o.typeName, o.entity);
    }
  }

  lemma {:induction false} TargetOfCounted(root: Json, profile: Profile, e: Entry) returns (o: Occurrence)
    requires e in Candidates(root, profile) && Counts(e.occurrence, e.present)
    ensures o in CalcTargets(root, profile) && o.iri == e.occurrence.iri
  {
    var all, entries := Candidates(root, profile), Offered(Candidates(root, profile));
    CandidatesRootOnce(root, profile);
    OfferedSelects(all);
    CountedIsListed(all, entries, e);
    var i :| 0 <= i < |entries| && entries[i].occurrence.iri == e.occurrence.iri;
    o := CalcTargets(root, profile)[i];
  }

  lemma {:induction false} CountedOfTarget(root: Json, profile: Profile, o: Occurrence) returns (e: Entry)
    requires o in CalcTargets(root, profile)
    ensures e in Candidates(root, profile) && e.occurrence == o && Counts(e.occurrence, e.present)
  {
    var all, entries := Candidates(root, profile), Offered(Candidates(root, profile));
    CandidatesRootOnce(root, profile);
    OfferedSelects(all);
    var i :| 0 <= i < |entries| && entries[i].occurrence == o;
    ListedIsCounted(all, entries, i);
    e := entries[i];
  }

  lemma {:induction false} CountedIsListed(all: seq<Entry>, entries: seq<Entry>, e: Entry)
    requires Selected(all, entries) && e in all && Counts(e.occurrence, e.present)
    ensures Listed(entries, e.occurrence.iri)
  {
    var k :| 0 <= k < |all| && all[k] == e;
  }

  lemma {:induction false} ListedIsCounted(all: seq<Entry>, entries: seq<Entry>, i: nat)
    requires Selected(all, entries) && i < |entries|
    ensures entries[i] in all && Counts(entries[i].occurrence, entries[i].present)
  {
    assert IsChosen(all, entries[i]);
  }
}
