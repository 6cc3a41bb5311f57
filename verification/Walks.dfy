/**
 * What a source path meets on its way through a document (packages/calc-engine/src/warm.ts:62-106),
 * told as walks: from a record to one of its fields along the path, and from an array to each
 * of its items.
 */
module Walks {
  import opened Json
  import opened Fingerprints

  /** A place on the way: a value, and the part of the path that is still to go. */
  datatype Place = Place(value: Json, rest: seq<string>)

  ghost predicate Step(a: Place, b: Place)
  {
    if a.value.Arr? then b.value in a.value.items && b.rest == a.rest
    else a.value.Obj? && a.rest != [] && b == Place(Lookup(a.value.fields, a.rest[0]), a.rest[1..])
  }

  /** A walk of n steps leads from one place to the other. */
  ghost predicate Walk(a: Place, b: Place, n: nat)
    decreases n
  {
    if n == 0 then a == b else exists m :: Step(a, m) && Walk(m, b, n - 1)
  }

  ghost predicate Meets(v: Json, path: seq<string>, b: Place)
  {
    exists n: nat :: Walk(Place(v, path), b, n)
  }

  lemma MeetsNext(a: Place, m: Place, b: Place)
    requires Step(a, m) && Meets(m.value, m.rest, b)
    ensures Meets(a.value, a.rest, b)
  {
    var n: nat :| Walk(Place(m.value, m.rest), b, n);
    assert Walk(a, b, n + 1);
  }

  lemma MeetsItself(v: Json, path: seq<string>)
    ensures Meets(v, path, Place(v, path))
  {
    assert Walk(Place(v, path), Place(v, path), 0);
  }

  /** A defined value at the end of the path, or an empty array on the way. */
  ghost predicate IsEvidence(b: Place)
  {
    b.value == Arr([]) || (b.rest == [] && !b.value.Arr? && b.value != Undefined)
  }

  ghost predicate HasEvidence(v: Json, path: seq<string>)
  {
    exists b :: IsEvidence(b) && Meets(v, path, b)
  }

  /** A source is present if and only if a walk along its path meets evidence. */
  lemma PresentIff(v: Json, path: seq<string>)
    ensures SourcePresent(v, path) <==> HasEvidence(v, path)
  {
    if SourcePresent(v, path) { var _ := EvidenceOfPresent(v, path); }
    if b, n: nat :| IsEvidence(b) && Walk(Place(v, path), b, n) { PresentOfEvidence(v, path, b, n); }
  }

  lemma {:induction false} EvidenceOfPresent(v: Json, path: seq<string>) returns (b: Place)
    requires SourcePresent(v, path)
    ensures IsEvidence(b) && Meets(v, path, b)
    decreases |path|, v
  {
    b := Place(v, path);
    MeetsItself(v, path);
    if v.Arr? && v.items != [] {
      var i :| 0 <= i < |v.items| && SourcePresent(v.items[i], path);
      b := EvidenceOfPresent(v.items[i], path);
      MeetsNext(Place(v, path), Place(v.items[i], path), b);
    } else if !v.Arr? && path != [] {
      b := EvidenceOfPresent(Lookup(v.fields, path[0]), path[1..]);
      MeetsNext(Place(v, path), Place(Lookup(v.fields, path[0]), path[1..]), b);
    }
  }

  lemma {:induction false} PresentOfEvidence(v: Json, path: seq<string>, b: Place, n: nat)
    requires IsEvidence(b) && Walk(Place(v, path), b, n)
    ensures SourcePresent(v, path)
    decreases n
  {
    if n > 0 {
      var m :| Step(Place(v, path), m) && Walk(m, b, n - 1);
      PresentOfEvidence(m.value, m.rest, b, n - 1);
      if v.Arr? { var i :| 0 <= i < |v.items| && v.items[i] == m.value; }
    }
  }

  /** The list flag is set if and only if a walk meets an array. */
  lemma ArrayMetIff(v: Json, path: seq<string>)
    ensures ArrayDerived(v, path) <==> exists b: Place :: b.value.Arr? && Meets(v, path, b)
  {
    if ArrayDerived(v, path) { var _ := ArrayOfDerived(v, path); }
    if b: Place, n: nat :| b.value.Arr? && Walk(Place(v, path), b, n) { DerivedOfArray(v, path, b, n); }
  }

  lemma {:induction false} ArrayOfDerived(v: Json, path: seq<string>) returns (b: Place)
    requires ArrayDerived(v, path)
    ensures b.value.Arr? && Meets(v, path, b)
    decreases |path|
  {
    b := Place(v, path);
    MeetsItself(v, path);
    if !v.Arr? {
      b := ArrayOfDerived(Lookup(v.fields, path[0]), path[1..]);
      MeetsNext(Place(v, path), Place(Lookup(v.fields, path[0]), path[1..]), b);
    }
  }

  lemma {:induction false} DerivedOfArray(v: Json, path: seq<string>, b: Place, n: nat)
    requires b.value.Arr? && Walk(Place(v, path), b, n)
    ensures ArrayDerived(v, path)
    decreases n
  {
    if n > 0 && !v.Arr? {
      var m :| Step(Place(v, path), m) && Walk(m, b, n - 1);
      DerivedOfArray(m.value, m.rest, b, n - 1);
    }
  }

  /** Where a walk cannot go on: the end of the path, or a scalar before it. */
  ghost predicate IsEnd(b: Place)
  {
    !b.value.Arr? && (b.rest == [] || !b.value.Obj?)
  }

  /** A value counts as undefined when the path goes on below a scalar. */
  function EndValue(b: Place): Json
  {
    if b.rest == [] then b.value else Undefined
  }

  /** The places of one walk, in order. */
  ghost predicate Trail(ps: seq<Place>)
  {
    ps != [] && forall i :: 0 <= i < |ps| - 1 ==> Step(ps[i], ps[i + 1])
  }

  /** An identified record that the walk leaves through a field, or enters as an item. */
  ghost predicate NamesOwner(ps: seq<Place>, i: nat)
    requires i < |ps|
  {
    EntityId(ps[i].value).Some? && (i < |ps| - 1 || (i > 0 && ps[i - 1].value.Arr?))
  }

  /** The last of these, if there is any. */
  ghost predicate OwnerIs(ps: seq<Place>, outer: Option<string>, owner: Option<string>)
  {
    || (exists i :: 0 <= i < |ps| && NamesOwner(ps, i) && owner == EntityId(ps[i].value)
          && forall j :: i < j < |ps| ==> !NamesOwner(ps, j))
    || ((forall i :: 0 <= i < |ps| ==> !NamesOwner(ps, i)) && owner == outer)
  }

  ghost predicate LeadsTo(ps: seq<Place>, v: Json, path: seq<string>, outer: Option<string>, pv: PathValue)
  {
    && Trail(ps) && ps[0] == Place(v, path)
    && IsEnd(ps[|ps| - 1]) && EndValue(ps[|ps| - 1]) == pv.value && OwnerIs(ps, outer, pv.owner)
  }

  /**
   * The values of a path are those where its walks end, each owned by the last identified record
   * on the way, and no others.
   */
  lemma ValuesOwned(v: Json, path: seq<string>, outer: Option<string>, pv: PathValue)
    ensures pv in Values(v, path, outer) <==> exists ps :: LeadsTo(ps, v, path, outer, pv)
  {
    if pv in Values(v, path, outer) { var _ := TrailOfValue(v, path, outer, pv); }
    if ps :| LeadsTo(ps, v, path, outer, pv) { ValueOfTrail(ps, v, path, outer, pv); }
  }

  /** The owner after one step. */
  function OwnerAfterStep(a: Place, m: Place, outer: Option<string>): Option<string>
  {
    Or(EntityId(if a.value.Arr? then m.value else a.value), outer)
  }

  lemma TailNames(ps: seq<Place>, i: nat)
    requires |ps| > 1 && Trail(ps) && i < |ps| - 1
    ensures NamesOwner(ps[1..], i) ==> NamesOwner(ps, i + 1)
    ensures NamesOwner(ps, i + 1) ==> NamesOwner(ps[1..], i) || (i == 0 && ps[0].value.Arr?)
  {
    assert ps[1..][i] == ps[i + 1] && (i > 0 ==> ps[1..][i - 1] == ps[i]);
  }

  ghost predicate IsLast(ps: seq<Place>, k: int)
  {
    && -1 <= k < |ps| && (k >= 0 ==> NamesOwner(ps, k))
    && forall j :: k < j < |ps| ==> !NamesOwner(ps, j)
  }

  lemma {:induction false} LastNamed(ps: seq<Place>, from: nat) returns (k: int)
    requires from <= |ps| && forall j :: from <= j < |ps| ==> !NamesOwner(ps, j)
    ensures IsLast(ps, k)
  {
    if from == 0 {
      k := -1;
    } else if NamesOwner(ps, from - 1) {
      k := from - 1;
    } else {
      k := LastNamed(ps, from - 1);
    }
  }

  lemma OwnerByLast(ps: seq<Place>, k: int, outer: Option<string>, owner: Option<string>)
    requires IsLast(ps, k)
    ensures OwnerIs(ps, outer, owner) <==> owner == if k >= 0 then EntityId(ps[k].value) else outer
  {
    if i :| 0 <= i < |ps| && NamesOwner(ps, i) && forall j :: i < j < |ps| ==> !NamesOwner(ps, j) {
      assert i == k;
    }
  }

  lemma OwnerShifts(ps: seq<Place>, outer: Option<string>, owner: Option<string>)
    requires |ps| > 1 && Trail(ps)
    ensures OwnerIs(ps, outer, owner) <==> OwnerIs(ps[1..], OwnerAfterStep(ps[0], ps[1], outer), owner)
  {
    var tail := ps[1..];
    assert Step(ps[0], ps[1]) && tail[0] == ps[1];
    var k := LastNamed(tail, |tail|);
    var l := if k >= 0 then k + 1 else if NamesOwner(ps, 1) then 1 else if NamesOwner(ps, 0) then 0 else -1;
    TailNames(ps, 0);
    if k >= 0 { TailNames(ps, k); }
    forall j | l < j < |ps| ensures !NamesOwner(ps, j) {
      if j > 0 { TailNames(ps, j - 1); }
    }
    OwnerByLast(tail, k, OwnerAfterStep(ps[0], ps[1], outer), owner);
    OwnerByLast(ps, l, outer, owner);
  }

  function ItemValues(v: Json, path: seq<string>, owner: Option<string>): (r: seq<seq<PathValue>>)
    requires v.Arr?
    ensures |r| == |v.items|
  {
    seq(|v.items|, i requires 0 <= i < |v.items| => Values(v.items[i], path, Or(EntityId(v.items[i]), owner)))
  }

  lemma LeadsOn(ps: seq<Place>, a: Place, outer: Option<string>, pv: PathValue)
    requires ps != [] && Step(a, ps[0])
    ensures LeadsTo([a] + ps, a.value, a.rest, outer, pv) <==>
            LeadsTo(ps, ps[0].value, ps[0].rest, OwnerAfterStep(a, ps[0], outer), pv)
  {
    var all := [a] + ps;
    assert all[1..] == ps && all[|all| - 1] == ps[|ps| - 1];
    if Trail(all) {
      forall i | 0 <= i < |ps| - 1 ensures Step(ps[i], ps[i + 1]) { assert Step(all[i + 1], all[i + 2]); }
    }
    if Trail(ps) {
      forall i | 0 <= i < |all| - 1 ensures Step(all[i], all[i + 1]) { assert i > 0 ==> Step(ps[i - 1], ps[i]); }
      OwnerShifts(all, outer, pv.owner);
    }
  }

  lemma {:induction false} TrailOfValue(v: Json, path: seq<string>, outer: Option<string>, pv: PathValue)
    returns (ps: seq<Place>)
    requires pv in Values(v, path, outer)
    ensures LeadsTo(ps, v, path, outer, pv)
    decreases |path|, v
  {
    var a := Place(v, path);
    if v.Arr? {
      assert Values(v, path, outer) == Concat(ItemValues(v, path, outer));
      var i := ConcatMember(ItemValues(v, path, outer), pv);
      ps := TrailOfValue(v.items[i], path, Or(EntityId(v.items[i]), outer), pv);
      LeadsOn(ps, a, outer, pv);
      ps := [a] + ps;
    } else if path != [] && v.Obj? {
      ps := TrailOfValue(Lookup(v.fields, path[0]), path[1..], Or(EntityId(v), outer), pv);
      LeadsOn(ps, a, outer, pv);
      ps := [a] + ps;
    } else {
      ps := [a];
    }
  }

  lemma {:induction false} ValueOfTrail(
      ps: seq<Place>, v: Json, path: seq<string>, outer: Option<string>, pv: PathValue)
    requires LeadsTo(ps, v, path, outer, pv)
    ensures pv in Values(v, path, outer)
    decreases |ps|
  {
    if |ps| > 1 {
      var m, tail := ps[1], ps[1..];
      assert Step(ps[0], m) && [ps[0]] + tail == ps;
      LeadsOn(tail, ps[0], outer, pv);
      ValueOfTrail(tail, m.value, m.rest, OwnerAfterStep(ps[0], m, outer), pv);
      if v.Arr? {
        var i :| 0 <= i < |v.items| && v.items[i] == m.value;
        assert Values(v, path, outer) == Concat(ItemValues(v, path, outer));
        ConcatContains(ItemValues(v, path, outer), i, pv);
      }
    } else {
      assert pv == PathValue(EndValue(ps[0]), outer);
    }
  }
}
