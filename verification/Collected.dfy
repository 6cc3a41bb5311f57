/**
 * Which records `collectEntities` collects, in which order, and what type they are taken to have
 * (packages/calc-engine/src/warm.ts:186-209, packages/formula-runtime/src/evaluateCompiledProfile.ts:151-160).
 */
module Collected {
  import opened Json
  import opened Fingerprints
  import opened Targets

  // ----- exactly the typed and identified records -----

  ghost predicate IsAddress(v: Json, at: seq<nat>)
    decreases |at|
  {
    at == [] || (at[0] < |Children(v)| && IsAddress(Children(v)[at[0]], at[1..]))
  }

  ghost predicate IsEntity(v: Json, typeName: string, iri: string)
  {
    EntityType(v) == Some(typeName) && EntityId(v) == Some(iri) && iri != ""
  }

  /** Collected are the records with a type and a non-empty id, each with its address, and nothing else. */
  lemma EntitiesExact(root: Json, o: Occurrence)
    ensures o in Entities(root, []) <==>
            IsAddress(root, o.at) && o.entity == NodeAt(root, o.at) && IsEntity(o.entity, o.typeName, o.iri)
  {
    if o in Entities(root, []) {
      EntitiesAt(root, [], o);
      assert o.at[0..] == o.at;
      EntityIsNamed(root, [], o);
      EntityHasAddress(root, [], o);
    }
    if IsAddress(root, o.at) && o.entity == NodeAt(root, o.at) && IsEntity(o.entity, o.typeName, o.iri) {
      AddressIsCollected(root, [], o.at);
      assert [] + o.at == o.at;
    }
  }

  lemma {:induction false} EntityHasAddress(v: Json, at: seq<nat>, o: Occurrence)
    requires o in Entities(v, at)
    ensures |at| <= |o.at| && IsAddress(v, o.at[|at|..])
    decreases v
  {
    EntitiesAt(v, at, o);
    if o in Own(v, at) {
      assert o.at[|at|..] == [];
    } else {
      var i := ConcatMember(Below(v, at), o);
      EntitiesAt(Children(v)[i], at + [i], o);
      EntityHasAddress(Children(v)[i], at + [i], o);
      var rest := o.at[|at|..];
      assert o.at[..|at| + 1] == at + [i];
      assert rest[0] == o.at[|at|] == (at + [i])[|at|] == i;
      assert rest[1..] == o.at[|at + [i]|..];
    }
  }

  lemma {:induction false} AddressIsCollected(v: Json, at: seq<nat>, b: seq<nat>)
    requires IsAddress(v, b)
    ensures var e := NodeAt(v, b);
      EntityType(e).Some? && EntityId(e).Some? && EntityId(e).value != "" ==>
        Occurrence(EntityType(e).value, EntityId(e).value, e, at + b) in Entities(v, at)
    decreases |b|
  {
    var e := NodeAt(v, b);
    if EntityType(e).Some? && EntityId(e).Some? && EntityId(e).value != "" {
      var o := Occurrence(EntityType(e).value, EntityId(e).value, e, at + b);
      if b == [] {
        assert at + [] == at;
        assert o in Own(v, at);
      } else {
        AddressIsCollected(Children(v)[b[0]], at + [b[0]], b[1..]);
        assert at + b == at + [b[0]] + b[1..];
        ConcatContains(Below(v, at), b[0], o);
      }
    }
  }

  // ----- in document order -----

  /** A record comes before those inside it, and before those in later children. */
  ghost predicate Before(a: seq<nat>, b: seq<nat>)
    decreases |a|
  {
    b != [] && (a == [] || a[0] < b[0] || (a[0] == b[0] && Before(a[1..], b[1..])))
  }

  ghost predicate InOrder(all: seq<Occurrence>)
  {
    forall i, j :: 0 <= i < j < |all| ==> Before(all[i].at, all[j].at)
  }

  lemma {:induction false} BeforeExtends(at: seq<nat>, a: seq<nat>, b: seq<nat>)
    requires Before(a, b)
    ensures Before(at + a, at + b)
    decreases |at|
  {
    if at == [] {
      assert at + a == a && at + b == b;
    } else {
      assert (at + a)[1..] == at[1..] + a && (at + b)[1..] == at[1..] + b;
      BeforeExtends(at[1..], a, b);
    }
  }

  ghost predicate ListsInOrder(lists: seq<seq<Occurrence>>)
  {
    && (forall i :: 0 <= i < |lists| ==> InOrder(lists[i]))
    && forall i, j, x, y :: 0 <= i < j < |lists| && x in lists[i] && y in lists[j] ==> Before(x.at, y.at)
  }

  lemma {:induction false} ConcatInOrder(lists: seq<seq<Occurrence>>)
    requires ListsInOrder(lists)
    ensures InOrder(Concat(lists))
  {
    if lists != [] {
      var rest := Concat(lists[1..]);
      assert ListsInOrder(lists[1..]);
      ConcatInOrder(lists[1..]);
      forall x, y | x in lists[0] && y in rest ensures Before(x.at, y.at) {
        var j := ConcatMember(lists[1..], y);
        assert y in lists[j + 1];
      }
      AppendInOrder(lists[0], rest);
    }
  }

  lemma AppendInOrder(a: seq<Occurrence>, b: seq<Occurrence>)
    requires InOrder(a) && InOrder(b) && forall x, y :: x in a && y in b ==> Before(x.at, y.at)
    ensures InOrder(a + b)
  {
    forall i, j | 0 <= i < j < |a + b| ensures Before((a + b)[i].at, (a + b)[j].at) {
      if i < |a| <= j {
        assert (a + b)[i] in a && (a + b)[j] in b;
      } else if j >= |a| {
        assert (a + b)[i] == b[i - |a|] && (a + b)[j] == b[j - |a|];
      }
    }
  }

  /** Records are collected in document order, parents before what is inside them. */
  lemma {:induction false} CollectedInOrder(v: Json, at: seq<nat>)
    ensures InOrder(Entities(v, at))
    decreases v
  {
    var lists := Below(v, at);
    forall i | 0 <= i < |lists| ensures InOrder(lists[i]) { CollectedInOrder(Children(v)[i], at + [i]); }
    forall i, j, x: Occurrence, y: Occurrence | 0 <= i < j < |lists| && x in lists[i] && y in lists[j] ensures Before(x.at, y.at) {
      ChildBefore(v, at, i, x, j, y);
    }
    ConcatInOrder(lists);
    forall x, y | x in Own(v, at) && y in Concat(lists) ensures Before(x.at, y.at) {
      var i := ConcatMember(lists, y);
      EntitiesAt(Children(v)[i], at + [i], y);
      Inside(at, i, y.at);
    }
    AppendInOrder(Own(v, at), Concat(lists));
  }

  lemma Inside(at: seq<nat>, i: nat, b: seq<nat>)
    requires |at| < |b| && b[..|at| + 1] == at + [i]
    ensures Before(at, b)
  {
    var rest := b[|at|..];
    assert b[..|at|] == b[..|at| + 1][..|at|] == at;
    assert b == at + rest && at + [] == at;
    BeforeExtends(at, [], rest);
  }

  lemma ChildBefore(v: Json, at: seq<nat>, i: nat, x: Occurrence, j: nat, y: Occurrence)
    requires i < j < |Children(v)| && x in Entities(Children(v)[i], at + [i]) && y in Entities(Children(v)[j], at + [j])
    ensures Before(x.at, y.at)
  {
    EntitiesAt(Children(v)[i], at + [i], x);
    EntitiesAt(Children(v)[j], at + [j], y);
    Splits(at, i, x.at);
    Splits(at, j, y.at);
    BeforeExtends(at, x.at[|at|..], y.at[|at|..]);
  }

  lemma Splits(at: seq<nat>, i: nat, b: seq<nat>)
    requires |at| < |b| && b[..|at| + 1] == at + [i]
    ensures b == at + b[|at|..] && b[|at|..][0] == i
  {
    assert b[|at|] == b[..|at| + 1][|at|] == i;
    assert b[..|at|] == b[..|at| + 1][..|at|] == at;
  }

  // ----- the type of a record -----

  lemma {:induction false} LastPart(prefix: string, c: char, name: string)
    requires c !in name
    ensures AfterLast(prefix + [c] + name, c) == name
  {
    var s := prefix + [c] + name;
    if prefix == "" {
      assert s == [c] + name && s[1..] == name;
    } else {
      assert s[1..] == prefix[1..] + [c] + name;
      assert c in s[1..] by { assert s[1..][|prefix| - 1] == c; }
      LastPart(prefix[1..], c, name);
    }
  }

  /** The type is what follows the last `#`, or the last `/` when there is no `#`, or the whole text. */
  lemma TypeIsLocalName(fields: seq<Field>, prefix: string, name: string)
    requires '#' !in name && name != ""
    ensures Lookup(fields, "@type") == Str(prefix + "#" + name) ==> EntityType(Obj(fields)) == Some(name)
    ensures Lookup(fields, "@type") == Str(prefix + "#") ==> EntityType(Obj(fields)) == None
    ensures '#' !in prefix && '/' !in name && Lookup(fields, "@type") == Str(prefix + "/" + name) ==>
              EntityType(Obj(fields)) == Some(name)
    ensures '/' !in name && Lookup(fields, "@type") == Str(name) ==> EntityType(Obj(fields)) == Some(name)
  {
    LastPart(prefix, '#', name);
    LastPart(prefix, '#', "");
    assert prefix + "#" == prefix + ['#'] + "";
    assert '#' in prefix + "#" + name && '#' in prefix + "#" by {
      assert (prefix + "#" + name)[|prefix|] == '#' && (prefix + "#")[|prefix|] == '#';
    }
    if '/' !in name {
      LastPart(prefix, '/', name);
      NoSlash(name);
    }
  }
}
